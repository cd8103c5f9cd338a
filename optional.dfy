/**
 `bmstu::optional<T>`: a container that holds either nothing or exactly one
 `T`, built in place inside storage the container owns, with a flag that says
 which.

 The storage block is modelled by `Storage<T>`: raw bytes (`Uninit`) or a
 live `T` built in them (`Holds`). The flag is a separate field, as in the
 C++ class, so the moment inside `emplace` where the flag already says
 "engaged" but nothing has been built yet is visible. Every operation of `T`
 run on the storage is appended to a ghost log of `Lifetime.Event`s.

 The pure `...Step` functions say what each member does to the storage and
 which events it performs; the class methods follow the C++ branch structure
 and are proved against them.
 */
module Bmstu {
  import opened Lifetime

  /** What the aligned byte block `data_` currently contains. */
  datatype Storage<T> = Uninit | Holds(value: T)

  /** The one error kind of the component. */
  datatype Error = BadOptionalAccess

  /** The result of checked access: the held value, or `bad_optional_access`. */
  datatype Result<T> = Ok(value: T) | Err(error: Error)

  /** The storage after an operation, and the events that operation ran on it. */
  datatype Step<T> = Step(storage: Storage<T>, events: seq<Event>)

  /**
   `reset()`: destroys the held value if there is one. The storage ends raw;
   exactly one destruction happens when it was engaged, none otherwise, and
   nothing is constructed or assigned.
   */
  function ResetStep<T>(s: Storage<T>): (r: Step<T>)
    ensures r.storage == Uninit
    ensures Run(s.Holds?, r.events) == Ends(false)
    ensures Constructions(r.events) == 0
    ensures Destructions(r.events) == Bit(s.Holds?)
    ensures forall e <- r.events :: !e.IsAssignment()
  {
    if s.Holds? then Step(Uninit, [Destroy]) else Step(Uninit, [])
  }

  /**
   `operator=(const T&)` and `operator=(T&&)`: the container ends holding `v`.
   An engaged container reuses its live value through one assignment of the
   argument's category and constructs or destroys nothing; a disengaged one
   constructs `v` in place with the constructor of that category.
   */
  function AssignValueStep<T>(s: Storage<T>, v: T, k: Kind): (r: Step<T>)
    ensures r.storage == Holds(v)
    ensures Run(s.Holds?, r.events) == Ends(true)
    ensures Destructions(r.events) == 0
    ensures Constructions(r.events) == 1 - Bit(s.Holds?)
    ensures s.Holds? ==> r.events == [AssignEvent(k)]
    ensures s.Uninit? ==> r.events == [ConstructEvent(k)]
  {
    if s.Holds? then Step(Holds(v), [AssignEvent(k)])
    else Step(Holds(v), [ConstructEvent(k)])
  }

  /**
   `operator=(const optional&)` and `operator=(optional&&)` between two
   distinct containers, the four-case table: afterwards this container's
   storage equals the source's (same engagement, same value), the event log
   respects the storage discipline, and the live count moves from this
   container's old engagement to the source's.
   */
  function AssignOptionalStep<T>(s: Storage<T>, o: Storage<T>, k: Kind): (r: Step<T>)
    ensures r.storage == o
    ensures Run(s.Holds?, r.events) == Ends(o.Holds?)
    ensures Live(r.events) == Bit(o.Holds?) - Bit(s.Holds?)
    ensures s.Holds? && o.Holds? ==> r.events == [AssignEvent(k)]
    ensures s.Uninit? && o.Holds? ==> r.events == [ConstructEvent(k)]
    ensures s.Holds? && o.Uninit? ==> r.events == [Destroy]
    ensures s.Uninit? && o.Uninit? ==> r.events == []
  {
    if o.Holds? then AssignValueStep(s, o.value, k) else ResetStep(s)
  }

  /**
   `emplace(args...)`: the container ends holding the newly constructed
   value. The previous value is destroyed exactly once if there was one, and
   before the new one is built; exactly one construction happens, and no
   assignment.
   */
  function EmplaceStep<T>(s: Storage<T>, v: T): (r: Step<T>)
    ensures r.storage == Holds(v)
    ensures Run(s.Holds?, r.events) == Ends(true)
    ensures Constructions(r.events) == 1
    ensures Destructions(r.events) == Bit(s.Holds?)
    ensures r.events[|r.events| - 1] == ArgsConstruct
    ensures forall e <- r.events :: !e.IsAssignment()
  {
    var d := ResetStep(s);
    RunAppend(s.Holds?, d.events, [ArgsConstruct]);
    CountsAppend(d.events, [ArgsConstruct]);
    Step(Holds(v), d.events + [ArgsConstruct])
  }

  /** A mutating member call on a container, with the storage-side data it needs. */
  datatype Op<T> =
    | AssignValueOp(v: T, k: Kind)
    | AssignOptionalOp(source: Storage<T>, k: Kind)
    | EmplaceOp(v: T)
    | ResetOp

  function Apply<T>(s: Storage<T>, op: Op<T>): (r: Step<T>) {
    match op
    case AssignValueOp(v, k) => AssignValueStep(s, v, k)
    case AssignOptionalOp(o, k) => AssignOptionalStep(s, o, k)
    case EmplaceOp(v) => EmplaceStep(s, v)
    case ResetOp => ResetStep(s)
  }

  /** A run of member calls on one container: its final storage and all events, in order. */
  function Trace<T>(s: Storage<T>, ops: seq<Op<T>>): (r: Step<T>)
    decreases |ops|
  {
    if ops == [] then Step(s, [])
    else
      var first := Apply(s, ops[0]);
      var rest := Trace(first.storage, ops[1..]);
      Step(rest.storage, first.events + rest.events)
  }

  /**
   Any run of member calls keeps the storage discipline: every construction
   hits raw storage, every assignment and destruction a live value, and the
   run ends engaged exactly when its final storage holds a value.
   */
  lemma {:induction false} TraceKeepsDiscipline<T>(s: Storage<T>, ops: seq<Op<T>>)
    ensures Run(s.Holds?, Trace(s, ops).events) == Ends(Trace(s, ops).storage.Holds?)
    decreases |ops|
  {
    if ops != [] {
      var first := Apply(s, ops[0]);
      TraceKeepsDiscipline(first.storage, ops[1..]);
      RunAppend(s.Holds?, first.events, Trace(first.storage, ops[1..]).events);
    }
  }

  /**
   The lifetime of a container from default construction to its destructor:
   whatever member calls happen in between, the destructor brings the number
   of live `T`s that the container built back to zero.
   */
  lemma ScopeExitBalanced<T>(ops: seq<Op<T>>)
    ensures Live(Trace(Uninit, ops).events + ResetStep(Trace(Uninit, ops).storage).events) == 0
  {
    var t := Trace(Uninit, ops);
    var fin := ResetStep(t.storage);
    TraceKeepsDiscipline(Uninit, ops);
    RunAppend(false, t.events, fin.events);
    RunBalance(false, t.events + fin.events, false);
  }

  /**
   The key invariant of a valid container: the `T`s it has constructed in its
   storage, minus those it has destroyed, number 1 when it is engaged and 0
   when it is not.
   */
  lemma LiveInstances<T>(o: Optional<T>)
    requires o.Valid()
    ensures Live(o.log) == if o.isInitialized then 1 else 0
  {
    RunBalance(false, o.log, o.isInitialized);
  }

  /**
   The container. `isInitialized` is `is_initialized_`, `data` is `data_`;
   `log` records what the container has done to `data` since it was built.
   */
  class Optional<T> {
    var isInitialized: bool
    var data: Storage<T>
    ghost var log: seq<Event>

    /**
     The flag tells the truth about the storage, and the log of everything
     done to the storage since the container was built respects the lifetime
     discipline and ends in the state the flag names.
     */
    ghost predicate Valid()
      reads this
    {
      && (isInitialized <==> data.Holds?)
      && Run(false, log) == Ends(isInitialized)
    }

    /** `optional() = default`: disengaged, and no `T` is constructed. */
    constructor ()
      ensures Valid() && !isInitialized && data == Uninit && log == []
    {
      isInitialized := false;
      data := Uninit;
      log := [];
    }

    /** `optional(const T&)`: engaged by one copy construction of `value`. */
    constructor FromCopy(value: T)
      ensures Valid() && isInitialized && data == Holds(value)
      ensures log == [CopyConstruct]
    {
      isInitialized := true;
      data := Holds(value);
      log := [CopyConstruct];
    }

    /** `optional(T&&)`: engaged by one move construction of `value`. */
    constructor FromMove(value: T)
      ensures Valid() && isInitialized && data == Holds(value)
      ensures log == [MoveConstruct]
    {
      isInitialized := true;
      data := Holds(value);
      log := [MoveConstruct];
    }

    /**
     `optional(const optional&)`. The class declares no move constructor, so
     this one also serves construction from an rvalue optional. The flag
     starts false from its member initialiser, so of the four branches of the
     C++ body only the two that test it false can run: the copy is the
     assignment of `other` into a fresh disengaged container.
     */
    constructor CopyOf(other: Optional<T>)
      requires other.Valid()
      ensures Valid() && data == other.data
      ensures log == AssignOptionalStep(Uninit, other.data, Copy).events
    {
      isInitialized := false;
      data := Uninit;
      log := [];
      new;
      var sourceEngaged := other.isInitialized;
      if isInitialized && sourceEngaged {
        assert false;
      } else if !isInitialized && sourceEngaged {
        data := Holds(other.Value().value);
        isInitialized := true;
        log := log + [CopyConstruct];
      } else if isInitialized && !sourceEngaged {
        assert false;
      }
    }

    /** `has_value()`: whether the storage holds a live value. */
    function HasValue(): (b: bool)
      reads this
      requires Valid()
      ensures b <==> data.Holds?
    {
      isInitialized
    }

    /**
     `value()`: checked access. Fails with `bad_optional_access` exactly when
     the container is disengaged; otherwise yields the held value. Being a
     function, it changes neither the flag nor the value.
     */
    function Value(): (r: Result<T>)
      reads this
      requires Valid()
      ensures r.Err? <==> data == Uninit
      ensures r.Err? ==> r.error == BadOptionalAccess
      ensures r.Ok? ==> data == Holds(r.value)
    {
      if !isInitialized then Err(BadOptionalAccess) else Ok(data.value)
    }

    /**
     `operator*` and `operator->`: unchecked access to the held value. Using
     them on a disengaged container is undefined behaviour in C++, so the
     engagement is the caller's obligation here.
     */
    function Deref(): (v: T)
      reads this
      requires Valid() && isInitialized
      ensures data == Holds(v)
    {
      data.value
    }

    /** `reset()`: destroys a held value and disengages; a no-op when disengaged. */
    method Reset()
      requires Valid()
      modifies this
      ensures Valid() && !isInitialized
      ensures data == ResetStep(old(data)).storage
      ensures log == old(log) + ResetStep(old(data)).events
    {
      RunAppend(false, log, ResetStep(data).events);
      if isInitialized {
        data := Uninit;
        log := log + [Destroy];
        isInitialized := false;
      }
    }

    /**
     `~optional()`: runs `reset()`. Afterwards every `T` the container built
     has been destroyed exactly once.
     */
    method Destruct()
      requires Valid()
      modifies this
      ensures Valid() && !isInitialized
      ensures data == Uninit
      ensures log == old(log) + ResetStep(old(data)).events
      ensures Live(log) == 0
    {
      Reset();
      RunBalance(false, log, false);
    }

    /** `operator=(const T&)` (k == Copy) and `operator=(T&&)` (k == Move). */
    method Assign(value: T, k: Kind)
      requires Valid()
      modifies this
      ensures Valid() && isInitialized
      ensures data == AssignValueStep(old(data), value, k).storage
      ensures log == old(log) + AssignValueStep(old(data), value, k).events
    {
      RunAppend(false, log, AssignValueStep(data, value, k).events);
      if isInitialized {
        data := Holds(value);
        log := log + [AssignEvent(k)];
      } else {
        data := Holds(value);
        isInitialized := true;
        log := log + [ConstructEvent(k)];
      }
    }

    /**
     `operator=(const optional&)`. Self-assignment returns at once; otherwise
     the four-case table of `AssignOptionalStep` with copy operations. The
     source container is never changed.
     */
    method AssignFrom(other: Optional<T>)
      requires Valid() && other.Valid()
      modifies this
      ensures Valid()
      ensures other.isInitialized == old(other.isInitialized) && other.data == old(other.data)
      ensures other == this ==> data == old(data) && log == old(log)
      ensures other != this ==> data == old(other.data)
      ensures other != this ==>
        log == old(log) + AssignOptionalStep(old(data), old(other.data), Copy).events
    {
      if other == this {
        return;
      }
      RunAppend(false, log, AssignOptionalStep(data, other.data, Copy).events);
      if isInitialized && other.isInitialized {
        data := Holds(other.Value().value);
        log := log + [CopyAssign];
      } else if !isInitialized && other.isInitialized {
        data := Holds(other.Value().value);
        isInitialized := true;
        log := log + [CopyConstruct];
      } else if isInitialized && !other.isInitialized {
        Reset();
      } else if !isInitialized && !other.isInitialized {
        return;
      }
    }

    /**
     `operator=(optional&&)`: the four-case table with move operations. `T`'s
     move leaves its source valid but unspecified; `movedFrom` is the value it
     leaves there. There is no self-assignment test, so moving a container
     into itself move-assigns its value onto itself.
     */
    method MoveAssignFrom(other: Optional<T>, movedFrom: T)
      requires Valid() && other.Valid()
      modifies this, other
      ensures Valid() && other.Valid()
      ensures log == old(log) + AssignOptionalStep(old(data), old(other.data), Move).events
      ensures other != this ==> data == old(other.data)
      ensures other != this ==> other.isInitialized == old(other.isInitialized)
      ensures other != this ==> other.log == old(other.log)
      ensures other != this ==>
        other.data == (if old(other.data).Holds? then Holds(movedFrom) else Uninit)
      ensures other == this ==>
        data == (if old(data).Holds? then Holds(movedFrom) else Uninit)
    {
      RunAppend(false, log, AssignOptionalStep(data, other.data, Move).events);
      if isInitialized && other.isInitialized {
        data := Holds(other.Value().value);
        log := log + [MoveAssign];
        other.data := Holds(movedFrom);
      } else if !isInitialized && other.isInitialized {
        data := Holds(other.Value().value);
        isInitialized := true;
        log := log + [MoveConstruct];
        other.data := Holds(movedFrom);
      } else if isInitialized && !other.isInitialized {
        Reset();
      } else if !isInitialized && !other.isInitialized {
        return;
      }
    }

    /**
     `emplace(args...)`, with `value` standing for the `T` that the forwarded
     arguments construct. The flag is set before the construction, as in the
     C++ body; in between, the flag says engaged over raw storage.
     */
    method Emplace(value: T)
      requires Valid()
      modifies this
      ensures Valid() && isInitialized
      ensures data == EmplaceStep(old(data), value).storage
      ensures log == old(log) + EmplaceStep(old(data), value).events
    {
      ghost var before := log;
      RunAppend(false, log, EmplaceStep(data, value).events);
      if isInitialized {
        Reset();
      }
      isInitialized := true;
      assert data == Uninit;
      data := Holds(value);
      log := log + [ArgsConstruct];
      assert log == before + (ResetStep(old(data)).events + [ArgsConstruct]);
    }
  }
}
