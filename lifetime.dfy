/**
 The lifetime discipline of the storage block inside `bmstu::optional<T>`.

 Every special member of `T` that the container runs on its own storage is
 recorded as an `Event`: a placement construction (from a copy, from a move,
 or from forwarded constructor arguments), an assignment into the held value
 (copy or move), or an explicit destructor call. `Run` replays such a log
 against the two-state machine {disengaged, engaged} and says whether every
 event happened in a state that allows it; the lemmas below show that a log
 that respects the discipline, replayed from raw storage, has constructed
 exactly one more `T` than it has destroyed when, and only when, it leaves
 the storage engaged. Each event is atomic: an operation of `T` cannot call
 back into the container while it runs.
 */
module Lifetime {

  /** The value category of an argument: `const T&` (copy) or `T&&` (move). */
  datatype Kind = Copy | Move

  /** One operation of `T` performed on the container's storage. */
  datatype Event =
    | CopyConstruct   // placement new of T(const T&)
    | MoveConstruct   // placement new of T(T&&)
    | ArgsConstruct   // placement new of T(args...) in emplace
    | CopyAssign      // T::operator=(const T&) on the held value
    | MoveAssign      // T::operator=(T&&) on the held value
    | Destroy         // explicit ~T() on the held value
  {
    predicate IsConstruction() {
      CopyConstruct? || MoveConstruct? || ArgsConstruct?
    }

    predicate IsAssignment() {
      CopyAssign? || MoveAssign?
    }
  }

  /** The construction event that an argument of category `k` selects. */
  function ConstructEvent(k: Kind): (e: Event)
    ensures e.IsConstruction() && e != ArgsConstruct
    ensures (e == CopyConstruct) <==> (k == Copy)
  {
    match k
    case Copy => CopyConstruct
    case Move => MoveConstruct
  }

  /** The assignment event that an argument of category `k` selects. */
  function AssignEvent(k: Kind): (e: Event)
    ensures e.IsAssignment()
    ensures (e == CopyAssign) <==> (k == Copy)
  {
    match k
    case Copy => CopyAssign
    case Move => MoveAssign
  }

  /** 1 for an engaged storage, 0 for a disengaged one. */
  function Bit(engaged: bool): (n: nat) {
    if engaged then 1 else 0
  }

  /** Number of placement constructions in a log. */
  function Constructions(log: seq<Event>): (n: nat) {
    if log == [] then 0
    else (if log[0].IsConstruction() then 1 else 0) + Constructions(log[1..])
  }

  /** Number of destructor calls in a log. */
  function Destructions(log: seq<Event>): (n: nat) {
    if log == [] then 0
    else (if log[0].Destroy? then 1 else 0) + Destructions(log[1..])
  }

  /** How many instances of `T` a log has brought to life and not yet destroyed. */
  function Live(log: seq<Event>): (n: int) {
    Constructions(log) - Destructions(log)
  }

  /** Outcome of replaying a log: it broke the discipline, or it ends in the given state. */
  datatype Replay = Broken | Ends(engaged: bool)

  /**
   Replays `log` starting from a storage that is engaged iff `engaged`.
   A construction is allowed only on disengaged storage and engages it; an
   assignment only on engaged storage and keeps it engaged; a destruction only
   on engaged storage and disengages it.
   */
  function Run(engaged: bool, log: seq<Event>): (r: Replay)
    decreases log
  {
    if log == [] then Ends(engaged)
    else
      var e := log[0];
      if e.IsConstruction() then
        (if engaged then Broken else Run(true, log[1..]))
      else if e.IsAssignment() then
        (if engaged then Run(true, log[1..]) else Broken)
      else
        (if engaged then Run(false, log[1..]) else Broken)
  }

  /** Continues a replay outcome with a further log. */
  function Then(prefix: Replay, log: seq<Event>): (r: Replay) {
    match prefix
    case Broken => Broken
    case Ends(engaged) => Run(engaged, log)
  }

  /** Replaying two logs one after the other is replaying their concatenation. */
  lemma {:induction false} RunAppend(engaged: bool, a: seq<Event>, b: seq<Event>)
    ensures Run(engaged, a + b) == Then(Run(engaged, a), b)
    decreases a
  {
    if a != [] {
      assert (a + b)[0] == a[0];
      assert (a + b)[1..] == a[1..] + b;
      var e := a[0];
      if e.IsConstruction() {
        if !engaged { RunAppend(true, a[1..], b); }
      } else if e.IsAssignment() {
        if engaged { RunAppend(true, a[1..], b); }
      } else {
        if engaged { RunAppend(false, a[1..], b); }
      }
    } else {
      assert a + b == b;
    }
  }

  /** The event counts of a concatenation are the sums of the counts. */
  lemma {:induction false} CountsAppend(a: seq<Event>, b: seq<Event>)
    ensures Constructions(a + b) == Constructions(a) + Constructions(b)
    ensures Destructions(a + b) == Destructions(a) + Destructions(b)
  {
    if a == [] {
      assert a + b == b;
    } else {
      assert (a + b)[0] == a[0];
      assert (a + b)[1..] == a[1..] + b;
      CountsAppend(a[1..], b);
    }
  }

  /**
   The live-instance balance of a log that respects the discipline: it
   raises the number of live `T`s in the storage from `Bit(engaged)` to
   `Bit(end)`, never more and never less.
   */
  lemma {:induction false} RunBalance(engaged: bool, log: seq<Event>, end: bool)
    requires Run(engaged, log) == Ends(end)
    ensures Live(log) == Bit(end) - Bit(engaged)
    decreases log
  {
    if log != [] {
      var e := log[0];
      if e.IsConstruction() {
        RunBalance(true, log[1..], end);
      } else if e.IsAssignment() {
        RunBalance(true, log[1..], end);
      } else {
        RunBalance(false, log[1..], end);
      }
    }
  }

  /**
   A log that respects the discipline never destroys more instances than it
   constructs, beyond the one it may have started with (no double destruction).
   */
  lemma {:induction false} NoDoubleDestruction(engaged: bool, log: seq<Event>)
    requires Run(engaged, log).Ends?
    ensures Destructions(log) <= Constructions(log) + Bit(engaged)
  {
    RunBalance(engaged, log, Run(engaged, log).engaged);
  }
}
