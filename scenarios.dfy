/**
 The scenarios of the container's test suite, replayed against the model.
 The instrumented `test_struct` of the suite counts constructions and
 destructions of every `T` in the program; here the container's own event
 log gives the part of those counts that the container is responsible for.
 */
module OptionalTests {
  import opened Lifetime
  import opened Bmstu

  /** A default-constructed container is empty and has built and destroyed nothing. */
  method EmptyOptional<T>() returns (has: bool, ghost events: seq<Event>)
    ensures !has
    ensures events == []
  {
    var opt := new Optional<T>();
    has := opt.HasValue();
    opt.Destruct();
    events := opt.log;
  }

  /** An `optional<int>` assigned 12345678 holds it. */
  method ValueInt() returns (before: bool, r: Result<int>, after: bool)
    ensures !before && after
    ensures r == Ok(12345678)
  {
    var a := 12345678;
    var opt := new Optional<int>();
    before := opt.HasValue();
    opt.Assign(a, Copy);
    r := opt.Value();
    after := opt.HasValue();
  }

  /** An `optional<std::string>` assigned "qwerty" holds it. */
  method ValueString() returns (before: bool, r: Result<string>, after: bool)
    ensures !before && after
    ensures r == Ok("qwerty")
  {
    var opt := new Optional<string>();
    var a := "qwerty";
    before := opt.HasValue();
    opt.Assign(a, Copy);
    after := opt.HasValue();
    r := opt.Value();
  }

  /**
   Building a container from a moved `T`: engaged after exactly one move
   construction and nothing else; at scope exit that instance is destroyed,
   so the container's live count is back to zero.
   */
  method MoveConstructor<T>(a: T) returns (has: bool, ghost events: seq<Event>, ghost atExit: seq<Event>)
    ensures has
    ensures events == [MoveConstruct]
    ensures atExit == [MoveConstruct, Destroy] && Live(atExit) == 0
  {
    var opt := new Optional<T>.FromMove(a);
    has := opt.HasValue();
    events := opt.log;
    opt.Destruct();
    atExit := opt.log;
  }

  /**
   Building a container from a copied `T` and resetting it: one copy
   construction, then exactly one destruction; the destructor adds nothing.
   */
  method ResetScenario<T>(a: T) returns (engaged: bool, cleared: bool, ghost events: seq<Event>)
    ensures engaged && !cleared
    ensures events == [CopyConstruct, Destroy]
    ensures Destructions(events) == 1 && Live(events) == 0
  {
    var opt := new Optional<T>.FromCopy(a);
    engaged := opt.HasValue();
    opt.Reset();
    cleared := opt.HasValue();
    opt.Destruct();
    events := opt.log;
  }

  /**
   Building a container from a `T` lvalue: engaged after exactly one copy
   construction and nothing else; at scope exit that instance is destroyed,
   so the container's live count is back to zero.
   */
  method CopyFromValue<T>(a: T) returns (has: bool, r: Result<T>, ghost events: seq<Event>, ghost atExit: seq<Event>)
    ensures has && r == Ok(a)
    ensures events == [CopyConstruct]
    ensures atExit == [CopyConstruct, Destroy] && Live(atExit) == 0
  {
    var opt := new Optional<T>.FromCopy(a);
    has := opt.HasValue();
    r := opt.Value();
    events := opt.log;
    opt.Destruct();
    atExit := opt.log;
  }

  /**
   Copy construction, also when the source is an rvalue optional (there is no
   move constructor): the copy is engaged with the source's value after one
   copy construction; the source is untouched.
   */
  method CopyConstructor<T>(a: T) returns (r: Result<T>, source: Result<T>, ghost events: seq<Event>, ghost sourceEvents: seq<Event>)
    ensures r == Ok(a) && source == Ok(a)
    ensures events == [CopyConstruct]
    ensures sourceEvents == [CopyConstruct]
  {
    var original := new Optional<T>.FromCopy(a);
    var copy := new Optional<T>.CopyOf(original);
    r := copy.Value();
    source := original.Value();
    events := copy.log;
    sourceEvents := original.log;
  }

  /** Assigning a disengaged container into an engaged one destroys exactly once. */
  method AssignEmptyOverFull<T>(a: T) returns (has: bool, ghost events: seq<Event>)
    ensures !has
    ensures events == [CopyConstruct, Destroy]
  {
    var full := new Optional<T>.FromCopy(a);
    var empty := new Optional<T>();
    full.AssignFrom(empty);
    has := full.HasValue();
    events := full.log;
  }

  /** Copy self-assignment changes nothing. */
  method SelfAssign<T>(a: T) returns (r: Result<T>, ghost events: seq<Event>)
    ensures r == Ok(a)
    ensures events == [CopyConstruct]
  {
    var opt := new Optional<T>.FromCopy(a);
    opt.AssignFrom(opt);
    r := opt.Value();
    events := opt.log;
  }

  /** Emplacing into an engaged container destroys the old value once, then builds the new one. */
  method EmplaceOverValue<T>(a: T, b: T) returns (r: Result<T>, ghost events: seq<Event>)
    ensures r == Ok(b)
    ensures events == [CopyConstruct, Destroy, ArgsConstruct]
  {
    var opt := new Optional<T>.FromCopy(a);
    opt.Emplace(b);
    r := opt.Value();
    events := opt.log;
  }

  /** Checked access on an empty container reports `bad_optional_access`. */
  method BadAccess<T>() returns (r: Result<T>)
    ensures r == Err(BadOptionalAccess)
  {
    var opt := new Optional<T>();
    r := opt.Value();
  }
}
