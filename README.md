# bmstu::optional — a verified model of in-place value lifetime

`bmstu::optional<T>` holds nothing or exactly one `T`. The `T` lives in an
aligned byte block inside the container (`data_`). A flag
(`is_initialized_`) says whether a `T` currently lives there. Every member
builds, assigns or destroys that `T` in place. The rule is simple: build
only in raw storage, assign and destroy only a live value, and keep the
flag in step with the storage.

This project models that state machine in Dafny. It proves the rule holds
as long as `T`'s own operations do not call back into the container.

- `lifetime.dfy`, module `Lifetime`. An `Event` is one operation of `T` on
  the storage: placement construction by copy, by move or from `emplace`
  arguments; copy or move assignment; destruction. `Run` replays a log of
  events against the two states and rejects any event that happens in the
  wrong state. The lemmas prove a count for a log `Run` accepts starting
  from raw storage. Such a log has constructed exactly one more `T` than it
  destroyed when it ends engaged, and exactly as many when it ends
  disengaged. So, for `T`s that do not re-enter the container, nothing is
  destroyed twice.
- `optional.dfy`, module `Bmstu`. `Storage<T>` is the byte block: raw
  (`Uninit`) or holding a live value (`Holds`).
  - The pure functions `ResetStep`, `AssignValueStep`, `AssignOptionalStep`
    and `EmplaceStep` give each mutating member's effect on the storage and
    the events it runs.
  - `Trace` composes any sequence of these calls, and the lemmas about it
    prove that every lifetime keeps the discipline and is balanced at scope
    exit.
  - The class `Optional<T>` has the fields `isInitialized`, `data` and a
    ghost `log`.
  - Its constructors and methods follow the C++ branch structure. Each
    mutating method is proved against the matching pure function. The copy
    constructor is stated through `AssignOptionalStep`, and the other
    constructors state their one event directly. Every member establishes or
    keeps `Valid()`: the flag matches the storage, and the log replays to the
    flag.
- `scenarios.dfy`, module `OptionalTests`: the scenarios of the C++ test
  suite, plus a few more for the assignment table, stated as client methods
  of the class.

Points of C++ semantics the model reflects:

- The copy constructor `optional(const optional&)` is user-declared, so no
  move constructor is implicitly declared. Building from an rvalue optional
  therefore uses this copy constructor. `CopyOf` covers both.
- Inside the copy constructor the flag is still `false` from its member
  initialiser. So of the four branches in the C++ body, the two that test the
  flag `true` can never run. `CopyOf` keeps the three branches that can act.
  The fourth, a no-op in C++ too, is the fall-through. `CopyOf` proves the
  two flag-`true` branches dead. Its contract says the copy equals a copy-assignment into a fresh
  empty container.
- Copy assignment between optionals returns at once on self-assignment. Move
  assignment has no such test. Moving a container into itself therefore
  move-assigns the held value onto itself.
- `emplace` sets the flag before it constructs. For a moment inside `Emplace`
  the flag says engaged while the storage is still raw. `Valid()` holds again
  only once the construction is done.

Inputs the model takes as parameters rather than computing:

- the `T` that `emplace`'s forwarded arguments construct (`Emplace`'s
  `value`);
- the value `T`'s move operations leave in their source (`MoveAssignFrom`'s
  `movedFrom`);
- the value category of a raw-value assignment (`Assign`'s `k`: `Copy` for
  `const T&`, `Move` for `T&&`).

The `T` of the C++ code is any type. Values of `T` are compared with Dafny
equality. This assumes `T`'s copy and move operations make the target equal
to the source's value.

## Model

| member | source | states |
|---|---|---|
| `Lifetime.RunAppend` | optional.h:16-157 | checking the storage discipline over two logs one after the other is the same as checking it over their concatenation |
| `Lifetime.CountsAppend` | optional.h:16-157 | construction and destruction counts add up over concatenated logs |
| `Lifetime.RunBalance` | optional.h:155-156 | a log that keeps the discipline changes the live-`T` count from 1-if-engaged-at-start to 1-if-engaged-at-end |
| `Lifetime.NoDoubleDestruction` | optional.h:139-148 | a log that keeps the discipline never destroys more `T`s than it built, plus the one it may have started with |
| `Bmstu.ResetStep` | optional.h:139-144 | reset leaves raw storage; one destruction iff it was engaged, no construction; the events keep the discipline; so a second reset runs no event (idempotence) |
| `Bmstu.AssignValueStep` | optional.h:44-62 | value assignment ends holding the value; engaged: one assignment of the argument's category and no construction or destruction; disengaged: one construction of that category; the events keep the discipline |
| `Bmstu.AssignOptionalStep` | optional.h:64-93 | optional assignment ends with storage equal to the source's (same engagement, same value); the four-case table of events; the live count moves from this container's engagement to the source's |
| `Bmstu.EmplaceStep` | optional.h:129-137 | emplace ends holding the new value; exactly one construction, the last event; one destruction iff engaged before, done before the construction |
| `Bmstu.TraceKeepsDiscipline` | optional.h:16-157 | any sequence of assignments, emplaces and resets keeps the storage discipline and ends engaged iff its final storage holds a value |
| `Bmstu.ScopeExitBalanced` | optional.h:146-148 | from default construction, through any member calls, to the destructor: the container's live-`T` count returns to zero |
| `Bmstu.LiveInstances` | optional.h:155-156 | in a valid container, constructions minus destructions in its storage equal 1 when engaged and 0 otherwise |
| `Bmstu.Optional.constructor` | optional.h:18 | default construction: disengaged, raw storage, no event |
| `Bmstu.Optional.FromCopy` | optional.h:20-23 | construction from `const T&`: engaged, holding the value, after exactly one copy construction |
| `Bmstu.Optional.FromMove` | optional.h:25-28 | construction from `T&&`: engaged, holding the value, after exactly one move construction |
| `Bmstu.Optional.CopyOf` | optional.h:30-42 | copy construction, also used for rvalue optionals: storage equal to the source's; one copy construction iff the source is engaged; the two flag-true branches are proved unreachable; the source is not modified |
| `Bmstu.Optional.HasValue` | optional.h:150-152 | the flag is true iff the storage holds a live value |
| `Bmstu.Optional.Value` | optional.h:115-127 | fails with `BadOptionalAccess` iff disengaged; otherwise returns the held value; changes nothing |
| `Bmstu.Optional.Deref` | optional.h:95-113 | unchecked access, for an engaged container only: returns the held value |
| `Bmstu.Optional.Reset` | optional.h:139-144 | afterwards disengaged with raw storage; the log gains one destruction iff the container was engaged |
| `Bmstu.Optional.Destruct` | optional.h:146-148 | the destructor is reset; afterwards the container's live-`T` count is zero |
| `Bmstu.Optional.Assign` | optional.h:44-62 | value assignment follows `AssignValueStep` and keeps the invariant |
| `Bmstu.Optional.AssignFrom` | optional.h:64-79 | copy assignment: self-assignment changes nothing; otherwise `AssignOptionalStep` with copies; the source is never changed |
| `Bmstu.Optional.MoveAssignFrom` | optional.h:81-93 | move assignment follows `AssignOptionalStep` with moves; a distinct source keeps its flag and log, and keeps `movedFrom` where it held a value; self-move leaves `movedFrom` |
| `Bmstu.Optional.Emplace` | optional.h:129-137 | emplace follows `EmplaceStep` and keeps the invariant, despite the flag being set before the construction |
| `OptionalTests.EmptyOptional` | example_test.cpp:97-113 | a default container has no value; no event is logged over its whole lifetime |
| `OptionalTests.ValueInt` | example_test.cpp:79-86 | an empty `optional<int>` assigned 12345678 is engaged and `value()` gives 12345678 |
| `OptionalTests.ValueString` | example_test.cpp:88-95 | an empty `optional<string>` assigned "qwerty" is engaged and `value()` gives "qwerty" |
| `OptionalTests.MoveConstructor` | example_test.cpp:115-132 | construction from a moved `T` logs exactly one move construction; at scope exit the live count is 0 |
| `OptionalTests.ResetScenario` | example_test.cpp:134-146 | copy construction then `reset()`: disengaged after exactly one destruction; the destructor, a second reset, adds none |
| `OptionalTests.CopyFromValue` | example_test.cpp:148-165 | building from a `T` lvalue gives an engaged container holding it after exactly one copy construction; at scope exit the live count is 0 |
| `OptionalTests.CopyConstructor` | optional.h:30-42 | extra scenario: a copy of an engaged container holds the same value after one copy construction; the source still holds the value, and its log is still its single copy construction |
| `OptionalTests.AssignEmptyOverFull` | optional.h:73-74 | engaged ← disengaged assignment leaves it disengaged with exactly one more destruction |
| `OptionalTests.SelfAssign` | optional.h:65-67 | copy self-assignment keeps the value and logs nothing |
| `OptionalTests.EmplaceOverValue` | optional.h:129-137 | emplace over a held value destroys it once, then constructs the new one |
| `OptionalTests.BadAccess` | optional.h:115-118 | `value()` on an empty container reports `bad_optional_access` |

## Left out

- Raw storage mechanics are not modelled: `alignas`, `sizeof`, the byte array, the casts of `data_` and placement `new` itself. The storage is the abstract `Storage<T>`, and each `new`/`~T()` is a logged event.
- Exceptions thrown by `T`'s constructors are not modelled. `emplace` sets the flag before it constructs, so a throwing constructor would leave the flag set over raw storage. The model shows that window but assumes construction succeeds.
- The C++ exception for `value()` on an empty container is modelled as the `Err(BadOptionalAccess)` result. The `what()` text is not modelled.
- Reference qualifiers are not modelled (`&`, `const &`, `&&` overloads of `operator*` and `value()`; the pointer of `operator->`). `Deref` and `Value` return the held value. The references they return, and any aliasing through them, cannot be observed in the model.
- Bmstu.Optional.MoveAssignFrom: the state a `T` move leaves in its source is whatever `T` defines. The model takes it as the parameter `movedFrom` and does not model what `T` does with it.
- Bmstu.Optional.Emplace: the constructor arguments are forwarded to a constructor of `T` that this model cannot see. The model takes the value that constructor produces as the parameter `value`.
- Bmstu.Optional.Reset, Bmstu.Optional.Destruct: the constructors, assignments and destructor of `T` are assumed never to re-enter the container. Each is one atomic logged event. The C++ `reset()` runs `~T()` before it clears the flag (optional.h:141-142). A `T` whose destructor calls `reset()` on its own container, directly or through `~optional()`, would find the flag still set and destroy the value a second time. Such a destructor would also see "engaged" over an object being destroyed. The no-double-destruction results hold only under this assumption.
- The return value `*this` of the assignment operators is not modelled, because the methods change the receiver in place.
- The test struct `test_struct` and its global counters are not modelled (example_test.cpp:5-71). Its counters count every `T` in the program. They also depend on test order, because they are static and never cleared: its `reset()` declares new local variables and leaves the static counters alone (example_test.cpp:50-70). The scenarios state the container's own events instead.
- Bmstu.Optional.FromMove, Bmstu.Optional.Assign: a `T&&` argument is a
  caller-owned value. In C++ a move leaves it valid but unspecified. In the
  model the caller's value is a Dafny value and keeps its value. Only
  `MoveAssignFrom`, whose source is another container, models the moved-from
  state (through `movedFrom`).
- The `<iostream>` include is unused and not modelled.
