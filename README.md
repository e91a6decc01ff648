# mediapipe-solutions, modelled in Dafny

This project models the C++ facade that mediapipe-solutions puts in front of a
MediaPipe graph, and proves properties of the model. The parts modelled are:

- **The option overrides of `SolutionBase::Init`.** Each `"<node>.<field>"` key is
  split at its dots. The overrides are grouped by node name. The configuration's
  nodes are walked once, in order. The first node with each pending name gets its
  group applied through the two `SetField` helpers, and that group is erased.
  - A field is found by name among the fields the options message lists.
  - When the name is absent, the lookup falls back to the nested `ext` message.
  - A repeated field gets the value appended; a singular field gets it replaced.
    Options messages are proto2, so an enum number the enum type does not declare
    goes to the unknown fields and the enum field is left as it was.
  - The value must have exactly the field's C++ type.
- **The facade object (`SolutionBase`).**
  - Its state: the configuration handed to the engine, the output-slot table,
    the side packets the run started with, and the log of input packets fed.
  - Its operations: `Init`, the output observers, both `Process` overloads and
    `Close`.
  - The engine's answers (the status of each call, the packets it delivers) come
    in as parameters.
- **The type-erased carrier `Any`.** It is a nullable reference to an immutable
  holder. Shared holders are reference-equal. Moves leave the source empty.
- **`ThrowError`, `ThrowIfNotOk` and `TimestampValueString`.** These turn statuses
  into C++ exceptions and name the special timestamps.
- **The hand-tracking solution.**
  - The `HandLandmark` and `Handedness` enumerations, the landmark list wrapper and
    its by-name accessor.
  - Its construction arguments: the `num_hands` side input, the two requested
    outputs and the two threshold overrides.
  - The pairing of the `landmarks` and `handedness` outputs into a map keyed by
    handedness.

Files:

- `base.dfy`: the Option, Result and Outcome wrappers, and the fixed-width integer types.
- `util.dfy`: statuses, exceptions and timestamp names.
- `formats.dfy`: the MediaPipe data formats, as opaque values.
- `carrier.dfy`: `Holder`, `Packet` and `Any`.
- `proto_options.dfy`: the `SetField` helpers over an abstract message.
- `overrides.dfy`: key splitting, grouping and the node walk.
- `solution_base.dfy`: the `Solution` class.
- `hands.dfy`: the hand-tracking solution.

Where the C++ iterates an `unordered_map`, the model leaves the order open. The
loops pick the next key nondeterministically. The contracts hold for every order,
and they return the order as a ghost value when it matters.

Where the header and the implementation disagree, the model follows the
implementation:

- `solution_base.h` declares constructors and `Init` without the `options`
  parameter that `solution_base.cc` takes.
- `hands/hands.h` declares `Hands(int)`, while `hands/hands.cc` defines
  `Hands(int, float, double)`.

Behaviour of the code worth knowing:

- **A failed validation does not stop `Init`.** The status of
  `ValidatedGraphConfig::Initialize` is never checked. The model takes the
  validated configuration as a given.
- **A missing node or missing options raise `std::out_of_range`**, with the texts
  "No such node(s) exists." and "Node is missing options.".
- **A type mismatch raises `std::bad_any_cast`.** The kind switch covers all ten
  protobuf C++ types, and each case does an exact-type `any_cast`.
- **The output slots are not synchronised.** The source takes no lock around
  them.
- **Other engine statuses are ignored too.** The statuses of
  `CalculatorGraph::Initialize` and `ObserveOutputStream` in `Init` are never
  checked. Neither are those of `CloseAllPacketSources` and `WaitUntilDone` in
  `Close`.
- **An empty handedness list aborts the process.** `classification().at(0)` is
  protobuf's bounds-checked accessor. Its check aborts instead of raising
  `std::out_of_range`. The model reports it as a fatal error that no caller can
  catch.
- **An error status with an empty message has no well-defined exception.**
  absl keeps such a status without a message buffer, so `message().data()` is a
  null pointer. Building a standard exception from it is undefined behaviour.
  `ThrowError` reports this case as its own `NullText` outcome.

## Model

| member | source | states |
|---|---|---|
| Util.CString | mediapipe-solutions/util/util.h:29-37 | the exception text built from `message().data()` is a prefix of the message with no NUL, cut exactly at the first NUL |
| Util.CStringWithoutNul | mediapipe-solutions/util/util.h:29-37 | a message without NUL reaches the exception unchanged |
| Util.ThrowError | mediapipe-solutions/util/util.h:25-39 | every status raises, the ok one included. An empty message gives the undefined null-text case, and only an empty message does. Otherwise InvalidArgument gives invalid_argument. NotFound and AlreadyExists give system_error with no_such_file_or_directory and file_exists. Unimplemented gives logic_error; every other code gives runtime_error. Each mapping holds in both directions, and the text is the message cut at its first NUL |
| Util.ThrowIfNotOk | mediapipe-solutions/util/util.h:41-45 | nothing is raised exactly when the status is ok; otherwise the exception is ThrowError's |
| Util.TimestampValueString | mediapipe-solutions/util/util.h:47-67 | an ordinary timestamp gives its debug string; each special one gives a non-empty upper-case name |
| Util.SpecialNamesDistinct | mediapipe-solutions/util/util.h:48-63 | two special timestamps with the same name are the same timestamp |
| Carrier.Any.constructor | mediapipe-solutions/any.h:66-68 | a default carrier is empty |
| Carrier.Any.Move | mediapipe-solutions/any.h:70-72 | the new carrier holds the source's holder and the source is left empty |
| Carrier.Any.FromPacket | mediapipe-solutions/any.h:83-85 | a carrier built from a const packet shares that packet's holder |
| Carrier.Any.TakePacket | mediapipe-solutions/any.h:87-89 | a carrier built from an rvalue packet takes its holder over; the packet is left without one |
| Carrier.Any.FromValue | mediapipe-solutions/any.h:91-104 | a carrier built from a value gets a fresh holder with that value, shared with nothing |
| Carrier.Any.Adopt | mediapipe-solutions/any.h:61-64 | the adopted object goes into a fresh holder tagged with its own type |
| Carrier.Any.At | mediapipe-solutions/any.h:117-119 | the packet shares the carrier's holder, with the given timestamp |
| Carrier.Any.MoveAt | mediapipe-solutions/any.h:121-123 | the packet takes the carrier's holder, with the given timestamp; the carrier is left empty |
| Carrier.Any.ToPacket | mediapipe-solutions/any.h:109-111 | conversion to a packet shares the holder, with the unset timestamp |
| Carrier.Any.MoveToPacket | mediapipe-solutions/any.h:113-115 | rvalue conversion moves the holder out, with the unset timestamp |
| Carrier.Any.Get | mediapipe-solutions/any.h:125-128 | needs a non-null holder of the requested type; gives that holder's payload, which has the requested type |
| Carrier.AdoptThenGet | mediapipe-solutions/any.h:61-64 | adopting a value and reading it back as its own type gives the value |
| Carrier.ShareThroughPacket | mediapipe-solutions/any.h:83-89 | carriers built from one packet by copy and by move share its holder and read back the same payload |
| ProtoOptions.FindField | mediapipe-solutions/solution_base.cc:148-152 | the index found is the first listed field with that name; none is found only when no listed field has it |
| ProtoOptions.BuildFieldTable | mediapipe-solutions/solution_base.cc:145-153 | the name table built by `emplace` over the listed fields answers exactly as the first-match lookup |
| ProtoOptions.SetFieldAt | mediapipe-solutions/solution_base.cc:67-140 | it succeeds exactly when the value has the field's exact type, else bad_any_cast. A repeated field gets the value appended after its old values; a singular one gets it replaced. An enum number the enum does not declare leaves the field unchanged. Every other field and the layout are unchanged |
| ProtoOptions.SetField | mediapipe-solutions/solution_base.cc:142-161 | the by-name setter computes Patched: a direct match first, then the `ext` sub-message, else "Field '<name>' not found." |
| ProtoOptions.PatchedKeepsLayout | mediapipe-solutions/solution_base.cc:142-161 | patching never adds, removes, renames or re-kinds a listed field |
| ProtoOptions.PatchedSucceedsIff | mediapipe-solutions/solution_base.cc:155-160 | patching succeeds exactly when the by-name lookup (direct, then through `ext`) reaches a field whose type the value has |
| ProtoOptions.PatchedReadBack | mediapipe-solutions/solution_base.cc:70-139 | after a patch, the same lookup finds the field with the value appended (repeated) or replacing the old one (singular), or unchanged for an undeclared enum number |
| ProtoOptions.PatchedUndeclaredEnum | mediapipe-solutions/solution_base.cc:93-131 | an enum override with a number the enum does not declare succeeds and leaves the field reading as it was |
| ProtoOptions.PatchedOtherFields | mediapipe-solutions/solution_base.cc:142-161 | no other field changes: with a direct match only that field is replaced; otherwise only the `ext` field is replaced, by the same field holding the patched sub-message |
| ProtoOptions.PatchedLookupOthers | mediapipe-solutions/solution_base.cc:142-161 | every other name reads the same field after a patch, when neither name is `ext` |
| ProtoOptions.PatchedKeepsWellFormed | mediapipe-solutions/solution_base.cc:67-161 | patching a well-formed message with a well-formed value keeps every field holding values of its kind |
| OptionOverrides.Split | mediapipe-solutions/solution_base.cc:202 | splitting gives at least one piece and no piece holds a dot |
| OptionOverrides.JoinSplit | mediapipe-solutions/solution_base.cc:202 | the pieces joined with dots give back the key |
| OptionOverrides.SplitJoin | mediapipe-solutions/solution_base.cc:202 | dot-free pieces joined with dots split back into the same pieces |
| OptionOverrides.SplitSingle | mediapipe-solutions/solution_base.cc:202 | a key splits into one piece exactly when it has no dot |
| OptionOverrides.SplitKey | mediapipe-solutions/solution_base.cc:202-203 | `at(1)` fails with out_of_range exactly when the key has no dot; node and field names are dot-free |
| OptionOverrides.SplitKeyOf | mediapipe-solutions/solution_base.cc:202-203 | "node.field", alone or followed by any ".rest", gives node and field: pieces after the second are ignored |
| OptionOverrides.EmplaceKeepsGrouping | mediapipe-solutions/solution_base.cc:203 | emplacing one more key keeps every key seen so far in its node's group, and every group entry from some key |
| OptionOverrides.GroupOverrides | mediapipe-solutions/solution_base.cc:199-204 | the grouping fails with out_of_range exactly when some key has no dot. Otherwise every key lands under its node and field, and every entry comes from a key; this holds for every iteration order |
| OptionOverrides.ApplyGroup | mediapipe-solutions/solution_base.cc:215-216 | the fields of a group are set one after another and the first failure stops |
| OptionOverrides.GroupAppliedLookupOthers | mediapipe-solutions/solution_base.cc:215-216 | a name the group does not set reads the same field after the group is applied |
| OptionOverrides.GroupAppliedReadBack | mediapipe-solutions/solution_base.cc:215-216 | each field of a group with distinct names reads back with its value appended (repeated) or replacing the old one (singular); an undeclared enum number leaves the field as it was |
| OptionOverrides.GroupAppliedKeepsWellFormed | mediapipe-solutions/solution_base.cc:215-216 | applying well-formed values keeps a node's options well formed |
| OptionOverrides.WalkSucceedsIff | mediapipe-solutions/solution_base.cc:206-223 | the walk succeeds exactly when every group names some node and the first node of each such name has options its group applies to |
| OptionOverrides.WalkPatchesFirstNamed | mediapipe-solutions/solution_base.cc:206-220 | a successful walk keeps the node count, patches only the first node with each pending name and leaves every other node as it was |
| OptionOverrides.WalkReadBack | mediapipe-solutions/solution_base.cc:206-220 | after a successful walk, each field of a pending group reads back with its value in the first node of that name |
| OptionOverrides.OverrideReadBack | mediapipe-solutions/solution_base.cc:199-220 | after a successful walk over a grouping of the overrides, the first node named by a key reads the key's field back with a value some key for that node and field carried; with no other key for the pair it is the key's own value |
| OptionOverrides.WalkMissingOptions | mediapipe-solutions/solution_base.cc:209-211 | the first node receiving a group without options makes the walk fail with "Node is missing options." |
| OptionOverrides.WalkNoSuchNode | mediapipe-solutions/solution_base.cc:222-223 | a group naming no node makes an otherwise successful walk fail with "No such node(s) exists." |
| OptionOverrides.PatchNodes | mediapipe-solutions/solution_base.cc:206-223 | the in-place node loop computes the walk |
| OptionOverrides.ApplyOverrides | mediapipe-solutions/solution_base.cc:199-223 | a dotless key fails in `at(1)`; otherwise the overrides are grouped and the result is the walk over that grouping |
| SolutionBase.MoveSideInputs | mediapipe-solutions/solution_base.cc:236-244 | every side input is moved into a packet sharing its old holder, all stamped with the one timestamp, and every carrier is left empty |
| SolutionBase.FeedLoop | mediapipe-solutions/solution_base.cc:258-260 | over a fixed order, the feeds before the failing one succeeded, the failing feed is the last one visited, and the packets accepted are those of the visited prefix |
| SolutionBase.FeedInputs | mediapipe-solutions/solution_base.cc:258-260 | the inputs are visited once each, in some order. Exactly the visited carriers are emptied. All packets share the old holders and one timestamp. A failure is the last input visited; without one, every input is fed |
| SolutionBase.Release | mediapipe-solutions/solution_base.cc:189-194 | when Init throws, its by-value side inputs are destroyed: every carrier is left empty |
| SolutionBase.Solution.Init | mediapipe-solutions/solution_base.cc:189-247 | the side inputs are consumed: every carrier is left empty, whatever the outcome. A dotless key or a failed walk raises and leaves the object untouched. Otherwise it keeps the patched configuration, adds an empty slot for each new output and moves the side inputs into packets stamped with the elapsed time. It then raises StartRun's status, if any |
| SolutionBase.Solution.Start | mediapipe-solutions/solution_base.cc:225-246 | the part of Init after patching: configuration kept, slots registered, side inputs moved and stamped, StartRun's status raised |
| SolutionBase.Solution.RegisterOutputs | mediapipe-solutions/solution_base.cc:228-234 | each requested output gets an empty slot; an existing slot is kept (`emplace`) |
| SolutionBase.Solution.Deliver | mediapipe-solutions/solution_base.cc:230-233 | an observed packet replaces its slot; an undeclared name fails in `at` and changes nothing |
| SolutionBase.Solution.Process | mediapipe-solutions/solution_base.cc:255-272 | all inputs are fed with one timestamp, in some order, and their carriers emptied; a feed failure or idle failure is raised. On success the result holds exactly the non-empty slots, in fresh carriers sharing their holders, and every slot is left empty |
| SolutionBase.Solution.DrainOutputs | mediapipe-solutions/solution_base.cc:266-269 | exactly the non-empty slots are moved into fresh carriers, and the slots are left empty with their timestamps |
| SolutionBase.Solution.ProcessSingle | mediapipe-solutions/solution_base.cc:274-279 | the one-input form is the map form with one entry: its packet is fed or its feed failure raised |
| SolutionBase.Solution.Close | mediapipe-solutions/solution_base.cc:249-253 | the output-slot table is empty afterwards and nothing else changes |
| SolutionBase.Create | mediapipe-solutions/solution_base.cc:166-173 | a new object on which Init ran: one empty slot per requested output and nothing fed. The caller's side inputs are moved into Init, so every carrier is left empty, whatever the outcome |
| Hands.LandmarkIndex | mediapipe-solutions/hands/hands.h:25-47 | each landmark's value is its position among the 21 enumerators |
| Hands.LandmarkIndexRoundTrip | mediapipe-solutions/hands/hands.h:25-47 | the values are 0 through 20 with no gap: each names exactly one landmark |
| Hands.FromLandmarkList | mediapipe-solutions/hands/hands.h:76-80 | both constructors keep the source's landmarks, element for element |
| Hands.Landmark | mediapipe-solutions/hands/hands.h:82-84 | the by-name accessor is the by-index accessor at the enumerator's value |
| Hands.LandmarkByName | mediapipe-solutions/hands/hands.h:82-84 | for a list of 21 landmarks, every name reads the landmark at its enumerator's position |
| Hands.EmplacedFails | mediapipe-solutions/hands/hands.cc:128-133 | the pairing loop fails, in the abort of `at(0)`'s protobuf check, exactly when some handedness list is empty |
| Hands.EmplacedKeys | mediapipe-solutions/hands/hands.cc:128-133 | the hands kept are exactly the hands the handedness lists name |
| Hands.EmplacedSize | mediapipe-solutions/hands/hands.cc:128-133 | at most as many hands are kept as entries were visited |
| Hands.EmplacedFirstAt | mediapipe-solutions/hands/hands.cc:129-132 | the first entry naming a hand is the one kept for it (`emplace`) |
| Hands.EmplacedFirstWins | mediapipe-solutions/hands/hands.cc:129-132 | every hand keeps the landmarks of the first entry naming it |
| Hands.PairedResult | mediapipe-solutions/hands/hands.cc:125-133 | lists of different lengths raise "Failed to match landmarks with hand."; an empty handedness list aborts in the check of `at(0)`. Otherwise the keys are exactly the hands named, each with its first entry's landmarks, at most one per entry |
| Hands.PairHands | mediapipe-solutions/hands/hands.cc:125-133 | the loop computes the pairing |
| Hands.CreateSideInputs | mediapipe-solutions/hands/hands.cc:30-35 | exactly one side input, `num_hands`, in a fresh carrier holding the hand count |
| Hands.HandsSlots | mediapipe-solutions/hands/hands.cc:98 | the two requested outputs give two distinct empty slots |
| Hands.HandsOverrides | mediapipe-solutions/hands/hands.cc:99-112 | exactly two overrides: the palm detector's `min_score_thresh` (a float) and the landmark thresholder's `threshold` (a double) |
| Hands.HandsKeysSplit | mediapipe-solutions/hands/hands.cc:105-109 | both keys split at their first dot into the expanded node name and the field |
| Hands.TwoGroups | mediapipe-solutions/solution_base.cc:199-204 | two keys on different nodes group into one single-field group per node |
| Hands.GroupOfOne | mediapipe-solutions/solution_base.cc:199-204 | a node named by only one key has exactly that key's field and value as its group |
| Hands.HandsGroups | mediapipe-solutions/hands/hands.cc:99-112 | the hand overrides group into exactly the two single-field groups, whatever the iteration order |
| Hands.Hands.Create | mediapipe-solutions/hands/hands.cc:78-114 | the base is built from the overrides' grouping. The walk's failure is raised; otherwise StartRun's status is. On success: the patched configuration, exactly the `landmarks` and `handedness` slots, empty, and exactly the `num_hands` side packet holding the count at the elapsed time |
| Hands.Hands.Process | mediapipe-solutions/hands/hands.cc:116-137 | the image is adopted and fed on `input_video` with the elapsed time. A feed or idle failure is raised and leaves the slots as they were. With both outputs present the result is the pairing of their lists; otherwise it is empty. The slots are left empty |

## Left out

- The MediaPipe engine is not part of this model. `ValidatedGraphConfig`,
  `CalculatorGraph::Initialize`, `ObserveOutputStream`, `StartRun`,
  `AddPacketToInputStream`, `WaitUntilIdle`, `CloseAllPacketSources` and
  `WaitUntilDone` are not modelled as code. The statuses the source checks (those
  of `StartRun`, `AddPacketToInputStream` and `WaitUntilIdle`), the validated
  configuration and the packets the engine delivers are parameters. The
  statuses the source discards have no counterpart in the model.
- The engine calls its observers on its own threads without a lock. The model
  runs deliveries as ordinary sequential calls and claims nothing about
  concurrency.
- The clock is not modelled: `steady_clock::now()` and the microsecond cast are
  replaced by an `elapsed` parameter. Monotonic timestamps across calls depend
  on the operating system.
- Text-proto parsing (`ParseTextProtoOrDie`) is not modelled. The constructor
  taking graph text is modelled only through the one taking a parsed
  configuration.
- Protobuf reflection internals are not modelled. A message is the list of
  fields `ListFields` reports. The ownership transfer of `Message *` values is
  not modelled, and nested messages are plain values.
- Fields not yet present in a message are not modelled: the lookup only sees
  listed fields, as `ListFields` does.
- Float and double values (the two thresholds, landmark coordinates, scores)
  are opaque bit patterns. No arithmetic is done on them.
- `ReadCalculatorGraphConfigFromFile` is file I/O and binary parsing.
- `Timestamp::DebugString` is a function parameter. The special timestamp
  constants are eight distinct values.
- The texts of the library's own `at()` exceptions are chosen by the C++
  standard library. They are modelled as one `AtOutOfRange` error without text.
- `Get<T>` on a null holder or a holder of another type is undefined behaviour
  in the source. In the model it is a precondition.
- `Hands.Hands.Process` requires that the two output slots hold the list types
  the hand-tracking graph produces. This is the graph's promise, which
  `Get<T>` relies on unchecked.
- `Hands.Handedness` keeps the raw `int32` index. `Handedness(index)` accepts any
  value, not only LEFT (0) and RIGHT (1).
- The input map of `SolutionBase::Process` is keyed by `string_view`s. The model
  keys it by the stream names themselves.
- `SolutionBase.Solution.Process` drains the slots as they stand when it is
  called. Packets the engine delivers during `WaitUntilIdle` are modelled as
  `Deliver` calls made before `Process`.
- `SolutionBase.FeedInputs` takes the engine's answer to each feed as a
  function of the stream name. Each call feeds each stream at most once, so a
  function per call covers every sequence of answers the engine can give.
- `OptionOverrides.GroupAppliedReadBack`, `OptionOverrides.WalkReadBack` and
  `OptionOverrides.OverrideReadBack` exclude overrides of a field named `ext`.
  Setting `ext` itself replaces the sub-message that later lookups enter.
- A carrier moved into `SolutionBase::Process` by `emplace` is the caller's
  object in the model. The move into the temporary map is not separately
  modelled.
- `hands/test.cc` is a camera demo and is not part of this model. The
  commented-out code in `solution_base.cc` and `hands/hands.cc` is not
  modelled.
