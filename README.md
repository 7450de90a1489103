# Command coordination, tag classification and utilities of the mobile simulator

A Dafny model of three Java classes of the mobile robot simulator:

- `probcog.commands.CommandCoordinator` keeps three registries:
  - control laws, with their execution status;
  - condition tests;
  - termination bindings, each of which says "when this test fires, stop that law with that status".

  Its periodic update task (`UpdateTask.run`) does two things. First it walks the registered tests; for each test that fires and has bindings, it stops every bound law and overwrites that law's status. Then it builds a status list with one entry per registered law.
  Module `Commands` (`command_coordinator.dfy`) models this as the class `CommandCoordinator`, whose fields are the three registries.
- `soargroup.mobilesim.robot.perception.TagClassifier` reads a configuration of tag classes and builds three lookup tables:
  - AprilTag id to its list of classes;
  - ground-truth label to its set of ids;
  - the set of all non-empty labels.

  It answers lookups on those tables and simulates noisy classifications of a seen tag.
  Module `Perception` (`tag_classifier.dfy`) models it as the class `TagClassifier`. The constructor's table-building loop is proved against recursive definitions of the three tables (`IdTable`, `GroundTable`, `LabelSet`), and lemmas characterise those tables.
- `probcog.util.Util` provides:
  - `key=value` token lookups over Java's `String.split`;
  - the cyclic successor in a list;
  - a post-incremented static `int` id counter;
  - the copy of a collection into a reusable array.

  Module `Util` (`util.dfy`) models these. Java's `int` wrap-around and the exact `String.split` rules (trailing empty strings dropped, leading ones kept) are written out.

Module `Wrappers` (`wrappers.dfy`) holds `Option`, which stands for a Java `null` result and for a thrown exception.

The parts that are random or happen elsewhere are inputs to the model:

- Which condition tests fire in a tick is a set of test ids.
- The iteration order of a `HashMap` is a sequence that enumerates its keys.
- The random draws of `classifyTag` are `Draw` records.

Each `setRunning` call the coordinator makes on a law is appended to the ghost log `runLog`.

## Model

| member | source | states |
|---|---|---|
| Util.Wrap32 | java/src/probcog/util/Util.java:50 | the value of a Java `int` lies in [-2^31, 2^31-1], differs from the exact result by a multiple of 2^32, and equals it whenever it fits |
| Util.Wrap32Succ | java/src/probcog/util/Util.java:50 | incrementing a wrapped count is the same as wrapping the incremented count, so the counter after n calls is n wrapped |
| Util.IdCounter.constructor | java/src/probcog/util/Util.java:47 | the counter starts at 0 with nothing issued |
| Util.IdCounter.NextId | java/src/probcog/util/Util.java:48-51 | returns the current value and advances the field by one with `int` wrap-around; the k-th value issued is k wrapped; before the counter wraps, the value is the number of earlier calls and was never issued before |
| Util.Pieces | java/src/probcog/util/Util.java:14 | cutting at every separator gives at least one piece |
| Util.PiecesParts | java/src/probcog/util/Util.java:14 | no piece contains the separator, and every character of a piece comes from the input |
| Util.JoinPieces | java/src/probcog/util/Util.java:14 | joining the pieces with the separator gives back the input string |
| Util.DropTrailingEmpty | java/src/probcog/util/Util.java:14 | the result is a prefix of the pieces; it is empty or ends with a non-empty piece; every piece dropped is empty |
| Util.Split | java/src/probcog/util/Util.java:14-16 | Java's `split` with a one-character separator: the input itself when the separator is absent, otherwise the pieces with the trailing empty ones removed (its properties are stated by `Util.SplitParts`, `Util.JoinPieces` and `Util.DropTrailingEmpty`) |
| Util.SplitParts | java/src/probcog/util/Util.java:16 | Java's `split` with a one-character separator gives the whole string when the separator is absent, and otherwise the pieces up to the last non-empty one; no part contains the separator; every character of a part comes from the input |
| Util.NoEqualsNoKey | java/src/probcog/util/Util.java:16-18 | a token without `=` splits into fewer than two parts and never matches a key |
| Util.GetTokenValue | java/src/probcog/util/Util.java:12-24 | `None` exactly when no comma token has a key part equal to the key; otherwise the value part of the first token that does; the result contains neither `,` nor `=` |
| Util.PairValues | java/src/probcog/util/Util.java:30-32 | one pair contributes at most one value, and that value never contains `=` |
| Util.CollectAppend | java/src/probcog/util/Util.java:29-33 | collecting over a concatenation collects over its parts, in order |
| Util.CollectMembers | java/src/probcog/util/Util.java:29-33 | a value is collected exactly when some element contributes it |
| Util.PossibleValuesAppend | java/src/probcog/util/Util.java:29-33 | the values of concatenated pair lists are the values of each list, in order |
| Util.PossibleValues | java/src/probcog/util/Util.java:26-36 | the ordered collection of the values the pairs contribute; an unreadable pair contributes nothing (its properties are stated by `Util.PossibleValuesMembers`, `Util.PossibleValuesAppend` and `Util.PossibleValuesLength`) |
| Util.PossibleValuesMembers | java/src/probcog/util/Util.java:29-33 | a string is returned exactly when some pair splits into the key and that string; no returned string contains `=` |
| Util.PossibleValuesLength | java/src/probcog/util/Util.java:26-36 | there are never more values than pairs |
| Util.GetPossibleValues | java/src/probcog/util/Util.java:26-36 | the loop returns exactly the values of the matching pairs, in input order |
| Util.NextValue | java/src/probcog/util/Util.java:38-45 | `None` exactly when the value is absent; otherwise the element after its first occurrence, the last element wrapping round to the first; the result is an element of the list |
| Util.ToArray | java/src/probcog/util/Util.java:58-82 | reuses the given array when it exists and is long enough, otherwise allocates one of exactly the collection's size; the front holds the collection in order; the rest of a reused array is untouched; a given array that is too short is not written at all |
| Commands.StatusName | java/src/probcog/commands/CommandCoordinator.java:41-44 | `name()` of a status is its constant's identifier, nine or seven characters long |
| Commands.StatusNameInjective | java/src/probcog/commands/CommandCoordinator.java:118 | different statuses are reported under different names |
| Commands.EnumerationSize | java/src/probcog/commands/CommandCoordinator.java:105-111 | an iteration over a key set has exactly as many steps as the set has keys, so `nstatuses` is the number of laws |
| Commands.Terminate | java/src/probcog/commands/CommandCoordinator.java:93-95 | applying one binding keeps every key and every other record; a registered bound law keeps its law and takes the bound status |
| Commands.ApplyTerminations | java/src/probcog/commands/CommandCoordinator.java:92-96 | applying bindings changes no key of the law table and no law, only statuses |
| Commands.StopSignals | java/src/probcog/commands/CommandCoordinator.java:94 | each applied binding makes exactly one `setRunning(false)` call |
| Commands.FiredBindings | java/src/probcog/commands/CommandCoordinator.java:87-92 | the bindings a tick applies, in order: for each visited test that fires and has bindings, its list in order (characterised by `Commands.FiredBindingsMembers`) |
| Commands.FiredBindingsMembers | java/src/probcog/commands/CommandCoordinator.java:85-98 | a binding is applied in a tick exactly when it belongs to a listed test that fires |
| Commands.QuietTick | java/src/probcog/commands/CommandCoordinator.java:89 | when no test both fires and has bindings, a tick applies nothing |
| Commands.ApplyTerminationsAppend | java/src/probcog/commands/CommandCoordinator.java:87-97 | applying two binding lists one after the other is the same as applying their concatenation |
| Commands.StopSignalsAppend | java/src/probcog/commands/CommandCoordinator.java:87-97 | the stop calls of two binding lists, in order, are those of their concatenation |
| Commands.TerminationsStep | java/src/probcog/commands/CommandCoordinator.java:87-97 | handling one more firing test continues both the status updates and the stop-call log |
| Commands.UnboundLawKept | java/src/probcog/commands/CommandCoordinator.java:92-96 | a law that no applied binding names keeps its record and gets no stop call |
| Commands.LastBindingWins | java/src/probcog/commands/CommandCoordinator.java:92-96 | a law's final status is the one in the last binding that names it, and the law is stopped |
| Commands.UntouchedByTick | java/src/probcog/commands/CommandCoordinator.java:85-98 | a law that no visited firing test is bound to keeps its status and is not stopped, whatever order the tests are visited in |
| Commands.CommandCoordinator.constructor | java/src/probcog/commands/CommandCoordinator.java:57-74 | a new coordinator has empty registries, shares the given static id counters, and has stopped or started nothing |
| Commands.CommandCoordinator.RegisterControlLaw | java/src/probcog/commands/CommandCoordinator.java:140-147 | takes the next law id, records the law as EXECUTING, starts it and changes nothing else; before the counter wraps, the id is fresh |
| Commands.CommandCoordinator.DestroyControlLaw | java/src/probcog/commands/CommandCoordinator.java:155-159 | removes the law's record; returns true exactly when there was one; neither stops the law nor drops bindings that name it |
| Commands.CommandCoordinator.RegisterConditionTest | java/src/probcog/commands/CommandCoordinator.java:167-174 | takes the next test id, records the test without starting it and changes nothing else; before the counter wraps, the id is fresh |
| Commands.CommandCoordinator.DestroyConditionTest | java/src/probcog/commands/CommandCoordinator.java:182-186 | removes the test; returns true exactly when there was one; its bindings stay |
| Commands.CommandCoordinator.RegisterTerminationCondition | java/src/probcog/commands/CommandCoordinator.java:199-211 | appends the binding to the test's list, creating the list when missing; neither id is checked and duplicates are kept |
| Commands.CommandCoordinator.StopBoundLaws | java/src/probcog/commands/CommandCoordinator.java:90-97 | stops each bound law and overwrites its status, in list order |
| Commands.CommandCoordinator.CheckTerminations | java/src/probcog/commands/CommandCoordinator.java:85-102 | the law table becomes the old one with the fired bindings applied in test order then list order; one stop call per fired binding is made; tests and bindings are unchanged |
| Commands.StatusEntry | java/src/probcog/commands/CommandCoordinator.java:113-118 | the status entry of a law: its key, its law's name and the name of its status |
| Commands.CommandCoordinator.StatusList | java/src/probcog/commands/CommandCoordinator.java:105-123 | one entry per registered law, with its id, name and status name; every law appears exactly once and `nstatuses` is the number of laws |
| Commands.CommandCoordinator.Tick | java/src/probcog/commands/CommandCoordinator.java:80-124 | one update tick: terminations first, then a status list that reports the updated statuses |
| Perception.Processed | java/src/soargroup/mobilesim/robot/perception/TagClassifier.java:59-70 | the entries read are the configuration blocks before the first block without labels; later blocks are ignored |
| Perception.AddToIds | java/src/soargroup/mobilesim/robot/perception/TagClassifier.java:100-111 | the id table after one block's class is appended to the list of each of its ids, in order (characterised by `Perception.AddToIdsLookup`) |
| Perception.IdTable | java/src/soargroup/mobilesim/robot/perception/TagClassifier.java:100-111 | the id table the constructor builds from the blocks read, in order (characterised by `Perception.IdTableMembers` and `Perception.IdTableHead`) |
| Perception.AddToIdsLookup | java/src/soargroup/mobilesim/robot/perception/TagClassifier.java:101-111 | adding a class for a list of ids appends it to the list of each of those ids and of no other id |
| Perception.IdTableAppend | java/src/soargroup/mobilesim/robot/perception/TagClassifier.java:100-111 | an id's classes are listed in entry order, so an id in several entries accumulates several classes |
| Perception.IdTableMembers | java/src/soargroup/mobilesim/robot/perception/TagClassifier.java:100-111 | every entry listing an id contributes its class to the id's list, and every class in that list comes from such an entry |
| Perception.IdTableAbsent | java/src/soargroup/mobilesim/robot/perception/TagClassifier.java:101-111 | an id no entry lists has no classes |
| Perception.IdTableSingle | java/src/soargroup/mobilesim/robot/perception/TagClassifier.java:100-111 | one entry gives each of its ids its class |
| Perception.IdTableHead | java/src/soargroup/mobilesim/robot/perception/TagClassifier.java:100-111 | an id's first class comes from the first entry that lists the id |
| Perception.GroundTable | java/src/soargroup/mobilesim/robot/perception/TagClassifier.java:76-77 | the ground-truth table the constructor builds: each block keys its first label and adds its ids to that key's set (characterised by `Perception.GroundTableKeys` and `Perception.GroundTableIdsOf`) |
| Perception.GroundTableKeys | java/src/soargroup/mobilesim/robot/perception/TagClassifier.java:76-77 | every entry's ground-truth label is a key, even for an entry without ids, and nothing else is |
| Perception.GroundTableIdsOf | java/src/soargroup/mobilesim/robot/perception/TagClassifier.java:76-110 | the set under a label holds exactly the ids of the entries with that ground truth; a label that is no key holds none |
| Perception.GroundTableIds | java/src/soargroup/mobilesim/robot/perception/TagClassifier.java:76-110 | the ids stored under a label are the ids of the entries with that ground truth; a label that is no key has none |
| Perception.LabelSet | java/src/soargroup/mobilesim/robot/perception/TagClassifier.java:81-85 | the label set the constructor builds: the non-empty labels of every block (characterised by `Perception.LabelSetMembers`) |
| Perception.LabelSetMembers | java/src/soargroup/mobilesim/robot/perception/TagClassifier.java:81-85 | the label set holds exactly the non-empty labels of all entries |
| Perception.TablesStep | java/src/soargroup/mobilesim/robot/perception/TagClassifier.java:76-111 | a proof step of the constructor's loop: the three definitions unfold by one block, and a block with a label keeps every label present |
| Perception.AddLabels | java/src/soargroup/mobilesim/robot/perception/TagClassifier.java:81-85 | the label loop adds exactly the non-empty labels of one entry |
| Perception.AddIds | java/src/soargroup/mobilesim/robot/perception/TagClassifier.java:101-111 | the id loop appends the class to each id's list and adds each id to the ground truth's set |
| Perception.TagClassifier.constructor | java/src/soargroup/mobilesim/robot/perception/TagClassifier.java:50-116 | the three tables are those of the blocks before the first block without labels |
| Perception.TagClassifier.GetIDsForClass | java/src/soargroup/mobilesim/robot/perception/TagClassifier.java:120-125 | the ids of the entries whose ground truth is the label; empty for an unknown label |
| Perception.TagClassifier.GetAllClasses | java/src/soargroup/mobilesim/robot/perception/TagClassifier.java:128-131 | every non-empty label of every entry, and never `""` |
| Perception.TagClassifier.Classes | java/src/soargroup/mobilesim/robot/perception/TagClassifier.java:138-140 | `idToTag.get(id)`, with no classes for an id the table does not hold |
| Perception.TagClassifier.GetClasses | java/src/soargroup/mobilesim/robot/perception/TagClassifier.java:135-146 | the labels of all entries that list the id, `""` included; empty for an unknown id |
| Perception.TagClassifier.FirstClass | java/src/soargroup/mobilesim/robot/perception/TagClassifier.java:158-162 | an id has no classes exactly when no entry lists it; its first class is that of the first entry listing it; every class has a label |
| Perception.TagClassifier.CorrectClass | java/src/soargroup/mobilesim/robot/perception/TagClassifier.java:174-190 | `""` for an unknown id; otherwise the ground-truth label of the first entry listing it |
| Perception.TagClassifier.CorrectProbability | java/src/soargroup/mobilesim/robot/perception/TagClassifier.java:153-169 | 0 for an unknown id; otherwise the first probability of the first entry listing it |
| Perception.TagClassifier.GetMaxRange | java/src/soargroup/mobilesim/robot/perception/TagClassifier.java:217-228 | -1 for an unknown id; otherwise the maximum range of the first entry listing it |
| Perception.TagClassifier.SampleRange | java/src/soargroup/mobilesim/robot/perception/TagClassifier.java:195-214 | -1 for an unknown id; otherwise a range within the first entry's [minRange, maxRange] whenever that interval is not empty |
| Perception.Clamp | java/src/soargroup/mobilesim/robot/perception/TagClassifier.java:210 | the result lies within the bounds and equals the value when the value already does |
| Perception.RangeSample | java/src/soargroup/mobilesim/robot/perception/TagClassifier.java:208-214 | a noise clamped to three deviations places the range within [minRange, maxRange] whenever that interval is not empty |
| Perception.RangeWithin | java/src/soargroup/mobilesim/robot/perception/TagClassifier.java:212 | a point placed v sixths of the width from the middle, with v in [-3, 3], stays within [lo, hi] |
| Perception.ConfidenceSample | java/src/soargroup/mobilesim/robot/perception/TagClassifier.java:367-370 | a confidence always lies in [0, 1] |
| Perception.Walk | java/src/soargroup/mobilesim/robot/perception/TagClassifier.java:251-259 | the label walk, when it does not throw, yields one of the class's labels |
| Perception.WalkPicksFirstCrossing | java/src/soargroup/mobilesim/robot/perception/TagClassifier.java:251-259 | the walk yields the label at the first index whose cumulative probability reaches the draw |
| Perception.WalkFallsBack | java/src/soargroup/mobilesim/robot/perception/TagClassifier.java:251-259 | when no cumulative probability reaches the draw, the walk yields the ground-truth label |
| Perception.Choice | java/src/soargroup/mobilesim/robot/perception/TagClassifier.java:252-259 | the label chosen for a class is one of its labels |
| Perception.PerfectPicksGroundTruth | java/src/soargroup/mobilesim/robot/perception/TagClassifier.java:247-259 | in perfect mode, a class whose first probability is not negative yields its ground-truth label |
| Perception.ChooseLabel | java/src/soargroup/mobilesim/robot/perception/TagClassifier.java:251-259 | the label loop computes the label walk, including the throw when it reads past the probabilities |
| Perception.TagClassifier.ClassifyTag | java/src/soargroup/mobilesim/robot/perception/TagClassifier.java:239-272 | empty for an unknown id; otherwise exactly one classification per class of the id, in order, each with the id, the given pose, a label of that class chosen by the label walk, the sampled range and a confidence in [0, 1]; `None` exactly when some class's walk throws |

## Left out

- Messaging: LCM publishing and subscribing (`CONTROL_LAW_STATUS`, `TAG_DETECTIONS`, `CLASSIFICATIONS`), `publishDetections`, the `ListenerThread` and the `main` methods are not modelled. They are I/O.
- Scheduling and locking: the `PeriodicTasks` scheduling and the `synchronized` blocks are not modelled. Each method is modelled as one atomic step.
- Time stamps: every `utime` field and `TimeUtil` call is left out. They are clock readings.
- Console output: the `System.out.printf` messages are left out.
- Control laws and condition tests: their behaviour lives outside this code. A law is its name and a test is an opaque record. `conditionMet()` becomes the `firing` set, and `setRunning` becomes the ghost `runLog`.
- Commands.CommandCoordinator.CheckTerminations: requires every law bound to a firing registered test to be registered (`BoundLawsRegistered`). The source asserts this at CommandCoordinator.java:93, and the next line would fail with a null pointer otherwise. The model does not skip such a binding silently, because the code does not.
- Commands.CommandCoordinator.Tick: carries the same precondition, for the same reason.
- Numbers: `double` values are modelled as exact reals, so floating-point rounding is left out. Java `int` overflow is modelled only where it changes behaviour, in the id counters.
- Randomness: the draws of `nextDouble` and `nextGaussian` are parameters, three per class in the source's order.
- `MathUtil.clamp` is not part of this model. It is modelled as the usual clamp to [lo, hi].
- `TagHistory`, `TagUtil.getTagToPose` and the pose computation in `publishDetections` are not part of this model.
- Configuration parsing: reading the configuration file (`Config`, `ConfigFile`, the `tag_config` and tag-size settings) is not modelled. The blocks arrive as records. A missing number reads as 0, as `getDouble` does with its default.
- Absent `probs` or `ids` arrays cannot be represented. The source would throw on them.
- Perception.TagClassifier.constructor: requires every block read to have at least one label. The source reads `labels[0]` and throws on an empty array.
- Perception.TagClassifier.CorrectProbability: requires the first class of a known id to have a probability. The source's `probs.get(0)` throws otherwise.
- Util.GetPossibleValues: requires every pair to be readable. A pair whose split has no first part, or a matching pair without a second part, makes the source throw.
- Util.PossibleValues: the specification function is total. An unreadable pair contributes nothing to it, and the method keeps the precondition above, so this case never reaches a caller.
- Perception.TagClassifier.ClassifyTag: a thrown exception is modelled as `None`. The two-argument overload is this method with `perfect` false.
- Util.ToArray: both overloads become one generic method. Unboxing a `null` element of the collection is not modelled, and the collection's iteration order is the given sequence.
- Util.Split: covers only the one-character, non-metacharacter separators the code uses (`,` and `=`). It does not cover general regular-expression splitting.
- `Util.equals` (a floating-point comparison) and `Util.extractPoints` (the sensor interface) are not modelled.
