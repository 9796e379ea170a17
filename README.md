# Kinect framework core: intensity tree, gesture pipeline hooks, correction events

This project models three small parts of the Kinect gesture framework in Dafny
and proves what their code promises.

- **IntensityValue** (`ColorHelpers`, `color_helpers.dfy`) is a binary tree of colour
  intensities. A node holds a `Value`, a `Level` and a `Parent`. It builds its two
  children lazily and caches them: `ChildA` at `Value - (1 << (7 - Level))` and
  `ChildB` at `Value + (1 << (7 - Level))`, both at `Level + 1`. The constructor throws
  `IntensityException` for any level above 7. The class keeps the source's mutable
  fields (`childA`, `childB`, `level`, `value`, `parent`). The getters are methods that
  fill the cache. The throwing constructor is a static method that returns
  `Created(node)` or `Thrown(error)`. C#'s `int` is modelled exactly (`Int32`,
  `int32.dfy`). Sums wrap around. `1 << n` uses only the low five bits of `n`. So the
  getters need no precondition, even after the public `Level` setter has stored a
  negative or huge level. For example, a node whose level was set to `int.MaxValue`
  gets children at level `int.MinValue`, which the constructor accepts. The lemmas about
  the tree are stated for the levels 0 to 7, where nothing wraps. There a node's
  children straddle it `2^(7 - Level)` away on each side. Two different paths of
  `ChildA`/`ChildB` steps from a node with room give different values (`WalkDistinct`).
- **GestureBase** (`Gestures`, `gestures.dfy`) is the base class of every gesture.
  Its pipeline entry point notifies the "processing" handlers, runs the concrete
  gesture's `Process`, then notifies the "processed" handlers. Each notification
  reads its invocation list once and does nothing when the list is empty. Otherwise
  it calls every handler with the gesture as sender and a `ProcessEventArgs` that
  wraps the event. The class holds the two invocation lists as sequences and
  `HistoryCount` as a field. It also keeps a ghost trace with one entry per handler
  call and one entry per run of the concrete gesture's step. The concrete `Process`
  is not part of the framework. It is modelled as an opaque `Step` that may leave any
  `HistoryCount` and any handler lists behind, and that calls neither notification
  hook itself.
- **CorrectionFilterEventArgs** (`Filters`, `filters.dfy`) is the immutable record
  the correction filter sends down the pipeline. It holds a joint, the point the
  joint was seen at, and a correction, plus a constant `Name`. The joint and point
  types are type parameters.

The "processed" invocation list is read only after the gesture's own `Process` has
run (GestureBase.cs:61). So handlers that the step subscribes or unsubscribes change
who gets the second notification. `PipelineProcess` states this.

## Model

| member | source | states |
|---|---|---|
| `ColorHelpers.IntensityValue.Construct` | src/Framework/Common/ColorHelpers/IntensityValue.cs:31-38 | throws `IntensityException("There are no more colours left")` exactly when `level > 7` and then creates nothing; otherwise returns a fresh node with exactly the given parent, value and level and both caches empty |
| `ColorHelpers.IntensityValue.Init` | src/Framework/Common/ColorHelpers/IntensityValue.cs:37 | the non-throwing constructor path stores value, parent and level unchanged |
| `ColorHelpers.IntensityValue.GetChildA` | src/Framework/Common/ColorHelpers/IntensityValue.cs:7-14 | returns the cached ChildA if there is one; otherwise constructs a child at `Value - (1 << (7 - Level))`, `Level + 1` with this node as parent and caches it; if construction throws, the cache stays empty; value, level, parent and the ChildB cache never change |
| `ColorHelpers.IntensityValue.GetChildB` | src/Framework/Common/ColorHelpers/IntensityValue.cs:16-23 | the same for ChildB at `Value + (1 << (7 - Level))`; value, level, parent and the ChildA cache never change |
| `ColorHelpers.IntensityValue.SetLevel` | src/Framework/Common/ColorHelpers/IntensityValue.cs:25 | the Level setter stores the given level |
| `ColorHelpers.IntensityValue.SetValue` | src/Framework/Common/ColorHelpers/IntensityValue.cs:27 | the Value setter stores the given value |
| `ColorHelpers.IntensityValue.SetParent` | src/Framework/Common/ColorHelpers/IntensityValue.cs:29 | the Parent setter stores the given parent |
| `ColorHelpers.GetChildTwice` | src/Framework/Common/ColorHelpers/IntensityValue.cs:8-23 | asking for the same child twice gives the same object when the first request succeeded, so a child is created at most once; a request that threw throws again; on a level-7 node with an empty cache the request throws and the cache stays empty; the cache of the other child is left as it was |
| `ColorHelpers.ChildLevelFits` | src/Framework/Common/ColorHelpers/IntensityValue.cs:12-35 | from any level the constructor accepts, a child is exactly one level deeper, and it is refused exactly when the parent is at level 7 |
| `ColorHelpers.OffsetRange` | src/Framework/Common/ColorHelpers/IntensityValue.cs:12 | for levels 0 to 7, `1 << (7 - Level)` is `2^(7 - Level)`, between 1 and 128, and halves from one level to the next |
| `ColorHelpers.ChildrenStraddle` | src/Framework/Common/ColorHelpers/IntensityValue.cs:12-21 | for levels 0 to 7 and every value at which neither child wraps (at least `2^(7 - Level)` from the int32 limits), `ChildA.Value < Value < ChildB.Value`, each child exactly `2^(7 - Level)` away, the children `2^(8 - Level)` (2 to 256) apart |
| `ColorHelpers.ChildrenHaveRoom` | src/Framework/Common/ColorHelpers/IntensityValue.cs:12-21 | below level 7, the children of a node whose value keeps `2^(8 - Level)` from the int32 limits are one level deeper and keep `2^(7 - Level)` from the limits themselves, so no node of the subtree wraps |
| `ColorHelpers.WalkIsDescend` | src/Framework/Common/ColorHelpers/IntensityValue.cs:12-21 | below a node whose value keeps `2^(8 - Level)` from the int32 limits, the values the getters compute by repeated ChildA/ChildB down to level 7 never wrap: each step moves exactly `2^(7 - level)` down (ChildA) or up (ChildB) |
| `ColorHelpers.DescendSpread` | src/Framework/Common/ColorHelpers/IntensityValue.cs:8-23 | any node reached by repeated ChildA/ChildB from a node at level L lies within `2^(8 - L) - 2^(8 - L - depth)` of that node's value |
| `ColorHelpers.DescendSide` | src/Framework/Common/ColorHelpers/IntensityValue.cs:8-23 | every node below ChildB has a larger value than the starting node, every node below ChildA a smaller one |
| `ColorHelpers.DescendDistinct` | src/Framework/Common/ColorHelpers/IntensityValue.cs:8-23 | two paths of ChildA/ChildB steps from one node reach the same value exactly when they are the same path |
| `ColorHelpers.WalkDistinct` | src/Framework/Common/ColorHelpers/IntensityValue.cs:8-23 | in the getters' own int32 arithmetic, every path of getter calls from a node with room (down to level 7) leads to its own intensity: two paths give the same value exactly when they are the same path |
| `Int32.Wrap32` | src/Framework/Common/ColorHelpers/IntensityValue.cs:12-21 | the int32 C# stores for a sum is congruent to it modulo 2^32 and equal to it when it fits |
| `Int32.ShiftLeftOne` | src/Framework/Common/ColorHelpers/IntensityValue.cs:12 | C#'s `1 << count` is `2^(count mod 32)`, except that a count of 31 mod 32 gives `int.MinValue` |
| `Gestures.GestureBase.constructor` | src/Framework/Core/Gestures/GestureBase.cs:30-53 | a new gesture starts in the implicit default state: `HistoryCount` is 0, neither event has a handler (both are null), and nothing has been notified or processed |
| `Gestures.GestureBase.SetHistoryCount` | src/Framework/Core/Gestures/GestureBase.cs:30 | HistoryCount reads back the last value assigned to it |
| `Gestures.GestureBase.SubscribeProcessing` | src/Framework/Core/Gestures/GestureBase.cs:35 | `ProcessingEvent += h` appends `h` to the invocation list |
| `Gestures.GestureBase.UnsubscribeProcessing` | src/Framework/Core/Gestures/GestureBase.cs:35 | `ProcessingEvent -= h` removes the last registration of `h` |
| `Gestures.GestureBase.SubscribeProcessed` | src/Framework/Core/Gestures/GestureBase.cs:53 | `ProcessedEvent += h` appends `h` to the invocation list |
| `Gestures.GestureBase.UnsubscribeProcessed` | src/Framework/Core/Gestures/GestureBase.cs:53 | `ProcessedEvent -= h` removes the last registration of `h` |
| `Gestures.SubscribeThenUnsubscribe` | src/Framework/Core/Gestures/GestureBase.cs:35 | `-=` undoes `+=`: subscribing a handler and then unsubscribing it restores the invocation list exactly, whatever it held before |
| `Gestures.RemoveLast` | src/Framework/Core/Gestures/GestureBase.cs:35 | removing a handler drops its last registration and keeps every other handler in order; a handler that is not registered changes nothing |
| `Gestures.GestureBase.OnProcessingEvent` | src/Framework/Core/Gestures/GestureBase.cs:41-48 | calls each handler of the "processing" list as read on entry, in order, with this gesture and the event; with no handler, nothing is emitted |
| `Gestures.GestureBase.OnProcessedEvent` | src/Framework/Core/Gestures/GestureBase.cs:59-66 | the same for the "processed" list |
| `Gestures.GestureBase.Process` | src/Framework/Core/Gestures/GestureBase.cs:83 | the concrete gesture's step runs once on the event and leaves the state its `Step` describes |
| `Gestures.GestureBase.PipelineProcess` | src/Framework/Core/Gestures/GestureBase.cs:72-77 | one pipeline call emits the "processing" calls (list read on entry), then the gesture's step once, then the "processed" calls (list read after the step); each handler is called once per registration, nothing is out of order, and every call carries the same event with the gesture as sender |
| `Gestures.InvokeCallsEachHandler` | src/Framework/Core/Gestures/GestureBase.cs:43-47 | a notification calls exactly the handlers of its snapshot, once per registration and in registration order, and runs no gesture step and no call of the other notification |
| `Gestures.InvokeEntries` | src/Framework/Core/Gestures/GestureBase.cs:43-47 | the `i`-th call of a notification goes to the `i`-th handler of its snapshot, with the gesture as sender and a ProcessEventArgs around the event |
| `Gestures.PipelineTraceSpec` | src/Framework/Core/Gestures/GestureBase.cs:72-77 | the trace of one pipeline call calls the two handler lists exactly, runs the step exactly once, keeps the order processing, step, processed, and emits only the step when no handler is registered |
| `Filters.CorrectionFilterEventArgs.Name` | src/Framework/Core/Filters/CorrectionFilterEventArgs.cs:9-17 | Name is the constant "CorrectionFilterEventArgs" |
| `Filters.NameIsConstant` | src/Framework/Core/Filters/CorrectionFilterEventArgs.cs:14-17 | every record reports the same Name, whatever its fields |
| `Filters.NewCorrectionFilterEventArgs` | src/Framework/Core/Filters/CorrectionFilterEventArgs.cs:40-45 | the constructed record's JointToCorrect, Point and Correction are exactly the arguments |
| `Filters.FieldsRebuildRecord` | src/Framework/Core/Filters/CorrectionFilterEventArgs.cs:22-45 | constructing from a record's three fields gives back that record: the fields are its whole state, fixed after construction |
| `Filters.ConstructionIsInjective` | src/Framework/Core/Filters/CorrectionFilterEventArgs.cs:40-45 | two records are equal exactly when their constructor arguments are equal |

## Left out

- The Hidden Markov Model interface (src/Extensions/HiddenMarkovModel/Base/IHiddenMarkovModel.cs) has no bodies. The Viterbi and Forward code behind it is not part of this model, and it works on floating-point probabilities.
- The ShowCase `Ball` demo (src/Demos/ShowCase/Ball.cs) is WPF rendering on doubles and is not part of this model.
- `GestureBase.SyncRoot`: a static lock that only serves cross-thread synchronisation. Threads are not modelled. So the snapshot read in each notification only shows that the list is read once. Its protection against another thread unsubscribing between the null check and the call is not captured.
- `GestureBase.GestureName` and the bodies of concrete gestures' `Process`: not part of the framework. The step is an arbitrary `Step` value.
- Exceptions thrown by a handler or by a concrete `Process` are not modelled. In C# such an exception would abort the pipeline call and skip the rest of it, including the "processed" notification.
- Handlers are opaque identifiers. What a handler does when called is not modelled, including its own changes to the gesture. Only the call is recorded.
- The unseen `FilterEventArgs` base class, `Point3D` and `xn.SkeletonJoint` are type parameters. No vector arithmetic is modelled.
- The tree lemmas (`OffsetRange`, `ChildrenStraddle`, `ChildrenHaveRoom`, `WalkIsDescend`, `WalkDistinct`, and the `Descend` lemmas through them) cover levels 0 to 7 and values far enough from the int32 limits that nothing wraps. Outside that range, the getters' own contracts give the wrapped values.
- Object identity of the `ProcessEventArgs` each notification allocates is not modelled. It is a value that wraps the event.
- Gestures.GestureBase.PipelineProcess: the exactly-once and order promise holds for the base-class hooks only. `OnProcessingEvent` and `OnProcessedEvent` are `protected virtual` (GestureBase.cs:41, 59), but overrides of them are not modelled. The concrete gesture's `Process` is assumed never to call either hook itself. A gesture that overrides a hook or calls one from its step could emit a notification more or less than once per pipeline call.
- Handlers (`H`) stand for single-method delegates and never for null. C# treats `+= null` and `-= null` as no-ops, and a multicast argument adds or removes a whole run of handlers. Neither case is modelled: `Subscribe…` appends one handler and `Unsubscribe…` removes the last registration of one handler.
- ColorHelpers.WalkDistinct: the lemma is about the values the getters compute along paths from a node's current state. It says nothing about the cached objects reachable in the heap once a setter has run. A cached child keeps its value when its parent's `Value` or `Level` is set later (IntensityValue.cs:25, 27). So two cached children of one node can share a value. An example is a root at 128, level 0: `ChildA` is cached at 0, then `Value` is set to -128, and `ChildB` is created at 0.
