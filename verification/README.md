# AhdCode verification

This project models the parts of AhdCode whose behaviour is hardest to trust by reading, and proves what they
promise for every input and every run:

- the REPL evaluator's checked 64-bit arithmetic, its SplitMix64-style generator, rejection sampling and shuffle
  (`GoInt`, `IntArithmetic`, `ComplexPower`, `Bits`, `Random`, `Sampling`, `Lists`);
- the `ahdcode dev` event loop with its build goroutine, child processes, stop requests and file watcher, as a step
  relation over every interleaving, its safety and its progress (`DevController`, `DevWatcher`, `DevSystem`,
  `DevProgress`);
- the GUI helper's widget model: tree, two-pass layout, scrolling, focus, open lists, text editing, and the protocol
  session that reports what the user changed (`TextArea`, `Widgets`, `Layout`, `LayoutPasses`; `WindowState` and, by
  topic, `WindowLayout`, `WindowClicks`, `WindowPointer`, `WindowKeys` and `WindowRequests`; `WidgetModel`,
  `GuiSession`);
- the geometry of the rasterizer and of the chart viewer, over exact reals (`Raster`, `PlotView`);
- the Table operations of the Data module (`Tables`, `TableColumns`);
- semantic tokens in the delta encoding of the Language Server Protocol 3.17, section "Integer Encoding for Tokens"
  (`SemanticTokens`), and the bounded cache of typeset math labels (`MathLabel`, `MathCache`), both over bytes
  decoded as Go decodes UTF-8 (`Utf8`).

`Arithmetic`, `FiniteSets`, `Options` and `Outcomes` hold what several modules share.

Where the program changes state in place, the model is a class whose methods change the same fields in the same order:
`Sampling.Session`, `Lists.List`, `DevController.Controller`, `DevWatcher.FileWatcher`, `WidgetModel.Model`,
`GuiSession.Session`, `Raster.ShapePath`, `PlotView.View`, `SemanticTokens.Collector` and `MathCache.Cache`. Each method
is proved against a function or relation on values, and the promises are lemmas about those. The last six keep an
invariant, `Valid()`; the first four allow every value of their fields, and what their runs keep is stated on values
(`DevSystem`). Go's wrap-around and truncation are written out: a `uint64` is an integer below 2^64 reduced explicitly,
and division and remainder truncate toward zero.

Clocks, disks, processes, the compiler and text measurement are parameters: a build returns no binary or its own
generation's candidate, `measure`, `compile` and `scale` are arbitrary functions, and time is a number of ticks.

Some promises are false of the code as it is; each has its exact condition:

- The dev loop can end with the program it started still running. `DevSystem.LeftBehind` proves that this happens
  exactly on the web-configuration refusal with a live child, and `DevSystem.LeftBehindHappens` gives such a run.
- The dev loop refuses a production web configuration only at the first good web build of a session; later builds go by
  unchecked (`DevSystem.RefusedAtFirst`).
- A report tells a program only of changes it listens to, and drops the others. From the moment a program listens to a
  widget, a report leaves it right about that widget exactly when each report that had dropped the widget's change by
  then was made up for: by a later change by the user, a read, a telling request or the closed event
  (`GuiSession.ReportsRightFromStart`). `GuiSession.DroppedBeforeListening` is a run from a new window to such a dropped
  change; reports alone never mend it.
- Zooming keeps the image point under the cursor on an axis exactly when the anchored center needs no clamping there
  (`PlotView.ZoomKeepsPoint`); `PlotView.ZoomLosesPoint` is a view that loses it. A turn and back restore a touched
  view's zoom exactly when the zoom is in range for the turned image too (`PlotView.RotateBackZoom`);
  `PlotView.RotateLosesZoom` is a view that comes back two and a half times as large.
- A pivot has a valid schema exactly when its row axis has a name and no value of its column axis is empty or repeats
  that name (`Tables.PivotSchema`, with `Tables.PivotSchemaFails`).
- The protocol's decoder recovers the semantic tokens exactly when their positions ascend
  (`SemanticTokens.DecodesExactly`); source order alone is not enough (`SemanticTokens.InsideCodePointUnderflows`).

## Model

| member | source | states |
|---|---|---|
| IntArithmetic.IntAdd | internal/evaluator/expression.go:382-388 | the sign test on the wrapped sum is an exact overflow test: the sum when it fits, else OverflowError |
| IntArithmetic.IntSubtract | internal/evaluator/expression.go:390-398 | the same for subtraction, with the least integer on the right |
| IntArithmetic.IntMultiply | internal/evaluator/expression.go:400-412 | wrap-then-divide is an exact overflow test for multiplication |
| IntArithmetic.WrapThenDivide | internal/evaluator/expression.go:400-412 | dividing the wrapped product gives the other factor back exactly when the product fits |
| IntArithmetic.IntPower | internal/evaluator/expression.go:414-429 | repeated squaring returns the power exactly when it fits 64 bits and raises OverflowError exactly otherwise, for every base and exponent the operation accepts |
| IntArithmetic.SquareOverflowPersists | internal/evaluator/expression.go:414-429 | a squared intermediate overflows only when the final power does |
| IntArithmetic.NoSquareRootOfTwo63 | internal/evaluator/expression.go:414-429 | no intermediate square is exactly 2^63, the one value a sign could rescue |
| ComplexPower.ComplexIntPower | internal/evaluator/expression.go:355-380 | the loop computes the integer power of a complex number, reciprocal for negative exponents |
| ComplexPower.IntegerPowerAdds | internal/evaluator/expression.go:355-380 | exponents add, over all integer exponents of a non-zero base |
| ComplexPower.ReciprocalInverts | internal/evaluator/expression.go:355-380 | the reciprocal the loop starts from is the multiplicative inverse |
| Bits.ShiftDivides | internal/evaluator/call.go:690-696 | a right shift by k bits is the quotient by 2^k, for every number and shift |
| Bits.XorBits | internal/evaluator/call.go:690-696 | a bit of an exclusive or is 0 exactly where the operands have the same bit |
| Random.FoldIs | internal/evaluator/call.go:690-696 | what is folded into a word is the word divided by the power of two of its shift |
| Random.FirstWordOfZero | internal/evaluator/call.go:690-696 | a known word: seed 0 draws 0xe220a8397b1dcdaf first |
| Random.MixBijective | internal/evaluator/call.go:690-696 | the xor-shift and odd-multiply finalizer is a bijection on 64-bit words |
| Random.DrawsPermute | internal/evaluator/call.go:690-696 | 2^64 consecutive draws are a permutation of all words, from every state |
| Random.DrawInjective | internal/evaluator/call.go:690-696 | no word repeats within one period |
| Sampling.RejectLimit | internal/evaluator/call.go:698-716 | the wrapped -width % width is 2^64 mod width, below 2^63, and leaves a multiple of width |
| Sampling.Choice | internal/evaluator/call.go:698-716 | the wrapped unsigned addition lands in [minimum, maximum] on minimum + raw mod width; for the full range the choice is int64(raw) |
| Sampling.ChoiceUniform | internal/evaluator/call.go:698-716 | every integer of the range has the same number of accepted raw words |
| Sampling.SeedsUniform | internal/evaluator/call.go:690-716 | for every draw index, every integer of the range comes from the same number of seeds |
| Sampling.RejectionsBounded | internal/evaluator/call.go:698-716 | at most `limit` draws in a row are refused |
| Sampling.SamplingStops | internal/evaluator/call.go:698-716 | for every seed and range there is exactly one first accepted draw, within `limit` + 1 draws |
| Sampling.SampledOnce | internal/evaluator/call.go:698-716 | seed and range determine the sample and the state it leaves |
| Sampling.SampleExists | internal/evaluator/call.go:698-716 | every seed and every range have a sample |
| Sampling.FirstSampleOfZero | internal/evaluator/call.go:698-716 | a known sample: seed 0 gives 2 in the range 1 to 6 |
| Sampling.Session.RandomRaw | internal/evaluator/call.go:690-696 | advances the state by one step and returns that state's draw, whose shifts, exclusive ors and first word are fixed by `Random.FoldIs`, `Bits.XorBits` and `Random.FirstWordOfZero` |
| Sampling.Session.DrawAtLeast | internal/evaluator/call.go:698-716 | the rejection loop ends and returns the first draw not below the limit |
| Sampling.Session.RandomInt | internal/evaluator/call.go:698-716 | DomainError on an empty range, else the choice of the first accepted draw, and how far the state moved; both are unique by `Sampling.SampledOnce` |
| Lists.ShuffleBijective | internal/evaluator/call.go:500-506 | for distinct items, index choices and final orders correspond one to one |
| Lists.ShuffleOnto | internal/evaluator/call.go:500-506 | every order of distinct items comes from some choices |
| Lists.ShuffleInjective | internal/evaluator/call.go:500-506 | different choices give different orders |
| Lists.ShuffleKeepsItems | internal/evaluator/call.go:500-506 | the multiset of items is unchanged |
| Lists.ShuffleLast | internal/evaluator/call.go:500-506 | the item chosen for the last position ends there, the one it displaces takes its place, and the others wait where they are |
| Lists.KnownShuffle | internal/evaluator/call.go:500-506 | a known shuffle: of three items with the choices 1 and 0 |
| Lists.DrawnOnce | internal/evaluator/call.go:492-506 | the seed determines every choice of a shuffle and the state after it |
| Lists.List.Shuffle | internal/evaluator/call.go:492-506 | the in-place loop computes the shuffle of its drawn choices; a frozen list raises ConstantError and draws nothing |
| Lists.Reduce | internal/evaluator/call.go:578-608 | for Int lists the sum is exact, or OverflowError exactly when a partial sum leaves 64 bits; for Real lists it is the exact real sum; for Int, Real and String lists minimum and maximum are extreme elements; empty and null inputs raise their errors |
| Lists.OrderedTotally | internal/evaluator/call.go:578-608 | the elements of one kind, bytewise compared strings included, are totally ordered, so an extreme element is one value |
| Lists.FirstDifference | internal/evaluator/call.go:578-608 | strings compare by the first byte in which they differ, and a prefix comes first |
| Lists.ExtremeNumber | internal/evaluator/call.go:578-608 | a minimum is at most, and a maximum at least, each number of the list |
| Lists.TotalAdds | internal/evaluator/call.go:578-608 | the sum of a list in two parts is that of the parts |
| Lists.TotalOfOne | internal/evaluator/call.go:578-608 | and that of one element is the element |
| DevController.Controller.StartBuild | cmd/ahdcode/dev.go:196-205 | starts one build of a new generation |
| DevController.Controller.StopDevChild | cmd/ahdcode/dev.go:97-109 | the child's process is gone afterwards |
| DevController.Controller.Release | cmd/ahdcode/dev.go:411-413 | a release records what the released request can see at that moment |
| DevController.Controller.UpdateWatchSet | cmd/ahdcode/dev.go:214-228 | posts a path set that starts with the entry and holds exactly the entry and every source of the build, none twice, replacing an unread set |
| DevController.WatchSetTracks | cmd/ahdcode/dev.go:214-228 | a path is watched exactly if it is the entry or a source, and once |
| DevController.Controller.FinishShutdown | cmd/ahdcode/dev.go:403-415 | every stop request released here finds the descriptor and the build directory already gone, and nothing but the released requests and the removed files changes |
| DevController.Controller.HandleBuildFinished | cmd/ahdcode/dev.go:261-335 | every branch of a finished build, state for state |
| DevController.Controller.HandleStop | cmd/ahdcode/dev.go:351-376 | every branch of a stop request, state for state |
| DevController.Controller.Handle | cmd/ahdcode/dev.go:250-376 | the loop body computes the specification's next state for every event |
| DevController.HandledBuilds | cmd/ahdcode/dev.go:250-335 | exactly which events start a build |
| DevController.HandledChild | cmd/ahdcode/dev.go:261-349 | exactly which events replace or stop the child |
| DevController.StoppedTakesOne | cmd/ahdcode/dev.go:97-109 | stopping a child ends that one process, if it is alive, and no other |
| DevController.HandledWeb | cmd/ahdcode/dev.go:269-288 | the web configuration counts as checked exactly from an accepted good web build of a session that goes on |
| DevController.HandledWaiters | cmd/ahdcode/dev.go:351-376 | exactly when the loop ends all waiting stop requests are released, in order, each finding descriptor and build directory gone |
| DevWatcher.FileWatcher.ApplyPathSet | cmd/ahdcode/devwatch.go:119-129 | kept paths keep their snapshot, new ones get today's, others go |
| DevWatcher.FileWatcher.PollChanges | cmd/ahdcode/devwatch.go:135-148 | reports a change exactly when some tracked file changed and is not missing |
| DevWatcher.FileWatcher.Tick | cmd/ahdcode/devwatch.go:87-113 | debounce: a change is sent once no newer one came for the quiet period |
| DevWatcher.FreshChangeWaits | cmd/ahdcode/devwatch.go:97-101 | a tick that sees a change hands nothing over |
| DevWatcher.Debounced | cmd/ahdcode/devwatch.go:97-108 | while the disk stays as it is, a change is handed over at the first tick that comes at least the debounce time after it was last seen, and never before |
| DevSystem.StepKeepsInvariant | cmd/ahdcode/dev.go:17-25 | every step of every goroutine keeps the whole invariant |
| DevSystem.RunsAreSafe | cmd/ahdcode/dev.go:17-25 | in every run: one build at most and `building` says so, every live process is the child, stop requests released in order and only when all is gone, no observed change lost |
| DevSystem.ShutdownIsFinal | cmd/ahdcode/dev.go:351-376 | once shutting down, no build and no child ever starts |
| DevSystem.FailedBuildKeepsChild | cmd/ahdcode/dev.go:261-300 | a failed build leaves child, generation, process and binary untouched |
| DevSystem.ExitReports | cmd/ahdcode/dev.go:337-349 | an exit of an older generation changes nothing, and a child is forgotten only when its process is gone |
| DevSystem.ReleasesAreLate | cmd/ahdcode/dev.go:351-415 | every event that releases stop requests releases them in a world without descriptor, build directory and process |
| DevSystem.ReleasedWhenGone | cmd/ahdcode/dev.go:403-415 | in every run, a released stop request found descriptor, build directory and every process gone at its release; they stay gone, loop and builds have ended, and each request taken is released once and in order |
| DevSystem.StoppedWaitsForBuild | cmd/ahdcode/dev.go:351-376 | a stopped loop waits for the build in flight and ends once its result is taken |
| DevSystem.RestMeansUpToDate | cmd/ahdcode/dev.go:250-335 | at rest, the last build began after every change ever observed |
| DevSystem.KeepsNoLostChange | cmd/ahdcode/devwatch.go:66-148 | an observed change is in the watcher, the queue, the pending flag, or behind a later build |
| DevSystem.SourcesAreWatched | cmd/ahdcode/dev.go:214-228 | in every run, the posted path set lists, and once it is picked up the watcher tracks, exactly the entry and the sources of the last build taken |
| DevSystem.SourceEditObserved | cmd/ahdcode/devwatch.go:135-148 | in every run, a tick after that observes each edit of one of those files |
| DevSystem.CheckedByFirst | cmd/ahdcode/dev.go:271-288 | in every run, the configuration of a session that goes on has been checked exactly if a good web build was taken |
| DevSystem.RefusedAtFirst | cmd/ahdcode/dev.go:271-288 | in every run, a production configuration met by a good web build ends the session, with status 1, exactly if no good web build was taken before |
| DevProgress.WorkLightens | cmd/ahdcode/dev.go:250-376 | everything a session does by itself leaves strictly less to do: what an event starts weighs less than the event |
| DevProgress.WorkRemains | cmd/ahdcode/dev.go:250-376 | while a change is on its way to a session that goes on, the loop, the build or the watcher can work, whatever the running application does: no deadlock between full queue, watcher and build |
| DevProgress.WorkIsBounded | cmd/ahdcode/dev.go:250-376 | over any stretch of any run that nobody disturbs, in whatever order the goroutines take turns, the work done and the work left never exceed the work there was |
| DevProgress.ChangesAreBuilt | cmd/ahdcode/devwatch.go:66-148 | every observed change is built: over any undisturbed stretch of any run, either a build has begun after it, or the loop, the build or the watcher can work, without waiting for the application, and less than the bound was done; only a stop or a refusal intervenes |
| DevProgress.Settles | cmd/ahdcode/dev.go:250-376 | from every reachable state without a stop there is such a stretch, of steps of the loop, the build and the watcher only, that ends with every observed change followed by a build |
| DevSystem.LeftBehind | cmd/ahdcode/dev.go:271-285 | a process survives the loop exactly when the web refusal meets a live child |
| DevSystem.LeftBehindHappens | cmd/ahdcode/dev.go:271-285 | a run in which it does |
| TextArea.AreaLines | cmd/ahdgui/scroll.go:242-252 | the loop splits a text into its lines |
| TextArea.JoinLines | cmd/ahdgui/scroll.go:242-252 | joining the lines gives the text back |
| TextArea.LinesJoin | cmd/ahdgui/scroll.go:242-252 | and no other unbroken lines do |
| TextArea.AreaPosition | cmd/ahdgui/scroll.go:255-265 | the loop computes the caret's line and column |
| TextArea.AreaOffset | cmd/ahdgui/scroll.go:269-277 | the loop computes the offset of a line and column |
| TextArea.OffsetOfPosition | cmd/ahdgui/scroll.go:255-277 | the offset of a caret's position is the caret |
| TextArea.PositionOfOffset | cmd/ahdgui/scroll.go:255-277 | the position of an offset is the clamped line and column |
| TextArea.EditRefinesView | cmd/ahdgui/scroll.go:280-328 | every key on text and caret is the matching edit on lines, line and column |
| Widgets.Clamped | cmd/ahdgui/scroll.go:49-58 | scrolls end up inside the content, and inside scrolls stay |
| Widgets.RevealShows | cmd/ahdgui/scroll.go:61-76 | a revealed row is in view, and a row already in view moves nothing |
| Widgets.ThumbInTrack | cmd/ahdgui/scroll.go:79-88 | the thumb never leaves its track |
| Widgets.ThumbShare | cmd/ahdgui/scroll.go:79-88 | the thumb is the share of the content in view, rounded down, and 16 pixels at least where the track has them |
| Widgets.ThumbEnds | cmd/ahdgui/scroll.go:79-88 | the thumb is at the top of its track at scroll 0 and at its end at the last scroll |
| Widgets.ViewFits | cmd/ahdgui/scroll.go:19-46 | a view lies inside its widget, with the bar beside it exactly when the content is higher |
| Widgets.SelectionShown | cmd/ahdgui/scroll.go:61-76 | a revealed selection is in view, and one in view moves nothing |
| Widgets.CaretShown | cmd/ahdgui/scroll.go:332-346 | the line of a TextArea's caret is in view after an edit, and one in view moves nothing |
| Widgets.HighlightShown | cmd/ahdgui/scroll.go:224-237 | the highlighted choice of an open list is in view |
| WindowPointer.DragFollows | cmd/ahdgui/scroll.go:111-118 | a dragged thumb scrolls monotonically and reaches both ends of the content |
| Layout.AtLeastNatural | cmd/ahdgui/model.go:679-792 | every widget is at least its natural size, and exactly that when it does not grow |
| Layout.ChildInside | cmd/ahdgui/model.go:733-792 | children lie inside their Container's padding |
| Layout.ChildSpacing | cmd/ahdgui/model.go:733-792 | children follow each other exactly `spacing` apart, the first at the padding |
| Layout.ChildrenFill | cmd/ahdgui/model.go:733-792 | a Container with children is filled from its near to its far padding, whether it grows or not |
| Layout.ChildAligned | cmd/ahdgui/model.go:733-792 | children of a Column start at its left padding, and children of a Row are centered to a pixel |
| Layout.RootPlaced | cmd/ahdgui/model.go:663-677 | the root is in the corner; one that grows covers the window and takes no more than window and natural size ask for |
| Layout.LeafNeeds | cmd/ahdgui/model.go:679-729 | each kind of leaf is as large as its measured text needs, within its bounds |
| Layout.SelectNeeds | cmd/ahdgui/model.go:679-729 | a Select fits its placeholder and its measured choices, and no more |
| Layout.TableNeeds | cmd/ahdgui/model.go:679-729 | a TableView fits its columns and its scroll bar, and no more |
| Layout.NaturalIsTight | cmd/ahdgui/model.go:679-729 | at its natural size a Container leaves nothing over along its main axis |
| Layout.NaturalAcross | cmd/ahdgui/model.go:679-729 | across it, a Container is as wide as its widest child needs |
| Layout.GrowsExactly | cmd/ahdgui/model.go:679-729 | a widget grows exactly if something at or below it scrolls |
| Layout.FairShares | cmd/ahdgui/model.go:733-792 | growing siblings' shares differ by at most one pixel and fill the cross axis |
| Layout.SharesExact | cmd/ahdgui/model.go:733-792 | the shares add up to the extra space |
| Layout.LeavesDisjoint | cmd/ahdgui/model.go:663-792 | no two leaves of any tree overlap |
| Layout.OneLeafAt | cmd/ahdgui/model.go:795-803 | at most one leaf is under a point |
| Layout.ContainsTiles | cmd/ahdgui/model.go:795-803 | a rectangle holds its points and no other: one holds its corner, and touching ones hold what they make up |
| WidgetModel.Model.MeasureWidget | cmd/ahdgui/model.go:679-729 | the first pass stores every natural size below a widget |
| WidgetModel.Model.Place | cmd/ahdgui/model.go:733-792 | the second pass stores every rectangle below a widget and clamps its scroll |
| WidgetModel.Model.Layout | cmd/ahdgui/model.go:663-677 | leaves the window exactly as the specification of both passes lays it out, the open list placed and every other field untouched; no reading changes |
| WidgetModel.Model.Hit | cmd/ahdgui/model.go:795-803 | the youngest leaf under a point, or none |
| WindowLayout.LaidOutUnique | cmd/ahdgui/model.go:663-803 | after a layout the widget hit is the only leaf there |
| WidgetModel.Model.AddSpec | cmd/ahdgui/model.go:211-283 | the first problem in order, else a new widget with the next id at the end of its parent; the tree invariant holds |
| WindowRequests.AddedKeepsTree | cmd/ahdgui/model.go:211-283 | adding keeps one single-rooted acyclic tree numbered in creation order |
| WindowRequests.AddAllowed | cmd/ahdgui/model.go:211-283 | a widget is taken exactly when there is room, its content is valid, its selection exists, and it is the first and a Container or goes into a Container |
| WindowRequests.AddRefused | cmd/ahdgui/model.go:211-283 | which of the reasons is given |
| WindowRequests.CreatedHolds | cmd/ahdgui/model.go:211-283 | a new widget is enabled and holds what was asked for, its caret at the end |
| WindowRequests.ColumnNeeds | cmd/ahdgui/model.go:333-349 | a column is as wide as its header and its widest measured cell need, within its bounds |
| WidgetModel.Model.ColumnWidths | cmd/ahdgui/model.go:333-349 | each column's width is its widest measured header or cell, in bounds |
| WidgetModel.Model.SetText | cmd/ahdgui/model.go:351-374 | replaces one widget's text, caret at its end, nothing queued |
| WindowRequests.TextSetShows | cmd/ahdgui/model.go:351-374 | a new text is shown from its beginning, with the caret at its end |
| WidgetModel.Model.SetChecked | cmd/ahdgui/model.go:376-389 | sets one Checkbox, nothing queued |
| WidgetModel.Model.SetItems | cmd/ahdgui/model.go:393-409 | replaces items, clears a selection that is gone, closes its open list |
| WidgetModel.Model.SetRows | cmd/ahdgui/model.go:412-429 | replaces rows and widths likewise |
| WidgetModel.Model.AfterReplace | cmd/ahdgui/model.go:433-443 | selection, highlight, open list and scroll after a replacement |
| WindowRequests.ReplacedKeeps | cmd/ahdgui/model.go:433-443 | a selection survives new entries exactly while it exists |
| WidgetModel.Model.SelectIndex | cmd/ahdgui/model.go:447-464 | selects and reveals for the program, nothing queued |
| WidgetModel.Model.SetEnabled | cmd/ahdgui/model.go:579-606 | a disabled widget loses focus, press, drag and open list, and nothing else changes |
| WindowRequests.DisablingReleases | cmd/ahdgui/model.go:579-606 | disabling takes away whatever pointed to the widget and nothing else; enabling sets the one flag |
| WidgetModel.Model.Resize | cmd/ahdgui/model.go:636-645 | the size is kept in bounds, and only a new size closes the open list |
| WidgetModel.Model.Press | cmd/ahdgui/model.go:811-842 | on the laid-out window: inside the open list it only presses that list; elsewhere it closes an open list, focuses and presses exactly the focusable leaf under the point, whose scroll bar, row or caret follows, and touches nothing else |
| WidgetModel.Model.PressScrollbar | cmd/ahdgui/scroll.go:91-108 | taken exactly on a visible bar; beside the thumb it scrolls there; afterwards the pointer is on the thumb, at the distance from its top that a drag keeps |
| WindowPointer.JumpHolds | cmd/ahdgui/scroll.go:79-108 | wherever the track is pressed, the truncated scroll draws the thumb under the pointer; away from the ends its middle is there or one pixel above |
| WindowPointer.PressHoldsThumb | cmd/ahdgui/scroll.go:91-108 | so after every press on the bar the pointer is on the thumb |
| WidgetModel.Model.Drag | cmd/ahdgui/model.go:845-857 | the dragged widget's scroll follows the pointer |
| WidgetModel.Model.Release | cmd/ahdgui/model.go:862-887 | the exact window and click after a release: a drag ends, or the choice of the open list whose row, with the list's scroll, is under the pointer is taken and the list closed, or the pressed widget is clicked exactly when the release is on it |
| WindowClicks.ChoiceAt | cmd/ahdgui/scroll.go:194-201 | the choice whose row, with the list's scroll, holds the point; none exactly above the first row and behind the last |
| WindowClicks.ReleaseSelects | cmd/ahdgui/model.go:862-887 | a press and release in the open list selects the choice under the pointer and closes the list |
| WindowClicks.ReleaseSelectsNothing | cmd/ahdgui/model.go:862-887 | such a release outside the list or its rows leaves selection and list alone |
| WindowClicks.ReleaseClicks | cmd/ahdgui/model.go:862-887 | a release clicks the pressed leaf exactly when the pointer is still on it |
| WindowClicks.ReleaseEndsDrag | cmd/ahdgui/model.go:862-887 | the release of a drag ends it and clicks nothing |
| WidgetModel.Model.Activate | cmd/ahdgui/model.go:891-908 | the exact window after a click: Button returned, Checkbox toggled and queued, Select opened or closed |
| WindowClicks.ActivatedBy | cmd/ahdgui/model.go:891-908 | a click toggles and queues a Checkbox, opens or closes an enabled Select, and does nothing to another widget |
| WidgetModel.Model.FocusStep | cmd/ahdgui/model.go:917-938 | closes the open list and focuses the cyclically next or previous enabled widget |
| WindowKeys.FocusStepsInverse | cmd/ahdgui/model.go:910-938 | Tab and Shift+Tab undo each other |
| WindowKeys.FocusStepUnique | cmd/ahdgui/model.go:917-938 | there is only one next and one previous widget |
| WidgetModel.Model.Escape | cmd/ahdgui/model.go:986-994 | closes an open list and says whether one was open |
| WidgetModel.Model.ActivateFocused | cmd/ahdgui/model.go:944-965 | Enter and Space on each kind of focused widget |
| WidgetModel.Model.Insert | cmd/ahdgui/model.go:1009-1036 | as many of the typable runes as fit go in at the caret, queued exactly when there are any |
| WindowKeys.PrintableFits | cmd/ahdgui/model.go:1009-1036 | printable text that fits is typed whole, and of longer text the beginning that fits |
| WindowKeys.OnlyPrintable | cmd/ahdgui/model.go:1009-1036 | no control character but a TextArea's newline is typed, and no invalid rune |
| WindowKeys.TypablesAdd | cmd/ahdgui/model.go:1009-1036 | what is typed keeps its order |
| WidgetModel.Model.Edit | cmd/ahdgui/model.go:1038-1074 | the key's edit of the focused text field, queued exactly when the text changed |
| WindowKeys.LineIsArea | cmd/ahdgui/model.go:1038-1074 | a one-line field edits its line as a TextArea would |
| WindowKeys.StepIndex | cmd/ahdgui/model.go:1113-1139 | a navigation key keeps an index in range and never moves it the wrong way |
| WindowKeys.DownReaches | cmd/ahdgui/model.go:1113-1139 | from no entry, k + 1 times ArrowDown reaches entry k, and stops at the last |
| WindowKeys.UpReaches | cmd/ahdgui/model.go:1113-1139 | from the last entry, k times ArrowUp goes k entries up, and stops at the first |
| WindowKeys.PagesAndEnds | cmd/ahdgui/model.go:1113-1139 | a page is six arrows, Home and End are as far as the arrows go, and without a selection the keys start at the top |
| WindowKeys.EmptySteps | cmd/ahdgui/model.go:1113-1139 | nothing is selected in an empty list |
| WidgetModel.Model.Navigate | cmd/ahdgui/model.go:1079-1110 | moves the open list's highlight, or else the selection |
| WidgetModel.Model.UserSelect | cmd/ahdgui/model.go:1143-1151 | selects and reveals, queued exactly when the selection changed |
| WindowClicks.SelectedByUser | cmd/ahdgui/model.go:1143-1151 | an entry the user selects is selected, and queued if it was not |
| WidgetModel.Model.Wheel | cmd/ahdgui/scroll.go:135-162 | over an open list it scrolls that list; elsewhere it scrolls exactly when some enabled scrolling leaf is under the point, that leaf only, and changes nothing otherwise |
| WindowPointer.WheelMoves | cmd/ahdgui/scroll.go:135-162 | one notch is 72 pixels, up for a positive turn and down for a negative one, exact but for a part of a pixel between the ends of the content |
| WindowPointer.ListWheelMoves | cmd/ahdgui/scroll.go:135-150 | the same for an open list |
| WidgetModel.Model.TypeInto | cmd/ahdgui/model.go:1154-1174 | types into any enabled text field and gives the focus back |
| WidgetModel.Model.Toggle | cmd/ahdgui/model.go:1177-1188 | toggles an enabled Checkbox |
| WidgetModel.Model.Choose | cmd/ahdgui/model.go:1191-1203 | selects an index in range, else the error |
| WidgetModel.Model.OpenPopup | cmd/ahdgui/scroll.go:203-213 | opens an enabled Select at its selection, below it or above it |
| WindowClicks.OpeningShows | cmd/ahdgui/scroll.go:203-237 | the list opens at the selection, scrolled into view, or at its beginning without one |
| WindowLayout.ListBoxPlaced | cmd/ahdgui/scroll.go:173-182 | the list is right below its Select if it fits or has no room above, else right above it, and shows up to eight choices |
| WidgetModel.Model.ClosePopup | cmd/ahdgui/scroll.go:215-221 | closes the open list and clears its highlight |
| WindowClicks.ClosingTouches | cmd/ahdgui/scroll.go:215-221 | closing touches the highlight of the one Select only |
| WindowPointer.RowAt | cmd/ahdgui/scroll.go:121-131 | the row whose band holds the point; none exactly outside the view and behind the last row |
| WindowPointer.ScrollbarPlace | cmd/ahdgui/scroll.go:91-98 | the bar is at the right edge of its widget and there exactly when the content is higher than the view |
| WidgetModel.Model.PlaceAreaCaret | cmd/ahdgui/scroll.go:349-367 | the caret goes to the nearer gap of the clicked line |
| WindowPointer.NearestGap | cmd/ahdgui/scroll.go:349-367 | no other gap of the line is nearer to the click |
| WindowPointer.ClickedLine | cmd/ahdgui/scroll.go:349-367 | the line is the one whose band holds the click, or the first or last one beyond them |
| WindowPointer.DrawnScrollIs | cmd/ahdgui/scroll.go:349-367 | the horizontal scroll in logical pixels is that in device pixels divided by the scale, rounded down |
| WindowState.UpdateKeepsWhole | cmd/ahdgui/model.go:150-178 | the global invariant survives every replacement of one widget that keeps its place |
| WindowLayout.LayoutKeeps | cmd/ahdgui/model.go:663-792 | a layout keeps tree, carets, selections and scrolls inside |
| WidgetModel.Model.NoteChange | cmd/ahdgui/model.go:521-528 | queues an id once |
| WidgetModel.Model.TakeChanges | cmd/ahdgui/model.go:531-537 | returns the queue and empties it |
| WidgetModel.Model.Values | cmd/ahdgui/model.go:497-507 | the readings of all widgets a user can change |
| WindowState.ValuesComplete | cmd/ahdgui/model.go:497-507 | exactly those readings, none missing and none more |
| WindowState.ValuesInOrder | cmd/ahdgui/model.go:497-507 | each once, in creation order |
| GuiSession.Session.Changed | cmd/ahdgui/session.go:98-112 | sends exactly the queued, listened-to readings, in order, and empties the queue |
| GuiSession.ReportsExact | cmd/ahdgui/session.go:98-112 | a report holds an event for each such widget and nothing else |
| GuiSession.ReportsOnce | cmd/ahdgui/session.go:98-112 | no widget twice |
| GuiSession.ReportsAdd | cmd/ahdgui/session.go:98-112 | what was queued first is told first |
| GuiSession.HeardReport | cmd/ahdgui/session.go:98-112 | hearing a report teaches the present reading of exactly the queued widgets listened to, and changes no other belief |
| GuiSession.PutLearned | cmd/ahdgui/session.go:223-245 | a request changes a reading in a way that depends on the reading and the request alone, so the program can follow it |
| GuiSession.LostAfter | cmd/ahdgui/session.go:69-297 | after any move of user, session or program, a widget is lost (wrong and not queued) exactly if it was lost and not taught, or its change was dropped just now |
| GuiSession.MoveKeeps | cmd/ahdgui/session.go:69-297 | every move keeps a session sound: only what is listened to is sent, closed goes out once; and no widget listened to is ever newly lost |
| GuiSession.LostSince | cmd/ahdgui/session.go:69-297 | over any run, a widget listened to is lost later exactly if it was lost at the start and nothing has taught it since |
| GuiSession.ReportsAreRight | cmd/ahdgui/session.go:98-112 | over any run, every report after a widget is listened to leaves the program right about it if and only if it was not lost when listening began, or was taught since |
| GuiSession.LostFromStart | cmd/ahdgui/session.go:69-297 | in any run of a new session, a widget is lost exactly if some report dropped its change and nothing has taught the program since |
| GuiSession.ReportsRightFromStart | cmd/ahdgui/session.go:98-112 | in any run of a new session, a report leaves the program right about a widget it listens to if and only if every earlier drop of its change, from before the listening, was made up for |
| GuiSession.DroppedBeforeListening | cmd/ahdgui/session.go:98-112 | a run from a new window: a Column and a Checkbox are added, the user toggles it, a report drops the change, the program listens, and is wrong with nothing queued |
| GuiSession.Session.EmitClosed | cmd/ahdgui/session.go:69-74 | one closed event with every reading, and only the first time |
| GuiSession.ClosedOnce | cmd/ahdgui/session.go:69-74 | the invariant's count means that two closed events never occur |
| GuiSession.StepNotes | cmd/ahdgui/model.go:521-528 | after a step of the user on one widget the queue is the old one, with that widget at its end exactly if its reading changed and it was not queued |
| GuiSession.Session.Act | cmd/ahdgui/session.go:156-164 | the exact window after a scripted type, toggle or select step: the widget as the user would leave it, queued if it reads differently |
| GuiSession.Session.Replay | cmd/ahdgui/session.go:155-182 | the exact situation after any scripted step, and the moves it consists of |
| GuiSession.StepTold | cmd/ahdgui/session.go:170-183 | a click on an enabled Button listened to, and a key listened to, send exactly that event |
| GuiSession.StepIgnored | cmd/ahdgui/session.go:170-183 | any other click or key does nothing |
| GuiSession.DisabledUntouched | cmd/ahdgui/session.go:156-164 | a scripted step cannot change a disabled widget |
| GuiSession.ResizedWithin | cmd/ahdgui/model.go:636-645 | a new size is taken within 1 and 4096 pixels and closes an open list; the same size changes nothing |
| GuiSession.Session.Advance | cmd/ahdgui/session.go:151-186 | the situation is exactly that after the script's next event: every step up to it was done on the window and told, exactly one event goes out while the window is open, and a script without another event closes it |
| GuiSession.Session.Handle | cmd/ahdgui/session.go:188-297 | for every request but title and color, the exact answer and all it does; no request reports a change, status, wait, read and close leave the window alone, a closed window takes no changes, and a refusal changes nothing |
| GuiSession.AnswersAreQuiet | cmd/ahdgui/session.go:188-297 | no answer sends an event or queues a change, and none to a closed window touches it |
| GuiSession.Session.HandleGet | cmd/ahdgui/session.go:201-206 | a read gives the widget's present reading, after which the program is right about it |
| GuiSession.Session.HandleListen | cmd/ahdgui/session.go:273-294 | listening adds the widget to those reported, or is refused for a missing one |
| GuiSession.Session.HandleAdd | cmd/ahdgui/session.go:212-223 | an added widget, with the measured column widths of its table, is answered with its id and known to the program from its specification |
| GuiSession.Session.HandlePut | cmd/ahdgui/session.go:223-245 | a set replaces exactly the one widget's text, check, entries, rows or selection, closes its open list when entries go, and changes what the program believes of that widget only, in the way it can work out |
| Raster.ClipSegment | cmd/ahdgraphics/raster.go:162-188 | false exactly when no point of the segment is in the box; else the result is precisely the part inside, running the way the segment does |
| Raster.SideNarrows | cmd/ahdgraphics/raster.go:166-186 | the loop's range is exactly the parameters that satisfy the sides so far |
| Raster.SignedArea | cmd/ahdgraphics/raster.go:47-54 | the loop computes the shoelace area |
| Raster.TriangleArea | cmd/ahdgraphics/raster.go:47-54 | a triangle's area is half of what two of its sides span, positive counterclockwise |
| Raster.FanArea | cmd/ahdgraphics/raster.go:47-54 | each further corner adds the triangle it makes with the first and the last corner |
| Raster.FewCorners | cmd/ahdgraphics/raster.go:47-54 | fewer than three corners have no area |
| Raster.AreaReversed | cmd/ahdgraphics/raster.go:58-73 | reversing a polygon negates its area |
| Raster.OrientedArea | cmd/ahdgraphics/raster.go:58-73 | covering loops turn one way and holes the other, areas unchanged in size |
| Raster.ShapePath.Polygon | cmd/ahdgraphics/raster.go:58-80 | traces the oriented polygon, or nothing for a degenerate one, and keeps the bounds tight |
| Raster.ShapePath.Include | cmd/ahdgraphics/raster.go:42-45 | the bounds are the least box around all points |
| Raster.AreaOfPixels | cmd/ahdgraphics/raster.go:155-157 | drawing turns every polygon over and scales its area by the square of the scale |
| Raster.PixelsFill | cmd/ahdgraphics/raster.go:155-157 | the canvas's corners are drawn at the picture's corners, and distances scale, with y turned over |
| PlotView.View.Reset | cmd/ahdplotview/view.go:51-56 | fitted, centered, unturned and untouched, whatever came before |
| PlotView.View.ZoomAt | cmd/ahdplotview/view.go:60-73 | the zoomed view, in bounds |
| PlotView.View.Pan | cmd/ahdplotview/view.go:76-84 | the panned view, in bounds |
| PlotView.View.Rotate | cmd/ahdplotview/view.go:88-95 | the turned view for any number of quarter turns, in bounds |
| PlotView.View.Resize | cmd/ahdplotview/view.go:99-111 | the view after a window change, in bounds |
| PlotView.ZoomKeepsPoint | cmd/ahdplotview/view.go:58-73 | the image point under the cursor stays exactly when its axis needs no clamping |
| PlotView.ZoomLosesPoint | cmd/ahdplotview/view.go:58-73 | a fitted view zoomed out off its center, whose point under the cursor moves |
| PlotView.ClampedGood | cmd/ahdplotview/view.go:113-127 | each axis ends centered or covering, and only a bad axis moves |
| PlotView.ClampAxisNearest | cmd/ahdplotview/view.go:122-127 | clamping moves an axis no further than it must |
| PlotView.FitLargest | cmd/ahdplotview/view.go:43-46 | no larger zoom up to 1 shows the whole image |
| PlotView.TurnExchanges | cmd/ahdplotview/view.go:34-39 | every quarter turn exchanges the drawn sides |
| PlotView.ZoomFactor | cmd/ahdplotview/view.go:60-73 | the zoom is multiplied by the factor, up to its two bounds |
| PlotView.PanMovesPoint | cmd/ahdplotview/view.go:76-84 | what was shown at a point is shown (dx, dy) further exactly when its axis needs no clamping there |
| PlotView.RotateKeeps | cmd/ahdplotview/view.go:88-95 | a turn keeps of a touched view the zoom and the center that are still in bounds |
| PlotView.ResizeKeeps | cmd/ahdplotview/view.go:99-111 | so does a new window, to which an untouched view is fitted |
| PlotView.RotateUntouched | cmd/ahdplotview/view.go:86-95 | an untouched view stays fitted and centered over a turn |
| PlotView.RotateBackUntouched | cmd/ahdplotview/view.go:86-95 | turning an untouched view and back is the identity |
| PlotView.RotateBackZoom | cmd/ahdplotview/view.go:86-95 | a touched view's zoom survives a turn and back exactly when it is in range for the turned image |
| PlotView.RotateLosesZoom | cmd/ahdplotview/view.go:86-95 | a tall image zoomed in and out by two, turned and back, comes back at zoom 0.25 instead of 0.1 |
| Tables.ColumnPosition | internal/evaluator/data.go:89-97 | the first column of a name, or DataError |
| Tables.Unique | internal/evaluator/data.go:490-501 | the distinct values in order of first occurrence |
| Tables.ValueCounts | internal/evaluator/data.go:503-516 | the same keys, with exact counts |
| Tables.GroupBy | internal/evaluator/data.go:520-537 | the same keys, each with exactly the rows of that key in the order of the table |
| Tables.FilterInOrder | internal/evaluator/data.go:520-537 | a group is the rows at strictly increasing indices, namely at all those whose cell is the key |
| Tables.FilterAdds | internal/evaluator/data.go:520-537 | the group of a table in two parts is that of the first, then that of the second |
| Tables.GroupSize | internal/evaluator/data.go:503-537 | group sizes equal value counts |
| Tables.GroupByConserves | internal/evaluator/data.go:520-537 | the groups together are the rows of the table as a multiset |
| Tables.CountsAddUp | internal/evaluator/data.go:503-516 | counts add up to the row count |
| Tables.KeysInOrder | internal/evaluator/data.go:490-537 | keys keep first-occurrence order |
| Tables.PivotCount | internal/evaluator/data.go:564-599 | the cross-tabulation, or the errors in order |
| Tables.PivotLineAddsUp | internal/evaluator/data.go:564-599 | over all column keys, the counts of one line key add up to the count of that key |
| Tables.CrossSymmetric | internal/evaluator/data.go:564-599 | exchanging the axes transposes the counts |
| Tables.PivotAddsUp | internal/evaluator/data.go:564-599 | the counts over all line and column keys add up to the number of rows |
| Tables.ColumnSumIsRowSum | internal/evaluator/data.go:564-599 | the counts of a column are those of a line of the pivot with the axes exchanged |
| Tables.PivotCell | internal/evaluator/data.go:588-598 | each text cell of the pivot reads back as the number of rows with its line's and its column's value |
| Tables.PivotConserves | internal/evaluator/data.go:564-599 | in the table itself, read back from its text: every line adds up to the count of its value, every column to the count of its value, and the whole to the number of rows tabulated |
| Tables.ParsedDecimal | internal/evaluator/data.go:592-595 | the text of a count reads back as the count |
| Tables.DecimalCanonical | internal/evaluator/data.go:592-595 | the text is digits without a leading 0 |
| Tables.KnownDecimals | internal/evaluator/data.go:592-595 | the texts of 0, 7 and 120 |
| Tables.PivotSchema | internal/evaluator/data.go:588-598 | the result has a valid schema exactly when the row axis has a name and no value of the column axis is empty or repeats that name |
| Tables.PivotSchemaFails | internal/evaluator/data.go:588-598 | a table for which it has not |
| TableColumns.Select | internal/evaluator/data.go:340-359 | the chosen columns of every row, or DataError |
| TableColumns.SelectedCell | internal/evaluator/data.go:340-359 | column j of the choice is the column of the j-th name, cell for cell |
| TableColumns.SelectAll | internal/evaluator/data.go:340-359 | choosing all columns is the identity |
| TableColumns.SelectTwice | internal/evaluator/data.go:340-359 | choosing from a choice is choosing at once |
| TableColumns.Drop | internal/evaluator/data.go:361-387 | dropping columns is selecting the others |
| TableColumns.RemainingAdds | internal/evaluator/data.go:361-387 | the columns that remain keep their order |
| TableColumns.Rename | internal/evaluator/data.go:389-404 | one column renamed, or DataError for a missing, empty or taken name |
| TableColumns.RenameBack | internal/evaluator/data.go:389-404 | renaming keeps the schema valid and renaming back undoes it |
| TableColumns.FromRecords | internal/evaluator/data.go:164-197 | the table of records that all fit the first one's valid schema, each cell the record's value for the column's name, else DataError |
| TableColumns.CellsOfRecords | internal/evaluator/data.go:164-197 | in whatever order a record lists its keys |
| TableColumns.Rows | internal/evaluator/data.go:252-257 | the records that the round trip starts from, one per row with every column's cell |
| TableColumns.ValuesHaveColumns | internal/evaluator/data.go:252-257 | a record has a value for each column and for nothing else |
| TableColumns.RecordsRoundTrip | internal/evaluator/data.go:110-197 | a table comes back from its records exactly when its schema is valid, or it is empty |
| SemanticTokens.EncodeSemanticTokens | internal/analysis/semantic_tokens.go:367-386 | for each token the UTF-16 length of exactly its own bytes, cut off only behind the text, its kind and its modifiers; and for ordered tokens a decoder gets all positions back |
| SemanticTokens.DecodesExactly | internal/analysis/semantic_tokens.go:367-386 | the protocol's decoder recovers every token exactly when positions ascend |
| SemanticTokens.OrderedAscend | internal/analysis/semantic_tokens.go:367-386 | strictly increasing starts on code points give ascending positions: no delta underflows |
| SemanticTokens.InsideCodePointUnderflows | internal/analysis/semantic_tokens.go:367-386 | a start inside a code point can underflow |
| SemanticTokens.UnitsAdd | internal/analysis/semantic_tokens.go:429-439 | UTF-16 lengths add up at code-point boundaries, ill-formed bytes included |
| SemanticTokens.UnitsOfText | internal/analysis/semantic_tokens.go:429-439 | the length of an encoded text is two units for each code point above U+FFFF and one for any other |
| SemanticTokens.UnitsOfIllFormed | internal/analysis/semantic_tokens.go:429-439 | a byte that starts no well-formed code point is one unit |
| Utf8.StartsAreReached | internal/analysis/semantic_tokens.go:429-439 | decoding stops at every byte that is not a continuation byte |
| SemanticTokens.Utf16Length | internal/analysis/semantic_tokens.go:429-439 | the loop counts UTF-16 code units |
| SemanticTokens.NewIndex | internal/analysis/semantic_tokens.go:398-406 | the index holds, in order, 0 and every offset behind a line feed, and nothing else |
| SemanticTokens.OffsetToLineChar | internal/analysis/semantic_tokens.go:408-417 | binary search finds the line, and the column is its UTF-16 length |
| SemanticTokens.LinesAre | internal/analysis/semantic_tokens.go:398-417 | a position's line is the number of line feeds before it, and its line starts behind the last of them |
| SemanticTokens.LineByScan | internal/analysis/folding_range.go:128-134 | the linear scan finds the same line |
| SemanticTokens.Collector.Add | internal/analysis/semantic_tokens.go:80-91 | the first token at a start wins, empty ones are ignored |
| SemanticTokens.SortedStrictly | internal/analysis/semantic_tokens.go:66-70 | collected tokens sorted by start have strictly increasing starts |
| Utf8.ValidString | cmd/ahdplotmath/math.go:161-163 | the loop over decoded code points accepts exactly the well-formed byte strings |
| Utf8.ValidExactly | cmd/ahdplotmath/math.go:161-163 | a byte string is well formed exactly when it is the encoding of some Unicode scalar values, by the table in section 3 of RFC 3629 |
| Utf8.RuneCountInString | cmd/ahdplotmath/math.go:164-166 | the loop counts the decoded code points, ill-formed bytes as one each |
| Utf8.TextIsValid | cmd/ahdplotmath/math.go:161-166 | an encoded text is well formed and has as many code points as were encoded |
| MathLabel.Validate | cmd/ahdplotmath/math.go:157-184 | the checks accept exactly the labels in valid UTF-8, short enough in code points, of whitelisted commands and matched braces |
| MathLabel.OrdinaryAccepted | cmd/ahdplotmath/math.go:157-184 | every formula of up to 510 ordinary printable characters that does not start with a blank is accepted |
| MathLabel.ValidateCommands | cmd/ahdplotmath/math.go:209-233 | accepted exactly when every backslash starts a whitelisted command |
| MathLabel.NothingEscaped | cmd/ahdplotmath/math.go:189-233 | no accepted label escapes a brace or closes the display |
| MathLabel.FormulaScans | cmd/ahdplotmath/math.go:235-253 | the scan that passes over escaped characters counts every brace of an accepted content |
| MathCache.KeysDiffer | cmd/ahdplotmath/math.go:132-132 | the NUL-joined key is injective for accepted labels, whatever the runtime path |
| MathCache.Cache.ResetCache | cmd/ahdplotmath/math.go:64-70 | an empty cache |
| MathCache.Cache.Render | cmd/ahdplotmath/math.go:122-155 | the result is that of a fresh compile; the cache is bounded, first in first out, and compiles a resident label never again |

## Left out

- Windows, drawing, fonts, colors, titles and display scale of the GUI; sockets, the HTTP proxy, descriptor file contents, SQLite, PDF, Excel and the editor extension.
- The evaluator's dispatch, the native runtime's concat and join, CSV text, callbacks of filter, derive and transform, and stable sorting by `sort.SliceStable`.
- List reverse and sort, and the row access, head, tail, reverse, grid and factory operations of tables.
- Floating-point rounding: complex powers, clipping and the chart view are over exact reals; NaN and infinite arguments, which the code refuses, do not occur.
- Widgets are values in a map field, not heap objects, so aliasing between a widget and the model is not captured; nothing in the source shares a widget.
- Headless typing holds the model's lock in two pieces; the model makes `TypeInto` one step, so an input between the pieces is not modelled.
- The session is sequential: between taking the queue and reading a widget the program could set it in the source; then the report carries the newer reading.
- A failing output stream, which makes the session ask for closing, and the wait for a window to go.
- GuiSession.Session.Handle: title and color requests are not modelled, because titles and colors are only drawn; nor is the reply to unknown kinds and malformed set requests, because requests are a datatype here.
- Circles and cubic curves of the rasterizer, and the rasterizer itself.
- Each event of the dev loop is one step: other goroutines act between events, not inside one.
- Child exits dropped on a full queue stay dropped, stop requests still queued when the loop returns get no answer, and an edit of a newly tracked file before its first snapshot is not seen; nothing is claimed of them.
- Lists.Reduce: a Real sum is over exact reals, so the errors of a sum that is not finite are not part of the model; a sum of Strings, which the type checker refuses, is not an input.
- MathCache.Cache.Render: the installed runtime and the compiler answer the same question the same way at all times.
- Overlap of semantic tokens is not excluded, as the source does not exclude it.
- The syntax-tree walk that decides token kinds, and completion, hover, rename and code actions.
