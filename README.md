# Blueprint widget decorator, modelled in Dafny

This project models the decision and state logic of `WidgetDecorator`, the
class that decorates one widget of the constraint-layout blueprint editor.
The decorator holds the widget's transient UI state. That state is:

- the selected, hover, resize-handle, size-indicator and show-actions flags;
- the colour look;
- the set of anchor-display flags;
- two reveal timers, one for the baseline and one for the bias labels;
- the list of widget actions.

From that state and the constraint graph it decides what its paint passes draw:

- which anchor handles;
- which constraint lines, and in which order;
- where the action buttons go.

Clicking an action changes the constraint graph:

- **Lock** flips the creator of the widget's connections between user and auto.
- **Delete** removes every constraint of the widget.
- **Toggle** walks a chain back to its head and cycles the head's chain style.

Files:

| file | module | what it holds |
|---|---|---|
| `wrappers.dfy` | `Wrappers` | `Option` |
| `constraints.dfy` | `ConstraintModel` | the fields of the constraint-solver widgets and anchors that the decorator uses, the widget arena, and the in-place `Scene` the actions change |
| `animation.dfy` | `Animation` | the `AnimationProgress` timer, as a class, with time as an explicit `now` |
| `percent.dfy` | `PercentLabel` | `formatPercent`, with the integer printing and parsing needed to read a label back |
| `chain.dfy` | `ChainWalk` | the chain-head walk of the Toggle action, its termination bound, and the style cycle |
| `actions.dfy` | `WidgetActions` | the three actions: `update`, `isVisible`, `click` |
| `decorator.dfy` | `Decorator` | the `WidgetDecorator` class, the anchor-display policies, and the paint decisions |

Modelling choices:

- **Widget arena.** Widgets live in a sequence indexed by widget id. An anchor's target is the pair (owning widget, anchor type), not a reference.
- **Anchor lookup.** `getAnchor(type)` is the first anchor of that type.
- **Well-formedness.** `WellFormed` requires that every id is inside the arena, and that every widget carries LEFT, TOP, RIGHT, BOTTOM and BASELINE anchors. The source dereferences the RIGHT, BOTTOM and BASELINE anchors without a null check, so it relies on these anchors being present.
- **Time.** `System.currentTimeMillis()` becomes a `now` argument.
- **Opaque inputs.** The colour themes' `isAnimating()` is an input. So is `isConnectionAllowed`.
- **Drawing.** Each paint pass returns what it would draw.
- **Solver constants.** The constants come from the constraint-solver library, which is not part of this model, so their values are assumed:
  - `USER_CREATOR` = 0 and `AUTO_CONSTRAINT_CREATOR` = 2;
  - `CHAIN_SPREAD` = 0, `CHAIN_SPREAD_INSIDE` = 1 and `CHAIN_PACKED` = 2.

  With these values the style table `cycle` is indexed by the current style and is a 3-cycle.

Behaviour of the code worth noting:

- **`formatPercent(67, false)`** is `"33%"`, not `"1/3"`. The end-side fraction is chosen from the same percentage, not from `100 - p`.
- **Selected-widget policy.** With the resize handles shown, the policy is `{NONE}` both when the parent is a constraint container that handles its own constraints and when the parent is not a constraint container at all (:946-966).
- **`int` arithmetic in `formatPercent`.** `100 - percent` is computed in 32 bits. For a percentage at or below `100 - 2^31` it wraps, and the two labels no longer add up to one (`EndLabelWrapsAtIntMin`). The bias times 100 is always in 0..100 in practice, and the label lemmas are stated for the percentages where no wrap happens.
- **Chain walk on a cycle.** The walk does not stop on a cycle that is consistent in both directions. It loops, so `FindChainHead` requires `WalkStops`. `WalkBudgetIsExact` shows that this requirement excludes exactly the walks that never stop.
- **Lock saves nothing.** The Lock click asks for no save. Delete and Toggle do ask for one.
- **Lock is never offered.** The decorator's constructor adds only the Delete and Toggle actions, so Lock is modelled as an action but is never in a decorator's list.
- **`isDone` at the duration.** `isDone` needs strictly more than the duration to have passed. At exactly `start + duration` the progress is already 1 but the timer is still running (`BiasTimeline`).

## Model

Source paths are relative to the repository root.

| member | source | states |
|---|---|---|
| ConstraintModel.FindAnchor | sherpa-ui/src/com/android/tools/sherpa/drawing/decorator/WidgetDecorator.java:621-624 | `getAnchor(type)` returns a position inside the widget's anchor list, or nothing |
| ConstraintModel.FindAnchorFirst | sherpa-ui/src/com/android/tools/sherpa/drawing/decorator/WidgetDecorator.java:621-624 | the anchor found has the requested type and is the first of that type; nothing is found exactly when the widget has no anchor of that type |
| ConstraintModel.ClearTargets | sherpa-ui/src/com/android/tools/sherpa/drawing/decorator/WidgetDecorator.java:1403 | resetting constraints keeps the number of anchors and each anchor's type and creator, and leaves no anchor connected |
| ConstraintModel.Scene.ResetAllConstraints | sherpa-ui/src/com/android/tools/sherpa/drawing/decorator/WidgetDecorator.java:1403 | only the widget's own anchors change, and they lose their targets; the rest of the graph is untouched |
| ConstraintModel.Scene.SetHorizontalChainStyle | sherpa-ui/src/com/android/tools/sherpa/drawing/decorator/WidgetDecorator.java:1476 | only the given widget's horizontal chain style changes |
| ConstraintModel.Scene.SetVerticalChainStyle | sherpa-ui/src/com/android/tools/sherpa/drawing/decorator/WidgetDecorator.java:1503 | only the given widget's vertical chain style changes |
| Animation.AnimationProgress.constructor | sherpa-ui/src/com/android/tools/sherpa/drawing/decorator/WidgetDecorator.java:120-123 | a new timer is not started, with a delay of 1000 ms and a duration of 300 ms |
| Animation.AnimationProgress.SetDelay | sherpa-ui/src/com/android/tools/sherpa/drawing/decorator/WidgetDecorator.java:125-127 | sets the delay and nothing else |
| Animation.AnimationProgress.SetDuration | sherpa-ui/src/com/android/tools/sherpa/drawing/decorator/WidgetDecorator.java:129-131 | sets the duration and nothing else; a zero duration is refused, because progress would divide zero by zero |
| Animation.AnimationProgress.Start | sherpa-ui/src/com/android/tools/sherpa/drawing/decorator/WidgetDecorator.java:133-135 | the timer starts `delay` after now |
| Animation.AnimationProgress.Reset | sherpa-ui/src/com/android/tools/sherpa/drawing/decorator/WidgetDecorator.java:164-166 | the timer returns to not started |
| Animation.AnimationProgress.Progress | sherpa-ui/src/com/android/tools/sherpa/drawing/decorator/WidgetDecorator.java:137-150 | progress is in [0, 1]; it is 0 when not started or before the start; it is 1 once more than the duration has passed; in between it is the elapsed fraction of the duration |
| Animation.ProgressMonotone | sherpa-ui/src/com/android/tools/sherpa/drawing/decorator/WidgetDecorator.java:137-150 | progress never decreases as time passes |
| Animation.DoneMeansFullProgress | sherpa-ui/src/com/android/tools/sherpa/drawing/decorator/WidgetDecorator.java:152-170 | a done timer shows full progress and is not running; a started timer that is not done is running; a timer that was never started (or was reset) is neither done nor running and shows no progress |
| Animation.BiasTimeline | sherpa-ui/src/com/android/tools/sherpa/drawing/decorator/WidgetDecorator.java:137-170 | the bias timer (delay 0, duration 1 s) starts at 0 progress, is half way after 500 ms, reaches full progress at 1000 ms while still running, and is done at 1001 ms |
| Animation.DelayedStart | sherpa-ui/src/com/android/tools/sherpa/drawing/decorator/WidgetDecorator.java:133-170 | during the delay a started timer is running but shows no progress |
| PercentLabel.IntToStringRoundTrip | sherpa-ui/src/com/android/tools/sherpa/drawing/decorator/WidgetDecorator.java:917 | the decimal text of an int, as string concatenation makes it, parses back to the same int |
| PercentLabel.NatToStringRoundTrip | sherpa-ui/src/com/android/tools/sherpa/drawing/decorator/WidgetDecorator.java:917 | the decimal digits of a natural number parse back to it |
| PercentLabel.LabelsAreComplements | sherpa-ui/src/com/android/tools/sherpa/drawing/decorator/WidgetDecorator.java:916-941 | for every `int` percentage whose complement `100 - percent` does not overflow, both labels can be read back as values and the two values add up to one |
| PercentLabel.BeginLabelApproximatesBias | sherpa-ui/src/com/android/tools/sherpa/drawing/decorator/WidgetDecorator.java:916-929 | the start label reads as the bias within 0.01, and exactly except at 33 and 66 |
| PercentLabel.EndLabelIsComplementBegin | sherpa-ui/src/com/android/tools/sherpa/drawing/decorator/WidgetDecorator.java:916-941 | the end label of p equals the start label of 100 - p exactly when p is not 33, 34, 66 or 67 |
| PercentLabel.FormatPercentExamples | sherpa-ui/src/com/android/tools/sherpa/drawing/decorator/WidgetDecorator.java:916-941 | 33 gives "1/3" and "2/3"; 67 gives "33%" on the end side; 50 gives "50%" on both sides; 90 gives "90%" and "10%" |
| ChainWalk.WalkStep | sherpa-ui/src/com/android/tools/sherpa/drawing/decorator/WidgetDecorator.java:1458-1471 | one turn of the walk either stops at the current widget or moves to a widget of the graph |
| ChainWalk.HeadWalk | sherpa-ui/src/com/android/tools/sherpa/drawing/decorator/WidgetDecorator.java:1458-1472 | a head found by the walk is a widget of the graph |
| ChainWalk.FindChainHead | sherpa-ui/src/com/android/tools/sherpa/drawing/decorator/WidgetDecorator.java:1455-1472 | the loop of the click ends with the head the walk specification finds, or with none when the walk falls off the chain |
| ChainWalk.UnfinishedIffNth | sherpa-ui/src/com/android/tools/sherpa/drawing/decorator/WidgetDecorator.java:1458 | the walk is still going after f turns exactly when f steps of predecessors can be taken |
| ChainWalk.WalkCycles | sherpa-ui/src/com/android/tools/sherpa/drawing/decorator/WidgetDecorator.java:1458 | once the walk revisits a widget it can be continued for any number of steps |
| ChainWalk.WalkBudgetIsExact | sherpa-ui/src/com/android/tools/sherpa/drawing/decorator/WidgetDecorator.java:1458 | a walk that has not stopped after one turn per widget never stops, so a budget of one turn per widget loses no walk that ends |
| ChainWalk.WalkOutcome | sherpa-ui/src/com/android/tools/sherpa/drawing/decorator/WidgetDecorator.java:1458-1471 | a head found is reached by following predecessors and passes the stop test; a lost walk reached a widget with no predecessor, under a widget that has a parent |
| ChainWalk.ChainHeadMeaning | sherpa-ui/src/com/android/tools/sherpa/drawing/decorator/WidgetDecorator.java:1458-1471 | the head found from w is reached from w through LEFT (or TOP) targets. Its predecessor is w's parent, or a widget whose RIGHT (or BOTTOM) target is owned by some other widget. When no head is found, the walk met a widget whose back side is unconnected |
| ChainWalk.CycleStyle | sherpa-ui/src/com/android/tools/sherpa/drawing/decorator/WidgetDecorator.java:1475-1476 | the next style is a valid style different from the current one |
| ChainWalk.CycleStyleThrice | sherpa-ui/src/com/android/tools/sherpa/drawing/decorator/WidgetDecorator.java:1475-1476 | three toggles bring a chain back to its style |
| ChainWalk.SameLinksWellFormed | sherpa-ui/src/com/android/tools/sherpa/drawing/decorator/WidgetDecorator.java:1476 | changing chain styles keeps the graph well formed |
| ChainWalk.WalkIgnoresStyles | sherpa-ui/src/com/android/tools/sherpa/drawing/decorator/WidgetDecorator.java:1482-1493 | the walk does not depend on chain styles, so the vertical walk after the horizontal toggle sees the same chain |
| ChainWalk.ToggleAxis | sherpa-ui/src/com/android/tools/sherpa/drawing/decorator/WidgetDecorator.java:1455-1481 | toggling one axis keeps every connection and parent, and keeps every style valid |
| ChainWalk.ToggleChangesOnlyHead | sherpa-ui/src/com/android/tools/sherpa/drawing/decorator/WidgetDecorator.java:1455-1481 | when a head is found, only the head changes, and only its style on the toggled axis, which becomes the next one in the cycle; otherwise the graph is unchanged |
| ChainWalk.ToggledChains | sherpa-ui/src/com/android/tools/sherpa/drawing/decorator/WidgetDecorator.java:1454-1511 | the whole toggle, horizontal then vertical, keeps every connection and parent and every style valid |
| ChainWalk.SideAnchorsWellFormed | sherpa-ui/src/com/android/tools/sherpa/drawing/decorator/WidgetDecorator.java:1459-1466 | a widget with the five standard anchors and targets inside the graph is well formed |
| ChainWalk.ExampleChainWellFormed | sherpa-ui/src/com/android/tools/sherpa/drawing/decorator/WidgetDecorator.java:1454-1481 | the three-widget example chain is a well-formed graph with valid styles |
| ChainWalk.ExampleChainHead | sherpa-ui/src/com/android/tools/sherpa/drawing/decorator/WidgetDecorator.java:1455-1472 | in a container holding A-B-C, the walk from C and the walk from B both stop at A |
| ChainWalk.ExampleChainToggle | sherpa-ui/src/com/android/tools/sherpa/drawing/decorator/WidgetDecorator.java:1474-1477 | toggling from C moves A from spread-inside to packed |
| WidgetActions.ConnectedIffCounted | sherpa-ui/src/com/android/tools/sherpa/drawing/decorator/WidgetDecorator.java:1335-1346 | an anchor list has a connection exactly when the vote counts some creator |
| WidgetActions.MainCreatorMeaning | sherpa-ui/src/com/android/tools/sherpa/drawing/decorator/WidgetDecorator.java:1332-1351 | the vote is -1 exactly when nothing is connected, USER exactly when strictly more connections are user-made than auto-made, and AUTO otherwise, ties included |
| WidgetActions.GetMainConstraintsCreator | sherpa-ui/src/com/android/tools/sherpa/drawing/decorator/WidgetDecorator.java:1332-1351 | the counting loop returns the majority vote |
| WidgetActions.AnyConnectedAnchor | sherpa-ui/src/com/android/tools/sherpa/drawing/decorator/WidgetDecorator.java:1372-1380 | the early-exit scan answers true exactly when some anchor is connected |
| WidgetActions.WithCreator | sherpa-ui/src/com/android/tools/sherpa/drawing/decorator/WidgetDecorator.java:1324-1330 | connected anchors take the new creator; unconnected anchors, types and targets are unchanged |
| WidgetActions.CountsAfterSetCreator | sherpa-ui/src/com/android/tools/sherpa/drawing/decorator/WidgetDecorator.java:1324-1346 | after setting one creator, every connection counts for that creator and none for the other |
| WidgetActions.SetCreatorDecidesVote | sherpa-ui/src/com/android/tools/sherpa/drawing/decorator/WidgetDecorator.java:1324-1351 | after setting USER or AUTO, the vote names that creator, or -1 when nothing is connected |
| WidgetActions.SetConstraintsCreator | sherpa-ui/src/com/android/tools/sherpa/drawing/decorator/WidgetDecorator.java:1324-1330 | the in-place loop changes only the widget's anchors, as WithCreator describes |
| WidgetActions.Updated | sherpa-ui/src/com/android/tools/sherpa/drawing/decorator/WidgetDecorator.java:1278-1432 | update keeps the action on its widget |
| WidgetActions.Update | sherpa-ui/src/com/android/tools/sherpa/drawing/decorator/WidgetDecorator.java:1278-1432 | running each action's update loop gives the refreshed action |
| WidgetActions.VisibleAfterUpdate | sherpa-ui/src/com/android/tools/sherpa/drawing/decorator/WidgetDecorator.java:1278-1437 | after update, Lock and Delete are visible exactly when the widget has a connected anchor, and Toggle exactly when the widget is in a horizontal or vertical chain |
| WidgetActions.ClickLock | sherpa-ui/src/com/android/tools/sherpa/drawing/decorator/WidgetDecorator.java:1314-1322 | the click returns true and writes USER when the cached vote is AUTO, and AUTO otherwise |
| WidgetActions.ClickDeleteConnections | sherpa-ui/src/com/android/tools/sherpa/drawing/decorator/WidgetDecorator.java:1402-1409 | the click returns true, clears the widget's constraints and asks to save that widget |
| WidgetActions.ClickToggleChainStyle | sherpa-ui/src/com/android/tools/sherpa/drawing/decorator/WidgetDecorator.java:1454-1511 | the click returns true, cycles the style of the horizontal head and then the vertical head, and asks to save each head found |
| WidgetActions.Click | sherpa-ui/src/com/android/tools/sherpa/drawing/decorator/WidgetDecorator.java:1314-1511 | every click returns true and has the effect of its action |
| WidgetActions.LockClickFlipsVote | sherpa-ui/src/com/android/tools/sherpa/drawing/decorator/WidgetDecorator.java:1314-1351 | after update, a Lock click hands the vote to the other creator and changes no other widget; with nothing connected it changes nothing |
| WidgetActions.LockTwiceRestoresVote | sherpa-ui/src/com/android/tools/sherpa/drawing/decorator/WidgetDecorator.java:1314-1351 | two updated Lock clicks restore the original vote |
| WidgetActions.DeleteHidesLockAndDelete | sherpa-ui/src/com/android/tools/sherpa/drawing/decorator/WidgetDecorator.java:1372-1409 | after Delete the widget has no connection, and after update both Delete and Lock are hidden |
| WidgetActions.SameKindsSameFind | sherpa-ui/src/com/android/tools/sherpa/drawing/decorator/WidgetDecorator.java:1324-1330 | anchors with the same types are looked up at the same positions |
| WidgetActions.SameKindsWellFormed | sherpa-ui/src/com/android/tools/sherpa/drawing/decorator/WidgetDecorator.java:1324-1330 | rewriting creators or dropping targets keeps a widget well formed |
| WidgetActions.ClickKeepsGraphValid | sherpa-ui/src/com/android/tools/sherpa/drawing/decorator/WidgetDecorator.java:1314-1511 | every click keeps the graph well formed and every chain style valid |
| Decorator.SelectedSides | sherpa-ui/src/com/android/tools/sherpa/drawing/decorator/WidgetDecorator.java:631-650 | a selected widget with handles shows every side when its parent leaves constraints to the editor, and no side otherwise; with handles hidden it shows exactly its connected sides |
| Decorator.UnselectedSides | sherpa-ui/src/com/android/tools/sherpa/drawing/decorator/WidgetDecorator.java:631-650 | an unselected widget shows a side exactly when it is highlighted and the side is connected |
| Decorator.PaintedAnchors | sherpa-ui/src/com/android/tools/sherpa/drawing/decorator/WidgetDecorator.java:613-707 | only the baseline and the four sides are ever drawn |
| Decorator.PaintedAnchorsMeaning | sherpa-ui/src/com/android/tools/sherpa/drawing/decorator/WidgetDecorator.java:613-707 | the baseline is drawn when connected, or while fading in on a selected widget with handles; each side is drawn exactly when the policy shows it |
| Decorator.UnselectedPaintsConnected | sherpa-ui/src/com/android/tools/sherpa/drawing/decorator/WidgetDecorator.java:613-707 | an unselected widget draws its baseline exactly when the baseline is connected; it draws a side exactly when it is highlighted and the side is connected |
| Decorator.SelectedPaintsAll | sherpa-ui/src/com/android/tools/sherpa/drawing/decorator/WidgetDecorator.java:613-707 | a selected widget whose parent leaves constraints to the editor draws all four sides last, and its unconnected baseline once it has begun to fade in |
| Decorator.ConnectedAnchorOn | sherpa-ui/src/com/android/tools/sherpa/drawing/decorator/WidgetDecorator.java:1049-1057 | the result is the target of the selected widget's anchor exactly when that anchor is connected to this widget |
| Decorator.ConstraintOrder | sherpa-ui/src/com/android/tools/sherpa/drawing/decorator/WidgetDecorator.java:727-736 | the list is exactly left, top, right, bottom, preceded by the baseline (and nothing else) exactly when the widget has one whose reveal is done or that is connected |
| Decorator.DrawnLinesMeaning | sherpa-ui/src/com/android/tools/sherpa/drawing/decorator/WidgetDecorator.java:739-775 | each line comes from a listed anchor, goes to its target, which is not GONE, and is soft exactly when the auto-connect engine made it; every such anchor gets a line, and the i-th line belongs to the i-th such anchor in the list's order |
| Decorator.LayoutRowPositions | sherpa-ui/src/com/android/tools/sherpa/drawing/decorator/WidgetDecorator.java:807-822 | the i-th button is the i-th visible action, at x + i * step, on one line |
| Decorator.UpdatedAll | sherpa-ui/src/com/android/tools/sherpa/drawing/decorator/WidgetDecorator.java:815-816 | every action is refreshed in place, in order |
| Decorator.UpdateAndPlace | sherpa-ui/src/com/android/tools/sherpa/drawing/decorator/WidgetDecorator.java:814-822 | the loop refreshes every action and lays out the visible ones |
| Decorator.WidgetDecorator.constructor | sherpa-ui/src/com/android/tools/sherpa/drawing/decorator/WidgetDecorator.java:200-209 | a new decorator has no look and policy {NONE}; its bias timer waits 0 ms and runs 1 s; its baseline timer waits 1 s and runs 1 s; its actions are Delete then Toggle |
| Decorator.WidgetDecorator.SetIsSelected | sherpa-ui/src/com/android/tools/sherpa/drawing/decorator/WidgetDecorator.java:408-423 | selecting sets the SELECTED look and starts both timers; deselecting sets NORMAL and resets both; repeating the current value once a look is set changes nothing |
| Decorator.WidgetDecorator.SetShowResizeHandles | sherpa-ui/src/com/android/tools/sherpa/drawing/decorator/WidgetDecorator.java:439-441 | sets the flag |
| Decorator.WidgetDecorator.SetShowActions | sherpa-ui/src/com/android/tools/sherpa/drawing/decorator/WidgetDecorator.java:448-450 | sets the flag |
| Decorator.WidgetDecorator.SetShowSizeIndicator | sherpa-ui/src/com/android/tools/sherpa/drawing/decorator/WidgetDecorator.java:457-459 | sets the flag |
| Decorator.WidgetDecorator.SetLook | sherpa-ui/src/com/android/tools/sherpa/drawing/decorator/WidgetDecorator.java:477-479 | sets the look |
| Decorator.WidgetDecorator.SetColorSet | sherpa-ui/src/com/android/tools/sherpa/drawing/decorator/WidgetDecorator.java:279-287 | records whether a colour set is present |
| Decorator.WidgetDecorator.UpdateBias | sherpa-ui/src/com/android/tools/sherpa/drawing/decorator/WidgetDecorator.java:270-272 | restarts the bias reveal now |
| Decorator.WidgetDecorator.SetShowPercentIndicator | sherpa-ui/src/com/android/tools/sherpa/drawing/decorator/WidgetDecorator.java:466-470 | turning the indicator on restarts the bias reveal; turning it off changes nothing |
| Decorator.WidgetDecorator.Over | sherpa-ui/src/com/android/tools/sherpa/drawing/decorator/WidgetDecorator.java:510-516 | hovering shows the actions; leaving keeps them; either way the hide timer restarts for 1 s |
| Decorator.WidgetDecorator.ActionOver | sherpa-ui/src/com/android/tools/sherpa/drawing/decorator/WidgetDecorator.java:1236-1248 | hovering an action keeps the actions shown and stops the hide timer |
| Decorator.WidgetDecorator.HideActionsTimer | sherpa-ui/src/com/android/tools/sherpa/drawing/decorator/WidgetDecorator.java:99-102 | once due, the timer hides the actions and does not fire again |
| Decorator.WidgetDecorator.UpdateDisplayAnchorSet | sherpa-ui/src/com/android/tools/sherpa/drawing/decorator/WidgetDecorator.java:1065-1093 | adds exactly the flag naming the anchor's type, and nothing for a missing anchor or one of the other types |
| Decorator.WidgetDecorator.UpdateShowAnchorsPolicy | sherpa-ui/src/com/android/tools/sherpa/drawing/decorator/WidgetDecorator.java:946-966 | the policy becomes {CONNECTED} when handles are hidden; otherwise {ALL, SELECTED} when the parent is a constraint container that does not handle internal constraints, and {NONE} otherwise |
| Decorator.WidgetDecorator.UpdateShowAnchorsPolicyFor | sherpa-ui/src/com/android/tools/sherpa/drawing/decorator/WidgetDecorator.java:974-1039 | the policy becomes {CONNECTED} when the look is HIGHLIGHTED and {NONE} otherwise, whatever the selected widget, selected anchor and show-all flag |
| Decorator.WidgetDecorator.Paint | sherpa-ui/src/com/android/tools/sherpa/drawing/decorator/WidgetDecorator.java:534-566 | without colours nothing changes or is drawn. A selected widget refreshes its policy; an unselected one drops its handles and size indicator. The handles drawn are PaintedAnchors, and another repaint is asked for exactly when isAnimating holds |
| Decorator.WidgetDecorator.PaintConstraints | sherpa-ui/src/com/android/tools/sherpa/drawing/decorator/WidgetDecorator.java:715-779 | a visible widget with colours that is selected or highlighted, or when all constraints are shown, draws the lines of ConstraintOrder and then the BiasLabels of its biases for the bias timer's state; otherwise it draws no line and no label |
| Decorator.WidgetDecorator.PaintActions | sherpa-ui/src/com/android/tools/sherpa/drawing/decorator/WidgetDecorator.java:787-823 | unless a gate closes, every action is updated and the visible ones are placed in a row, ACTION_SIZE plus the anchor size apart, below the widget |
| PercentLabel.FormatPercent | sherpa-ui/src/com/android/tools/sherpa/drawing/decorator/WidgetDecorator.java:916-941 | the label has at least two characters and ends in `%` exactly when the percentage is not 25, 33, 66 or 75, which are written as fractions; `100 - percent` wraps as Java `int` arithmetic does (see LabelsAreComplements and EndLabelWrapsAtIntMin) |
| PercentLabel.EndLabelWrapsAtIntMin | sherpa-ui/src/com/android/tools/sherpa/drawing/decorator/WidgetDecorator.java:929 | at the smallest `int` the end label reads as INT32_MIN + 100 hundredths, and the two labels do not add up to one |
| Animation.AnimationProgress.IsDone | sherpa-ui/src/com/android/tools/sherpa/drawing/decorator/WidgetDecorator.java:152-163 | a started timer is done once more than its duration has passed, and a done timer (with a positive duration) has full progress |
| Animation.AnimationProgress.IsRunning | sherpa-ui/src/com/android/tools/sherpa/drawing/decorator/WidgetDecorator.java:168-170 | while a started timer runs, its progress is the elapsed fraction of the duration |
| WidgetActions.MainCreator | sherpa-ui/src/com/android/tools/sherpa/drawing/decorator/WidgetDecorator.java:1332-1351 | the vote is -1, USER or AUTO, and -1 exactly when no anchor is connected; MainCreatorMeaning gives the full case split |
| WidgetActions.IsVisible | sherpa-ui/src/com/android/tools/sherpa/drawing/decorator/WidgetDecorator.java:1283-1437 | Lock is visible when it has a creator, Delete and Toggle when their flags are set; VisibleAfterUpdate states when update sets them |
| ChainWalk.Predecessor | sherpa-ui/src/com/android/tools/sherpa/drawing/decorator/WidgetDecorator.java:1459-1461 | the widget owning the back-side target, which is inside the graph |
| ChainWalk.ChainHead | sherpa-ui/src/com/android/tools/sherpa/drawing/decorator/WidgetDecorator.java:1455-1472 | the head is a widget of the graph; ChainHeadMeaning characterises it without the walk |
| Decorator.ShowSideAnchor | sherpa-ui/src/com/android/tools/sherpa/drawing/decorator/WidgetDecorator.java:631-650 | a side is shown whenever ALL is set, never under {NONE} alone, and exactly when connected under {CONNECTED} alone |
| Decorator.SelectedPolicy | sherpa-ui/src/com/android/tools/sherpa/drawing/decorator/WidgetDecorator.java:946-966 | the policy is never empty; it holds ALL exactly when handles show and the parent leaves constraints to the editor, and NONE exactly when handles show and it does not |
| Decorator.UnselectedPolicy | sherpa-ui/src/com/android/tools/sherpa/drawing/decorator/WidgetDecorator.java:974-1039 | the policy is {CONNECTED} or {NONE}, and {CONNECTED} exactly when the look is HIGHLIGHTED |
| Decorator.DrawnLines | sherpa-ui/src/com/android/tools/sherpa/drawing/decorator/WidgetDecorator.java:739-775 | at most one line per listed anchor type; DrawnLinesMeaning states which and in what order |
| Decorator.LayoutRow | sherpa-ui/src/com/android/tools/sherpa/drawing/decorator/WidgetDecorator.java:815-822 | at most one button per action; LayoutRowPositions states the positions |
| Decorator.BiasLabels | sherpa-ui/src/com/android/tools/sherpa/drawing/decorator/WidgetDecorator.java:835-903 | the labels paintBias draws once onPaintConstraints reaches it (PaintConstraints adds that gate): nothing while the bias timer is idle; with the timer running, the horizontal pair exactly when left and right are connected, the left not by the auto-connect engine, and the vertical pair exactly when top and bottom are connected |
| Decorator.BiasLabelsAreComplements | sherpa-ui/src/com/android/tools/sherpa/drawing/decorator/WidgetDecorator.java:835-941 | every drawn bias label reads as a value, each drawn pair adds up to one, and the start label of each pair reads as its own axis's percentage within 0.01 (the horizontal pair first) |
| Decorator.WidgetDecorator.IsShowBaseline | sherpa-ui/src/com/android/tools/sherpa/drawing/decorator/WidgetDecorator.java:262-264 | once the baseline reveal is done its progress is full |
| Decorator.WidgetDecorator.IsAnimating | sherpa-ui/src/com/android/tools/sherpa/drawing/decorator/WidgetDecorator.java:342-365 | without colours no repaint is asked for; with colours, moving themes, a running baseline timer or a running bias timer each ask for one; with settled themes and both timers idle none is asked for |
| Decorator.AnimatingWindow | sherpa-ui/src/com/android/tools/sherpa/drawing/decorator/WidgetDecorator.java:342-365 | for any decorator and settled themes, a repaint is asked for exactly when it has colours and either reveal has been started and is at most one second past its start |
| Decorator.SelectionAnimationWindow | sherpa-ui/src/com/android/tools/sherpa/drawing/decorator/WidgetDecorator.java:342-365 | a widget selected at t0, with settled themes, asks for repaints exactly until t0 + 2000, and shows its baseline from then on |
| Decorator.DeselectedAnimation | sherpa-ui/src/com/android/tools/sherpa/drawing/decorator/WidgetDecorator.java:342-365 | a deselected widget asks for repaints only while its themes move, and does not show its baseline |

## Left out

- Drawing is not modelled: Graphics2D calls, colours, alpha, gradients, fonts, strokes, tooltips, icons and icon loading, and the coordinate transform. The paint passes return what they would draw.
- The drawing of the bias labels (their positions, alpha and colours in `paintBias`) is left out. The decision to show each pair and the label texts are modelled in `BiasLabels`, which `PaintConstraints` returns under the gates of `onPaintConstraints`; the float-to-`int` cast of the bias times 100 is not, the percentages are inputs.
- `Decorator.PaintedAnchors`: the source draws a handle only when the widget's `ConstraintHandle` for that anchor exists (:685-705). `ConstraintHandle` is not part of this model, so every handle is taken to exist.
- `PercentLabel.LabelsAreComplements`, `PercentLabel.EndLabelIsComplementBegin` and `Decorator.BiasLabelsAreComplements` hold only where `100 - percent` fits in an `int`; below that the end label wraps (`EndLabelWrapsAtIntMin`).
- `onPaintBackground` and `applyLook` are left out. They only draw or recolour.
- The colour themes are not modelled. `setColorSet` keeps only whether a colour set is present, and the themes' `isAnimating` is an input.
- `repaint` is left out. The `StateModel` save is modelled only as the list of widgets a click asks to save.
- The Swing timer is modelled as a due time (`hideActionsAt`) with an explicit `now`.
- The per-action tooltip state (`mOver`, `mStartVisible`) and `show(delay)` are left out. They only time tooltips, so `showActions()` has no modelled effect.
- The locking animation of a connection (`isLocking`, `getLockingProgress`, :756-767) is left out. `ConstraintHandle` is not part of this model.
- The constraint-solver library is not part of this model. Only the fields listed in `ConstraintModel` are kept.
- `resetAllConstraints` is modelled as clearing the widget's own anchors. Anchors of other widgets that point at it are left alone, and the chain flags keep their stored values.
- `ConstraintModel.FindAnchor`: only the bound is in its contract. The first-match property is in `FindAnchorFirst`, to keep the solver's work small.
- `Animation.AnimationProgress.Progress`: `long` arithmetic and `float` division become unbounded integers and reals. Wrap-around after 2^63 ms and float rounding are not modelled.
- `ChainWalk.FindChainHead` requires the walk to stop, because the source's loop does not terminate on a cycle that is consistent in both directions.
- `WidgetActions.ClickToggleChainStyle` requires every chain style to be 0, 1 or 2, because the source indexes `cycle` with the current style.
- `WidgetActions.Updated`: its contract only keeps the widget. What update computes is stated by `VisibleAfterUpdate` and the Lock lemmas.
- Static toggles `setShowAllConstraints` and `setShowFakeUI` are left out. `isShowAllConstraints` is an argument where it is read.
- `setIsVisible`, `setStyle`, the state-model setter and the repaintable setter are plain field setters that no modelled decision reads.
