/**
 * The blueprint decorator of one widget: its selection, hover and
 * action-button state, the two reveal timers (baseline and bias), the set
 * of anchor-display flags it recomputes for selected and unselected
 * widgets, and the decisions its paint passes take (which anchor handles,
 * which constraint lines, where the action buttons go). The drawing calls
 * themselves are not modelled; each paint pass returns what it would draw.
 */
module Decorator {
  import opened Wrappers
  import opened ConstraintModel
  import opened Animation
  import opened WidgetActions
  import PercentLabel

  /** ColorTheme.Look: the palette a widget is drawn with. */
  datatype Look = Subdued | Normal | Highlighted | Selected

  /** WidgetDraw.ANCHORS_DISPLAY: the flags of the anchor-display policy. */
  datatype AnchorsDisplay =
    | DisplayNone | DisplayAll | DisplayLeft | DisplayRight | DisplayTop | DisplayBottom
    | DisplayHorizontal | DisplayVertical | DisplayConnected | DisplaySelected | DisplayCenter | DisplayBaseline

  /** Whether each of the four colour themes is still fading; the themes themselves are not modelled. */
  datatype ThemesAnimating = ThemesAnimating(background: bool, frame: bool, text: bool, constraints: bool)
  {
    predicate Any() { background || frame || text || constraints }
  }

  const ACTION_SIZE: int := 22
  const ACTIONS_HIDE_TIMEOUT: int := 1000

  /** The display flag naming an anchor type, for the five types that have one. */
  function DisplayFlag(kind: AnchorType): Option<AnchorsDisplay>
  {
    match kind
    case Left => Some(DisplayLeft)
    case Top => Some(DisplayTop)
    case Right => Some(DisplayRight)
    case Bottom => Some(DisplayBottom)
    case Baseline => Some(DisplayBaseline)
    case _ => None
  }

  /** The widget's parent is a constraint container that leaves its children's constraints to the editor. */
  predicate ParentShowsAnchors(g: seq<Widget>, w: WidgetId)
    requires WellFormed(g) && w < |g|
  {
    assert WidgetWellFormed(|g|, g[w]);
    ParentIsConstraintContainer(g, w) && !g[g[w].parent.value].handlesInternalConstraints
  }

  /** The policy of a selected widget. */
  function SelectedPolicy(parentShowsAnchors: bool, showResizeHandles: bool): (r: set<AnchorsDisplay>)
    ensures r != {}
    ensures DisplayAll in r <==> showResizeHandles && parentShowsAnchors
    ensures DisplayNone in r <==> showResizeHandles && !parentShowsAnchors
  {
    if !showResizeHandles then {DisplayConnected}
    else if parentShowsAnchors then {DisplayAll, DisplaySelected}
    else {DisplayNone}
  }

  /** The policy an unselected widget ends with, whatever the selection around it. */
  function UnselectedPolicy(look: Option<Look>): (r: set<AnchorsDisplay>)
    ensures r == {DisplayConnected} || r == {DisplayNone}
    ensures DisplayConnected in r <==> look == Some(Highlighted)
  {
    if look == Some(Highlighted) then {DisplayConnected} else {DisplayNone}
  }

  /** The paint decision for one side anchor (left, right, top or bottom). */
  predicate ShowSideAnchor(policy: set<AnchorsDisplay>, side: AnchorType, connected: bool)
    requires side == Left || side == Right || side == Top || side == Bottom
    ensures DisplayAll in policy ==> ShowSideAnchor(policy, side, connected)
    ensures policy == {DisplayNone} ==> !ShowSideAnchor(policy, side, connected)
    ensures policy == {DisplayConnected} ==> (ShowSideAnchor(policy, side, connected) <==> connected)
  {
    var axisFlag := if IsVerticalAnchor(side) then DisplayVertical else DisplayHorizontal;
    var shown := DisplayAll in policy || DisplayFlag(side).value in policy || axisFlag in policy;
    shown || (DisplayNone !in policy && connected)
  }

  /**
   * A selected widget with resize handles shows every side when its parent
   * leaves constraints to the editor and no side otherwise; with the handles
   * hidden it shows exactly its connected sides.
   */
  lemma SelectedSides(parentShowsAnchors: bool, showResizeHandles: bool, side: AnchorType, connected: bool)
    requires side == Left || side == Right || side == Top || side == Bottom
    ensures var shown := ShowSideAnchor(SelectedPolicy(parentShowsAnchors, showResizeHandles), side, connected);
      && (!showResizeHandles ==> (shown <==> connected))
      && (showResizeHandles && parentShowsAnchors ==> shown)
      && (showResizeHandles && !parentShowsAnchors ==> !shown)
  {
  }

  /** An unselected widget shows a side exactly when it is highlighted and that side is connected. */
  lemma UnselectedSides(look: Option<Look>, side: AnchorType, connected: bool)
    requires side == Left || side == Right || side == Top || side == Bottom
    ensures ShowSideAnchor(UnselectedPolicy(look), side, connected) <==> look == Some(Highlighted) && connected
  {
  }

  /**
   * The anchor handles onPaintAnchors draws, in drawing order: the baseline
   * first (when connected, or fading in on a selected widget with handles),
   * then left, right, top and bottom as the policy decides.
   */
  function PaintedAnchors(w: Widget, hasColorSet: bool, policy: set<AnchorsDisplay>, isSelected: bool,
                          showResizeHandles: bool, baselineProgress: real): (r: seq<AnchorType>)
    ensures forall i :: 0 <= i < |r| ==> r[i] in {Baseline, Left, Right, Top, Bottom}
  {
    if !hasColorSet || w.visibility == Gone then []
    else
      var baselineConnected := AnchorConnected(w, Baseline);
      var progress := if baselineConnected then 1.0 else baselineProgress;
      var baseline :=
        if w.hasBaseline && (baselineConnected || (isSelected && showResizeHandles)) && progress > 0.0
        then [Baseline] else [];
      baseline
        + (if ShowSideAnchor(policy, Left, AnchorConnected(w, Left)) then [Left] else [])
        + (if ShowSideAnchor(policy, Right, AnchorConnected(w, Right)) then [Right] else [])
        + (if ShowSideAnchor(policy, Top, AnchorConnected(w, Top)) then [Top] else [])
        + (if ShowSideAnchor(policy, Bottom, AnchorConnected(w, Bottom)) then [Bottom] else [])
  }

  /**
   * The drawn handles of a visible widget with colours: the baseline when
   * it is connected or, on a selected widget with handles, has started to
   * fade in; each side exactly when ShowSideAnchor says so.
   */
  lemma PaintedAnchorsMeaning(w: Widget, policy: set<AnchorsDisplay>, isSelected: bool,
                              showResizeHandles: bool, progress: real)
    requires w.visibility != Gone
    ensures var r := PaintedAnchors(w, true, policy, isSelected, showResizeHandles, progress);
      && (Baseline in r <==>
            w.hasBaseline && (AnchorConnected(w, Baseline) || (isSelected && showResizeHandles && progress > 0.0)))
      && (Left in r <==> ShowSideAnchor(policy, Left, AnchorConnected(w, Left)))
      && (Right in r <==> ShowSideAnchor(policy, Right, AnchorConnected(w, Right)))
      && (Top in r <==> ShowSideAnchor(policy, Top, AnchorConnected(w, Top)))
      && (Bottom in r <==> ShowSideAnchor(policy, Bottom, AnchorConnected(w, Bottom)))
  {
  }

  /**
   * On an unselected, visible widget with colours, the drawn handles are the
   * connected baseline and, only when highlighted, the connected sides.
   */
  lemma UnselectedPaintsConnected(w: Widget, look: Option<Look>, showResizeHandles: bool, progress: real)
    requires w.visibility != Gone
    ensures var r := PaintedAnchors(w, true, UnselectedPolicy(look), false, showResizeHandles, progress);
      && (Baseline in r <==> w.hasBaseline && AnchorConnected(w, Baseline))
      && (Left in r <==> look == Some(Highlighted) && AnchorConnected(w, Left))
      && (Right in r <==> look == Some(Highlighted) && AnchorConnected(w, Right))
      && (Top in r <==> look == Some(Highlighted) && AnchorConnected(w, Top))
      && (Bottom in r <==> look == Some(Highlighted) && AnchorConnected(w, Bottom))
  {
    PaintedAnchorsMeaning(w, UnselectedPolicy(look), false, showResizeHandles, progress);
    UnselectedSides(look, Left, AnchorConnected(w, Left));
    UnselectedSides(look, Right, AnchorConnected(w, Right));
    UnselectedSides(look, Top, AnchorConnected(w, Top));
    UnselectedSides(look, Bottom, AnchorConnected(w, Bottom));
  }

  /**
   * On a selected widget whose parent leaves constraints to the editor and
   * whose resize handles show, every side is drawn, and an unconnected
   * baseline is drawn once its reveal has made progress.
   */
  lemma SelectedPaintsAll(w: Widget, progress: real)
    requires w.visibility != Gone
    ensures var r := PaintedAnchors(w, true, SelectedPolicy(true, true), true, true, progress);
      && |r| >= 4 && r[|r| - 4..] == [Left, Right, Top, Bottom]
      && (Baseline in r <==> w.hasBaseline && (AnchorConnected(w, Baseline) || progress > 0.0))
  {
  }

  /**
   * paintBias's gate for the left and right labels: both anchors are
   * connected, the left one not by the auto-connect engine, and the bias
   * timer is running.
   */
  predicate HorizontalBiasShown(w: Widget, biasRunning: bool)
  {
    match (GetAnchor(w, Left), GetAnchor(w, Right))
    case (Some(l), Some(r)) =>
      l.IsConnected() && r.IsConnected() && l.creator != AUTO_CONSTRAINT_CREATOR && biasRunning
    case _ => false
  }

  /** paintBias's gate for the top and bottom labels: both connected and the bias timer running. */
  predicate VerticalBiasShown(w: Widget, biasRunning: bool)
  {
    AnchorConnected(w, Top) && AnchorConnected(w, Bottom) && biasRunning
  }

  /**
   * The labels paintBias draws, in drawing order: start then end side,
   * horizontal pair first. The percentages are the widget's biases times
   * 100, already cast to `int`.
   */
  function BiasLabels(w: Widget, biasRunning: bool, horizontalPercent: int, verticalPercent: int): (r: seq<string>)
    requires PercentLabel.IsInt32(horizontalPercent) && PercentLabel.IsInt32(verticalPercent)
    ensures !biasRunning ==> r == []
    ensures |r| == (if HorizontalBiasShown(w, biasRunning) then 2 else 0)
                 + (if VerticalBiasShown(w, biasRunning) then 2 else 0)
  {
    (if HorizontalBiasShown(w, biasRunning)
     then [PercentLabel.FormatPercent(horizontalPercent, true), PercentLabel.FormatPercent(horizontalPercent, false)]
     else [])
    + (if VerticalBiasShown(w, biasRunning)
       then [PercentLabel.FormatPercent(verticalPercent, true), PercentLabel.FormatPercent(verticalPercent, false)]
       else [])
  }

  /**
   * Every bias label reads as a share, and each drawn pair (start and end
   * side of one axis) adds up to the whole, as long as `100 - percent`
   * does not overflow. The start label of the horizontal pair reads as the
   * horizontal percentage and that of the vertical pair as the vertical one.
   */
  lemma BiasLabelsAreComplements(w: Widget, biasRunning: bool, horizontalPercent: int, verticalPercent: int)
    requires PercentLabel.IsInt32(horizontalPercent) && PercentLabel.IsInt32(100 - horizontalPercent)
    requires PercentLabel.IsInt32(verticalPercent) && PercentLabel.IsInt32(100 - verticalPercent)
    ensures var r := BiasLabels(w, biasRunning, horizontalPercent, verticalPercent);
      && (forall i :: 0 <= i < |r| ==> PercentLabel.LabelValue(r[i]).Some?)
      && (|r| >= 2 ==> PercentLabel.LabelValue(r[0]).value + PercentLabel.LabelValue(r[1]).value == 1.0)
      && (|r| == 4 ==> PercentLabel.LabelValue(r[2]).value + PercentLabel.LabelValue(r[3]).value == 1.0)
      && (HorizontalBiasShown(w, biasRunning) ==>
            -0.01 < PercentLabel.LabelValue(r[0]).value - horizontalPercent as real / 100.0 < 0.01)
      && (VerticalBiasShown(w, biasRunning) ==>
            var k := if HorizontalBiasShown(w, biasRunning) then 2 else 0;
            -0.01 < PercentLabel.LabelValue(r[k]).value - verticalPercent as real / 100.0 < 0.01)
  {
    PercentLabel.LabelsAreComplements(horizontalPercent);
    PercentLabel.LabelsAreComplements(verticalPercent);
    PercentLabel.BeginLabelApproximatesBias(horizontalPercent);
    PercentLabel.BeginLabelApproximatesBias(verticalPercent);
  }

  /** isConnectedAnchor: the anchor of `w` that the `kind` anchor of `selected` is connected to, if any. */
  function ConnectedAnchorOn(g: seq<Widget>, selected: WidgetId, kind: AnchorType, w: WidgetId): (r: Option<AnchorRef>)
    requires selected < |g|
    ensures r.Some? <==> AnchorConnected(g[selected], kind) && TargetOf(g[selected], kind).value.owner == w
    ensures r.Some? ==> r == TargetOf(g[selected], kind) && r.value.owner == w
  {
    match TargetOf(g[selected], kind)
    case Some(t) => if t.owner == w then Some(t) else None
    case None => None
  }

  /** A constraint line of onPaintConstraints: from the anchor of type `kind` to `target`. */
  datatype ConstraintLine = ConstraintLine(kind: AnchorType, target: AnchorRef, soft: bool)

  /** The anchor types whose constraints are drawn, in drawing order. */
  function ConstraintOrder(w: Widget, baselineDone: bool): (r: seq<AnchorType>)
    ensures |r| >= 4 && r[|r| - 4..] == [Left, Top, Right, Bottom]
    ensures Baseline in r <==> w.hasBaseline && (baselineDone || AnchorConnected(w, Baseline))
    ensures |r| == (if Baseline in r then 5 else 4)
    ensures Baseline in r ==> r[0] == Baseline
  {
    (if w.hasBaseline && (baselineDone || AnchorConnected(w, Baseline)) then [Baseline] else [])
      + [Left, Top, Right, Bottom]
  }

  /** The lines drawn for the listed anchor types of widget w. */
  function DrawnLines(g: seq<Widget>, w: WidgetId, kinds: seq<AnchorType>): (r: seq<ConstraintLine>)
    requires WellFormed(g) && w < |g|
    ensures |r| <= |kinds|
  {
    if |kinds| == 0 then []
    else
      var rest := DrawnLines(g, w, kinds[1..]);
      TargetInArena(g, w, kinds[0]);
      match TargetOf(g[w], kinds[0])
      case None => rest
      case Some(t) =>
        if g[t.owner].visibility == Gone then rest
        else [ConstraintLine(kinds[0], t, GetAnchor(g[w], kinds[0]).value.creator == AUTO_CONSTRAINT_CREATOR)] + rest
  }

  /** Drawable: connected to a widget that is not GONE. */
  predicate Drawable(g: seq<Widget>, w: WidgetId, kind: AnchorType)
    requires WellFormed(g) && w < |g|
  {
    TargetInArena(g, w, kind);
    TargetOf(g[w], kind).Some? && g[TargetOf(g[w], kind).value.owner].visibility != Gone
  }

  /** The listed anchor types that are Drawable, in the order of the list. */
  function DrawableKinds(g: seq<Widget>, w: WidgetId, kinds: seq<AnchorType>): seq<AnchorType>
    requires WellFormed(g) && w < |g|
  {
    if |kinds| == 0 then []
    else (if Drawable(g, w, kinds[0]) then [kinds[0]] else []) + DrawableKinds(g, w, kinds[1..])
  }

  /**
   * Each line drawn comes from a listed anchor type, goes to that anchor's
   * target, which is not GONE, and is soft exactly when the connection was
   * made by the auto-connect engine; every such anchor type gets a line, and
   * the lines keep the order of the list: the i-th line belongs to the i-th
   * drawable anchor type.
   */
  lemma {:induction false} DrawnLinesMeaning(g: seq<Widget>, w: WidgetId, kinds: seq<AnchorType>)
    requires WellFormed(g) && w < |g|
    ensures var r := DrawnLines(g, w, kinds);
      && (forall i :: 0 <= i < |r| ==>
            && r[i].kind in kinds && Drawable(g, w, r[i].kind)
            && Some(r[i].target) == TargetOf(g[w], r[i].kind)
            && (r[i].soft <==> GetAnchor(g[w], r[i].kind).value.creator == AUTO_CONSTRAINT_CREATOR))
      && (forall k :: k in kinds && Drawable(g, w, k) ==> exists i :: 0 <= i < |r| && r[i].kind == k)
      && |r| == |DrawableKinds(g, w, kinds)|
      && (forall i :: 0 <= i < |r| ==> r[i].kind == DrawableKinds(g, w, kinds)[i])
    decreases |kinds|
  {
    if |kinds| > 0 {
      DrawnLinesMeaning(g, w, kinds[1..]);
      var r := DrawnLines(g, w, kinds);
      var rest := DrawnLines(g, w, kinds[1..]);
      var d := DrawableKinds(g, w, kinds);
      var drest := DrawableKinds(g, w, kinds[1..]);
      forall i | 0 <= i < |r| ensures r[i].kind == d[i] {
        if Drawable(g, w, kinds[0]) && i > 0 {
          assert r[i] == rest[i - 1] && d[i] == drest[i - 1];
        }
      }
      forall k | k in kinds && Drawable(g, w, k) ensures exists i :: 0 <= i < |r| && r[i].kind == k {
        if k == kinds[0] {
          assert r[0].kind == k;
        } else {
          assert k in kinds[1..];
          var i :| 0 <= i < |rest| && rest[i].kind == k;
          assert r[|r| - |rest| + i] == rest[i];
        }
      }
    }
  }

  /** A widget action placed on the row under the widget. */
  datatype PlacedAction = PlacedAction(action: WidgetAction, x: int, y: int)

  /** The visible actions, in order. */
  function VisibleActions(actions: seq<WidgetAction>): seq<WidgetAction>
  {
    if |actions| == 0 then []
    else (if IsVisible(actions[0]) then [actions[0]] else []) + VisibleActions(actions[1..])
  }

  /** The row of action buttons starting at (x, y), one `step` apart, skipping invisible actions. */
  function LayoutRow(actions: seq<WidgetAction>, x: int, y: int, step: int): (r: seq<PlacedAction>)
    ensures |r| <= |actions|
  {
    if |actions| == 0 then []
    else if IsVisible(actions[0]) then [PlacedAction(actions[0], x, y)] + LayoutRow(actions[1..], x + step, y, step)
    else LayoutRow(actions[1..], x, y, step)
  }

  /** The i-th button of the row is the i-th visible action, at x + i * step on the row's line. */
  lemma {:induction false} LayoutRowPositions(actions: seq<WidgetAction>, x: int, y: int, step: int)
    ensures var r := LayoutRow(actions, x, y, step);
      && |r| == |VisibleActions(actions)|
      && forall i :: 0 <= i < |r| ==>
           r[i].action == VisibleActions(actions)[i] && r[i].x == x + i * step && r[i].y == y
    decreases |actions|
  {
    if |actions| > 0 {
      if IsVisible(actions[0]) {
        LayoutRowPositions(actions[1..], x + step, y, step);
        var r := LayoutRow(actions, x, y, step);
        forall i | 0 <= i < |r|
          ensures r[i].action == VisibleActions(actions)[i] && r[i].x == x + i * step && r[i].y == y
        {
          if i > 0 {
            assert r[i] == LayoutRow(actions[1..], x + step, y, step)[i - 1];
            assert VisibleActions(actions)[i] == VisibleActions(actions[1..])[i - 1];
          }
        }
      } else {
        LayoutRowPositions(actions[1..], x, y, step);
      }
    }
  }

  /** Every action after `update()`. */
  function UpdatedAll(actions: seq<WidgetAction>, g: seq<Widget>): (r: seq<WidgetAction>)
    requires forall i :: 0 <= i < |actions| ==> actions[i].widget < |g|
    ensures |r| == |actions|
    ensures forall i :: 0 <= i < |r| ==> r[i] == Updated(actions[i], g)
  {
    seq(|actions|, i requires 0 <= i < |actions| => Updated(actions[i], g))
  }

  lemma LayoutRowStep(actions: seq<WidgetAction>, i: nat, x: int, y: int, step: int)
    requires i < |actions|
    ensures LayoutRow(actions[i..], x, y, step) ==
      if IsVisible(actions[i]) then [PlacedAction(actions[i], x, y)] + LayoutRow(actions[i + 1..], x + step, y, step)
      else LayoutRow(actions[i + 1..], x, y, step)
  {
    assert actions[i..][1..] == actions[i + 1..];
  }

  /**
   * The loop of onPaintActions: update each action in turn and, when it is
   * visible, place it at x and move x one step right.
   */
  method UpdateAndPlace(actions: seq<WidgetAction>, g: seq<Widget>, left: int, y: int, step: int)
    returns (updated: seq<WidgetAction>, placed: seq<PlacedAction>)
    requires forall i :: 0 <= i < |actions| ==> actions[i].widget < |g|
    ensures updated == UpdatedAll(actions, g)
    ensures placed == LayoutRow(updated, left, y, step)
  {
    ghost var target := UpdatedAll(actions, g);
    updated := actions;
    placed := [];
    var x := left;
    var i := 0;
    while i < |updated|
      invariant 0 <= i <= |updated| == |target|
      invariant forall j :: 0 <= j < |updated| ==> updated[j] == if j < i then target[j] else actions[j]
      invariant LayoutRow(target, left, y, step) == placed + LayoutRow(target[i..], x, y, step)
    {
      var action := Update(updated[i], g);
      assert action == target[i];
      LayoutRowStep(target, i, x, y, step);
      updated := updated[i := action];
      if IsVisible(action) {
        placed := placed + [PlacedAction(action, x, y)];
        x := x + step;
      }
      i := i + 1;
    }
    assert target[i..] == [];
    assert updated == target;
  }

  class WidgetDecorator {
    const widget: WidgetId
    var isSelected: bool
    var showResizeHandles: bool
    var showSizeIndicator: bool
    var showActions: bool
    var over: bool
    var hasColorSet: bool                  // mColorSet != null
    var look: Option<Look>                 // None until a look is set
    var displayAnchorsPolicy: set<AnchorsDisplay>
    var actions: seq<WidgetAction>
    var hideActionsAt: Option<int>         // when the pending hide-actions timer fires
    const showBaseline: AnimationProgress
    const showBias: AnimationProgress

    /** The two timers are distinct, keep the delays and durations set at construction, and the actions act on this widget. */
    ghost predicate Valid()
      reads this, showBaseline, showBias
    {
      && showBaseline != showBias
      && showBaseline.Valid() && showBias.Valid()
      && showBias.delay == 0 && showBias.duration == 1000
      && showBaseline.delay == 1000 && showBaseline.duration == 1000
      && forall i :: 0 <= i < |actions| ==> actions[i].widget == widget
    }

    /** The decorator of a fresh widget: bias shown at once for a second, baseline after a second for a second. */
    constructor (widget: WidgetId)
      ensures Valid() && this.widget == widget
      ensures !isSelected && !showResizeHandles && !showSizeIndicator && !showActions && !over && !hasColorSet
      ensures look == None && displayAnchorsPolicy == {DisplayNone} && hideActionsAt == None
      ensures actions == [DeleteConnectionsAction(widget, false), ToggleChainStyleAction(widget, false)]
      ensures showBaseline.start == 0 && showBias.start == 0
      ensures fresh(showBaseline) && fresh(showBias)
    {
      var bias := new AnimationProgress();
      bias.SetDelay(0);
      bias.SetDuration(1000);
      var baseline := new AnimationProgress();
      baseline.SetDelay(1000);
      baseline.SetDuration(1000);
      this.widget := widget;
      isSelected := false;
      showResizeHandles := false;
      showSizeIndicator := false;
      showActions := false;
      over := false;
      hasColorSet := false;
      look := None;
      displayAnchorsPolicy := {DisplayNone};
      actions := [DeleteConnectionsAction(widget, false), ToggleChainStyleAction(widget, false)];
      hideActionsAt := None;
      showBaseline := baseline;
      showBias := bias;
    }

    /** isShowBaseline: the baseline reveal is over. */
    predicate IsShowBaseline(now: int)
      reads this, showBaseline
      ensures showBaseline.Valid() && showBaseline.duration > 0 && IsShowBaseline(now) ==>
                showBaseline.Progress(now) == 1.0
    {
      showBaseline.IsDone(now)
    }

    /** isAnimating: another repaint is needed. */
    predicate IsAnimating(now: int, themes: ThemesAnimating)
      reads this, showBaseline, showBias
      ensures !hasColorSet ==> !IsAnimating(now, themes)
      ensures hasColorSet && (themes.Any() || showBaseline.IsRunning(now) || showBias.IsRunning(now)) ==>
                IsAnimating(now, themes)
      ensures !themes.Any() && !showBaseline.IsRunning(now) && !showBias.IsRunning(now) ==>
                !IsAnimating(now, themes)
    {
      hasColorSet && (themes.Any() || showBaseline.IsRunning(now) || showBias.IsRunning(now))
    }

    /**
     * setIsSelected: selecting shows the SELECTED look and starts both
     * reveals; deselecting shows the NORMAL look and resets them; repeating
     * the current value once a look is set changes nothing.
     */
    method SetIsSelected(value: bool, now: int)
      requires Valid()
      modifies this`isSelected, this`look, showBaseline`start, showBias`start
      ensures Valid()
      ensures old(isSelected) == value && old(look).Some? ==>
        && isSelected == old(isSelected) && look == old(look)
        && showBaseline.start == old(showBaseline.start) && showBias.start == old(showBias.start)
      ensures !(old(isSelected) == value && old(look).Some?) ==>
        && isSelected == value && look == Some(if value then Selected else Normal)
        && showBaseline.start == (if value then now + 1000 else 0)
        && showBias.start == (if value then now else 0)
    {
      if isSelected == value && look.Some? {
        return;
      }
      isSelected := value;
      if isSelected {
        look := Some(Selected);
        showBaseline.Start(now);
        showBias.Start(now);
      } else {
        look := Some(Normal);
        showBaseline.Reset();
        showBias.Reset();
      }
    }

    method SetShowResizeHandles(value: bool)
      modifies this`showResizeHandles
      ensures showResizeHandles == value
    {
      showResizeHandles := value;
    }

    method SetShowActions(value: bool)
      modifies this`showActions
      ensures showActions == value
    {
      showActions := value;
    }

    method SetShowSizeIndicator(value: bool)
      modifies this`showSizeIndicator
      ensures showSizeIndicator == value
    {
      showSizeIndicator := value;
    }

    method SetLook(value: Look)
      modifies this`look
      ensures look == Some(value)
    {
      look := Some(value);
    }

    /** setColorSet, reduced to whether a colour set is present; the themes it builds are not modelled. */
    method SetColorSet(present: bool)
      modifies this`hasColorSet
      ensures hasColorSet == present
    {
      if hasColorSet == present {
        return;
      }
      hasColorSet := present;
    }

    /** updateBias: a bias value changed, so the bias labels are revealed again from now. */
    method UpdateBias(now: int)
      requires Valid()
      modifies showBias`start
      ensures Valid() && showBias.start == now
    {
      showBias.Start(now);
    }

    /** setShowPercentIndicator: turning the indicator on restarts the bias reveal; turning it off does nothing. */
    method SetShowPercentIndicator(value: bool, now: int)
      requires Valid()
      modifies showBias`start
      ensures Valid()
      ensures showBias.start == if value then now else old(showBias.start)
    {
      if value {
        showBias.Start(now);
      }
    }

    /** over: hovering the widget shows its actions; any hover change restarts the hide timer. */
    method Over(value: bool, now: int)
      modifies this`over, this`showActions, this`hideActionsAt
      ensures over == value
      ensures showActions == (value || old(showActions))
      ensures hideActionsAt == Some(now + ACTIONS_HIDE_TIMEOUT)
    {
      over := value;
      if over {
        showActions := true;
      }
      hideActionsAt := Some(now + ACTIONS_HIDE_TIMEOUT);
    }

    /** WidgetAction.over: hovering an action button keeps the actions shown and stops the hide timer. */
    method ActionOver(value: bool)
      modifies this`showActions, this`hideActionsAt
      ensures value ==> showActions && hideActionsAt == None
      ensures !value ==> showActions == old(showActions) && hideActionsAt == old(hideActionsAt)
    {
      if value {
        showActions := true;
        hideActionsAt := None;
      }
    }

    /** The hide timer, which does not repeat: once due it hides the actions. */
    method HideActionsTimer(now: int)
      modifies this`showActions, this`hideActionsAt
      ensures old(hideActionsAt).Some? && now >= old(hideActionsAt).value ==> !showActions && hideActionsAt == None
      ensures !(old(hideActionsAt).Some? && now >= old(hideActionsAt).value) ==>
        showActions == old(showActions) && hideActionsAt == old(hideActionsAt)
    {
      if hideActionsAt.Some? && now >= hideActionsAt.value {
        showActions := false;
        hideActionsAt := None;
      }
    }

    /** updateDisplayAnchorSet: add the flag naming the type of the given anchor, if any. */
    method UpdateDisplayAnchorSet(anchor: Option<AnchorRef>)
      modifies this`displayAnchorsPolicy
      ensures displayAnchorsPolicy ==
        if anchor.Some? && DisplayFlag(anchor.value.kind).Some?
        then old(displayAnchorsPolicy) + {DisplayFlag(anchor.value.kind).value}
        else old(displayAnchorsPolicy)
    {
      if anchor.None? {
        return;
      }
      match anchor.value.kind
      case Left => displayAnchorsPolicy := displayAnchorsPolicy + {DisplayLeft};
      case Top => displayAnchorsPolicy := displayAnchorsPolicy + {DisplayTop};
      case Right => displayAnchorsPolicy := displayAnchorsPolicy + {DisplayRight};
      case Bottom => displayAnchorsPolicy := displayAnchorsPolicy + {DisplayBottom};
      case Baseline => displayAnchorsPolicy := displayAnchorsPolicy + {DisplayBaseline};
      case _ =>
    }

    /** updateShowAnchorsPolicy() for a selected widget, rebuilt from scratch. */
    method UpdateShowAnchorsPolicy(g: seq<Widget>)
      requires WellFormed(g) && widget < |g|
      modifies this`displayAnchorsPolicy
      ensures displayAnchorsPolicy == SelectedPolicy(ParentShowsAnchors(g, widget), showResizeHandles)
    {
      assert WidgetWellFormed(|g|, g[widget]);
      displayAnchorsPolicy := {};
      displayAnchorsPolicy := displayAnchorsPolicy + {DisplayAll};
      displayAnchorsPolicy := displayAnchorsPolicy + {DisplaySelected};
      var parent := g[widget].parent;
      if parent.Some? && g[parent.value].isContainer {
        if g[parent.value].handlesInternalConstraints {
          displayAnchorsPolicy := {};
          displayAnchorsPolicy := displayAnchorsPolicy + {DisplayNone};
        }
      } else {
        displayAnchorsPolicy := {};
        displayAnchorsPolicy := displayAnchorsPolicy + {DisplayNone};
      }
      if !showResizeHandles {
        displayAnchorsPolicy := {};
        displayAnchorsPolicy := displayAnchorsPolicy + {DisplayConnected};
      }
    }

    /**
     * updateShowAnchorsPolicy(selectedWidget, selectedAnchor) for an
     * unselected widget. Every flag added after the early return is
     * discarded by the final HIGHLIGHTED override, so the policy depends on
     * the look alone.
     */
    method UpdateShowAnchorsPolicyFor(g: seq<Widget>, selectedWidget: Option<WidgetId>,
                                      selectedAnchor: Option<AnchorRef>, showAllConstraints: bool,
                                      connectionAllowed: bool)
      requires WellFormed(g) && widget < |g|
      requires selectedWidget.Some? ==> selectedWidget.value < |g|
      requires selectedAnchor.Some? ==> selectedAnchor.value.owner < |g|
      modifies this`displayAnchorsPolicy
      ensures displayAnchorsPolicy == UnselectedPolicy(look)
    {
      displayAnchorsPolicy := {};
      displayAnchorsPolicy := displayAnchorsPolicy + {DisplayNone};
      if look != Some(Highlighted) {
        return;
      }
      assert WidgetWellFormed(|g|, g[widget]);
      if showAllConstraints {
        match g[widget].parent
        case Some(p) =>
          if g[p].isContainer && !g[p].handlesInternalConstraints {
            displayAnchorsPolicy := displayAnchorsPolicy + {DisplayConnected};
          }
        case None =>
          displayAnchorsPolicy := displayAnchorsPolicy + {DisplayConnected};
      }
      if selectedWidget.Some? {
        var selected := selectedWidget.value;
        if !showAllConstraints {
          displayAnchorsPolicy := {};
          displayAnchorsPolicy := displayAnchorsPolicy + {DisplayNone};
        }
        var left := ConnectedAnchorOn(g, selected, Left, widget);
        var right := ConnectedAnchorOn(g, selected, Right, widget);
        var top := ConnectedAnchorOn(g, selected, Top, widget);
        var bottom := ConnectedAnchorOn(g, selected, Bottom, widget);
        var baseline := ConnectedAnchorOn(g, selected, Baseline, widget);
        UpdateDisplayAnchorSet(left);
        UpdateDisplayAnchorSet(top);
        UpdateDisplayAnchorSet(right);
        UpdateDisplayAnchorSet(bottom);
        UpdateDisplayAnchorSet(baseline);
      }
      if selectedAnchor.Some? && connectionAllowed {
        var anchor := selectedAnchor.value;
        if anchor.kind == Baseline {
          displayAnchorsPolicy := displayAnchorsPolicy + {DisplayBaseline};
        } else if anchor.kind == Center {
          displayAnchorsPolicy := displayAnchorsPolicy + {DisplayVertical};
          displayAnchorsPolicy := displayAnchorsPolicy + {DisplayHorizontal};
          if g[anchor.owner].parent == Some(widget) {
            displayAnchorsPolicy := displayAnchorsPolicy + {DisplayCenter};
          }
        } else if IsVerticalAnchor(anchor.kind) {
          displayAnchorsPolicy := displayAnchorsPolicy + {DisplayVertical};
        } else {
          displayAnchorsPolicy := displayAnchorsPolicy + {DisplayHorizontal};
        }
      }
      if look == Some(Highlighted) {
        displayAnchorsPolicy := {};
        displayAnchorsPolicy := displayAnchorsPolicy + {DisplayConnected};
      }
    }

    /**
     * onPaint: refresh the policy of a selected widget (an unselected one
     * loses its resize handles and size indicator), report the anchor
     * handles drawn, and whether another repaint is needed.
     */
    method Paint(g: seq<Widget>, now: int, themes: ThemesAnimating) returns (again: bool, drawn: seq<AnchorType>)
      requires Valid() && WellFormed(g) && widget < |g|
      modifies this`displayAnchorsPolicy, this`showResizeHandles, this`showSizeIndicator
      ensures !hasColorSet ==> !again && drawn == [] && unchanged(this)
      ensures hasColorSet && isSelected ==>
        && displayAnchorsPolicy == SelectedPolicy(ParentShowsAnchors(g, widget), showResizeHandles)
        && showResizeHandles == old(showResizeHandles) && showSizeIndicator == old(showSizeIndicator)
      ensures hasColorSet && !isSelected ==>
        !showResizeHandles && !showSizeIndicator && displayAnchorsPolicy == old(displayAnchorsPolicy)
      ensures hasColorSet ==> again == IsAnimating(now, themes)
      ensures hasColorSet ==> drawn == PaintedAnchors(g[widget], hasColorSet, displayAnchorsPolicy, isSelected,
                                                       showResizeHandles, showBaseline.Progress(now))
    {
      if !hasColorSet {
        return false, [];
      }
      if isSelected {
        UpdateShowAnchorsPolicy(g);
      } else {
        showResizeHandles := false;
        showSizeIndicator := false;
      }
      drawn := PaintedAnchors(g[widget], hasColorSet, displayAnchorsPolicy, isSelected,
                              showResizeHandles, showBaseline.Progress(now));
      again := IsAnimating(now, themes);
    }

    /**
     * onPaintConstraints: when the widget is selected, highlighted or all
     * constraints are shown, draw the lines of its anchors in the order
     * baseline (once revealed or connected), left, top, right, bottom, and
     * then the bias labels (paintBias). The percentages are the widget's
     * horizontal and vertical biases times 100, cast to `int`.
     */
    method PaintConstraints(g: seq<Widget>, now: int, showAllConstraints: bool,
                            horizontalPercent: int, verticalPercent: int)
      returns (lines: seq<ConstraintLine>, labels: seq<string>)
      requires WellFormed(g) && widget < |g|
      requires PercentLabel.IsInt32(horizontalPercent) && PercentLabel.IsInt32(verticalPercent)
      ensures var drawn := hasColorSet && g[widget].visibility != Gone
                           && (isSelected || showAllConstraints || look == Some(Highlighted));
        && lines == (if drawn then DrawnLines(g, widget, ConstraintOrder(g[widget], IsShowBaseline(now))) else [])
        && labels == (if drawn then BiasLabels(g[widget], showBias.IsRunning(now), horizontalPercent, verticalPercent)
                      else [])
    {
      lines := [];
      labels := [];
      if !hasColorSet || g[widget].visibility == Gone {
        return;
      }
      if isSelected || showAllConstraints || look == Some(Highlighted) {
        var kinds := ConstraintOrder(g[widget], showBaseline.IsDone(now));
        var i := |kinds|;
        while i > 0
          invariant 0 <= i <= |kinds|
          invariant lines == DrawnLines(g, widget, kinds[i..])
        {
          i := i - 1;
          var kind := kinds[i];
          assert kinds[i..][1..] == kinds[i + 1..];
          TargetInArena(g, widget, kind);
          var target := TargetOf(g[widget], kind);
          if target.Some? && g[target.value.owner].visibility != Gone {
            var soft := GetAnchor(g[widget], kind).value.creator == AUTO_CONSTRAINT_CREATOR;
            lines := [ConstraintLine(kind, target.value, soft)] + lines;
          }
        }
        labels := BiasLabels(g[widget], showBias.IsRunning(now), horizontalPercent, verticalPercent);
      }
    }

    /**
     * onPaintActions: on a selected, visible widget with resize handles and
     * actions shown, update every action and place the visible ones left to
     * right below the widget, ACTION_SIZE plus the anchor size apart.
     */
    method PaintActions(g: seq<Widget>, left: int, top: int, height: int, anchorSize: int)
      returns (placed: seq<PlacedAction>)
      requires Valid() && widget < |g|
      modifies this`actions
      ensures Valid()
      ensures var shown := isSelected && hasColorSet && g[widget].visibility != Gone
                           && showResizeHandles && showActions && |old(actions)| > 0;
        && (!shown ==> placed == [] && actions == old(actions))
        && (shown ==>
              actions == UpdatedAll(old(actions), g)
              && placed == LayoutRow(actions, left, top + height + anchorSize + 4, ACTION_SIZE + anchorSize))
    {
      placed := [];
      if !isSelected || !hasColorSet || g[widget].visibility == Gone || !showResizeHandles || !showActions || |actions| == 0 {
        return;
      }
      var y := top + height + anchorSize + 4;
      var updated, row := UpdateAndPlace(actions, g, left, y, ACTION_SIZE + anchorSize);
      actions := updated;
      placed := row;
    }
  }

  /**
   * A widget selected at t0 keeps needing repaints while its reveals run and
   * stops once the baseline reveal is over, 2 seconds later, when its colour
   * themes are settled.
   */
  lemma SelectionAnimationWindow(d: WidgetDecorator, t0: int, t: int, themes: ThemesAnimating)
    requires d.Valid() && d.hasColorSet && !themes.Any() && t0 > 0
    requires d.showBaseline.start == t0 + 1000 && d.showBias.start == t0
    ensures d.IsAnimating(t, themes) <==> t <= t0 + 2000
    ensures d.IsShowBaseline(t) <==> t > t0 + 2000
  {
  }

  /**
   * With settled colour themes, a decorator asks for another repaint
   * exactly while one of its two reveals has been started and has not yet
   * run a full second past its start, whatever state the timers are in.
   */
  lemma AnimatingWindow(d: WidgetDecorator, t: int, themes: ThemesAnimating)
    requires d.Valid() && !themes.Any()
    ensures d.IsAnimating(t, themes) <==>
      && d.hasColorSet
      && ((d.showBaseline.start != 0 && t <= d.showBaseline.start + 1000)
          || (d.showBias.start != 0 && t <= d.showBias.start + 1000))
  {
  }

  /** A deselected widget (both reveals reset) needs repaints only while its colour themes move. */
  lemma DeselectedAnimation(d: WidgetDecorator, t: int, themes: ThemesAnimating)
    requires d.Valid() && d.showBaseline.start == 0 && d.showBias.start == 0
    ensures d.IsAnimating(t, themes) <==> d.hasColorSet && themes.Any()
    ensures !d.IsShowBaseline(t)
  {
  }
}
