/**
 * The widget actions a selected widget offers on the blueprint: lock or
 * unlock its constraints, delete all of its constraints, and toggle the
 * style of the chains it belongs to. Each action is refreshed by `update`
 * before painting, is shown when `isVisible` says so, and changes the
 * constraint graph when clicked.
 */
module WidgetActions {
  import opened Wrappers
  import opened ConstraintModel
  import opened ChainWalk

  /** The closed set of actions; the payload is each action's cached state. */
  datatype WidgetAction =
    | LockAction(widget: WidgetId, constraintsCreator: int)
    | DeleteConnectionsAction(widget: WidgetId, isVisible: bool)
    | ToggleChainStyleAction(widget: WidgetId, isVisible: bool)

  /** Some anchor of the list has a target. */
  predicate HasConnection(anchors: seq<Anchor>)
  {
    exists i :: 0 <= i < |anchors| && anchors[i].IsConnected()
  }

  /** The number of connected anchors whose creator is AUTO (auto == true) or anything else (auto == false). */
  function NumCreated(anchors: seq<Anchor>, auto: bool): nat
  {
    if |anchors| == 0 then 0
    else
      var last := anchors[|anchors| - 1];
      NumCreated(anchors[..|anchors| - 1], auto)
        + (if last.IsConnected() && (last.creator == AUTO_CONSTRAINT_CREATOR) == auto then 1 else 0)
  }

  /** The majority vote of getMainConstraintsCreator, as a value. */
  function MainCreator(anchors: seq<Anchor>): (r: int)
    ensures r == -1 || r == USER_CREATOR || r == AUTO_CONSTRAINT_CREATOR
    ensures r == -1 <==> NumCreated(anchors, true) + NumCreated(anchors, false) == 0
  {
    var numAuto := NumCreated(anchors, true);
    var numUser := NumCreated(anchors, false);
    if numAuto == 0 && numUser == 0 then -1
    else if numUser > numAuto then USER_CREATOR
    else AUTO_CONSTRAINT_CREATOR
  }

  lemma {:induction false} ConnectedIffCounted(anchors: seq<Anchor>)
    ensures HasConnection(anchors) <==> NumCreated(anchors, true) + NumCreated(anchors, false) > 0
    decreases |anchors|
  {
    if |anchors| > 0 {
      var init := anchors[..|anchors| - 1];
      ConnectedIffCounted(init);
      if HasConnection(init) {
        var i :| 0 <= i < |init| && init[i].IsConnected();
        assert anchors[i] == init[i];
      }
      if HasConnection(anchors) && !anchors[|anchors| - 1].IsConnected() {
        var i :| 0 <= i < |anchors| && anchors[i].IsConnected();
        assert init[i] == anchors[i];
      }
    }
  }

  /**
   * The main creator is -1 exactly when no anchor is connected, USER exactly
   * when strictly more connected anchors are user-made than auto-made, and
   * AUTO otherwise, ties included.
   */
  lemma MainCreatorMeaning(anchors: seq<Anchor>)
    ensures MainCreator(anchors) == -1 <==> !HasConnection(anchors)
    ensures MainCreator(anchors) == USER_CREATOR <==> NumCreated(anchors, false) > NumCreated(anchors, true)
    ensures MainCreator(anchors) == AUTO_CONSTRAINT_CREATOR <==>
      HasConnection(anchors) && NumCreated(anchors, false) <= NumCreated(anchors, true)
  {
    ConnectedIffCounted(anchors);
  }

  /** LockWidgetAction.getMainConstraintsCreator: one pass counting the creators of connected anchors. */
  method GetMainConstraintsCreator(anchors: seq<Anchor>) returns (creator: int)
    ensures creator == MainCreator(anchors)
  {
    var numAuto := 0;
    var numUser := 0;
    for i := 0 to |anchors|
      invariant numAuto == NumCreated(anchors[..i], true)
      invariant numUser == NumCreated(anchors[..i], false)
    {
      assert anchors[..i + 1][..i] == anchors[..i];
      var anchor := anchors[i];
      if anchor.IsConnected() {
        if anchor.creator == AUTO_CONSTRAINT_CREATOR {
          numAuto := numAuto + 1;
        } else {
          numUser := numUser + 1;
        }
      }
    }
    assert anchors[..|anchors|] == anchors;
    if numAuto == 0 && numUser == 0 {
      return -1;
    }
    if numUser > numAuto {
      return USER_CREATOR;
    }
    return AUTO_CONSTRAINT_CREATOR;
  }

  /** DeleteConnectionsWidgetAction.update: stop at the first connected anchor. */
  method AnyConnectedAnchor(anchors: seq<Anchor>) returns (visible: bool)
    ensures visible <==> HasConnection(anchors)
  {
    visible := false;
    for i := 0 to |anchors|
      invariant forall j :: 0 <= j < i ==> !anchors[j].IsConnected()
    {
      if anchors[i].IsConnected() {
        visible := true;
        return;
      }
    }
  }

  /** The anchors after setConstraintsCreator: connected anchors take the creator, nothing else changes. */
  function WithCreator(anchors: seq<Anchor>, creator: int): (r: seq<Anchor>)
    ensures |r| == |anchors|
    ensures forall i :: 0 <= i < |r| ==> r[i].kind == anchors[i].kind && r[i].target == anchors[i].target
    ensures forall i :: 0 <= i < |r| ==>
      r[i].creator == if anchors[i].IsConnected() then creator else anchors[i].creator
  {
    seq(|anchors|, i requires 0 <= i < |anchors| =>
      if anchors[i].IsConnected() then anchors[i].(creator := creator) else anchors[i])
  }

  lemma {:induction false} CountsAfterSetCreator(anchors: seq<Anchor>, creator: int)
    requires creator == USER_CREATOR || creator == AUTO_CONSTRAINT_CREATOR
    ensures var auto := creator == AUTO_CONSTRAINT_CREATOR;
      && NumCreated(WithCreator(anchors, creator), auto) == NumCreated(anchors, true) + NumCreated(anchors, false)
      && NumCreated(WithCreator(anchors, creator), !auto) == 0
    decreases |anchors|
  {
    if |anchors| > 0 {
      var n := |anchors|;
      CountsAfterSetCreator(anchors[..n - 1], creator);
      assert WithCreator(anchors, creator)[..n - 1] == WithCreator(anchors[..n - 1], creator);
    }
  }

  /**
   * After setConstraintsCreator with USER or AUTO, the majority vote names
   * that creator, unless nothing is connected.
   */
  lemma SetCreatorDecidesVote(anchors: seq<Anchor>, creator: int)
    requires creator == USER_CREATOR || creator == AUTO_CONSTRAINT_CREATOR
    ensures MainCreator(WithCreator(anchors, creator)) == if HasConnection(anchors) then creator else -1
  {
    CountsAfterSetCreator(anchors, creator);
    ConnectedIffCounted(anchors);
  }

  /** LockWidgetAction.setConstraintsCreator: rewrites, in place, the creator of each connected anchor of `w`. */
  method SetConstraintsCreator(scene: Scene, w: WidgetId, creator: int)
    requires w < |scene.widgets|
    modifies scene
    ensures scene.widgets == old(scene.widgets)[w := old(scene.widgets)[w].(anchors := WithCreator(old(scene.widgets)[w].anchors, creator))]
  {
    ghost var g0 := scene.widgets;
    ghost var anchors0 := scene.widgets[w].anchors;
    var n := |scene.widgets[w].anchors|;
    for i := 0 to n
      invariant |scene.widgets| == |g0|
      invariant scene.widgets == g0[w := g0[w].(anchors := scene.widgets[w].anchors)]
      invariant |scene.widgets[w].anchors| == n
      invariant forall j :: 0 <= j < n ==>
        scene.widgets[w].anchors[j] == if j < i then WithCreator(anchors0, creator)[j] else anchors0[j]
    {
      var anchor := scene.widgets[w].anchors[i];
      if anchor.IsConnected() {
        var widget := scene.widgets[w];
        scene.widgets := scene.widgets[w := widget.(anchors := widget.anchors[i := anchor.(creator := creator)])];
      }
    }
    assert scene.widgets[w].anchors == WithCreator(anchors0, creator);
  }

  /** The action after `update()` against graph `g`. */
  function Updated(a: WidgetAction, g: seq<Widget>): (r: WidgetAction)
    requires a.widget < |g|
    ensures r.widget == a.widget
  {
    match a
    case LockAction(w, _) => LockAction(w, MainCreator(g[w].anchors))
    case DeleteConnectionsAction(w, _) => DeleteConnectionsAction(w, HasConnection(g[w].anchors))
    case ToggleChainStyleAction(w, _) => ToggleChainStyleAction(w, g[w].inVerticalChain || g[w].inHorizontalChain)
  }

  /** `update()`: each action refreshes its cached state from its widget. */
  method Update(a: WidgetAction, g: seq<Widget>) returns (r: WidgetAction)
    requires a.widget < |g|
    ensures r == Updated(a, g)
  {
    match a
    case LockAction(w, _) =>
      var creator := GetMainConstraintsCreator(g[w].anchors);
      r := LockAction(w, creator);
    case DeleteConnectionsAction(w, _) =>
      var visible := AnyConnectedAnchor(g[w].anchors);
      r := DeleteConnectionsAction(w, visible);
    case ToggleChainStyleAction(w, _) =>
      r := ToggleChainStyleAction(w, g[w].inVerticalChain || g[w].inHorizontalChain);
  }

  predicate IsVisible(a: WidgetAction)
  {
    match a
    case LockAction(_, creator) => creator != -1
    case DeleteConnectionsAction(_, visible) => visible
    case ToggleChainStyleAction(_, visible) => visible
  }

  /**
   * After `update()`, Lock and Delete are visible exactly when the widget has
   * a connected anchor, Toggle exactly when the widget is in a chain.
   */
  lemma VisibleAfterUpdate(a: WidgetAction, g: seq<Widget>)
    requires a.widget < |g|
    ensures IsVisible(Updated(a, g)) <==>
      if a.ToggleChainStyleAction? then g[a.widget].inHorizontalChain || g[a.widget].inVerticalChain
      else HasConnection(g[a.widget].anchors)
  {
    MainCreatorMeaning(g[a.widget].anchors);
  }

  /** The creator a Lock click writes: the opposite of the cached vote. */
  function LockTarget(cached: int): int
  {
    if cached == AUTO_CONSTRAINT_CREATOR then USER_CREATOR else AUTO_CONSTRAINT_CREATOR
  }

  /** Whether a Toggle click can run: styles index the cycle table and each walk it makes ends. */
  predicate ToggleCanRun(g: seq<Widget>, w: WidgetId)
  {
    && WellFormed(g) && w < |g| && StylesInRange(g)
    && (g[w].inHorizontalChain ==> WalkStops(g, w, Horizontal))
    && (g[w].inVerticalChain ==> WalkStops(g, w, Vertical))
  }

  /** What the click of an action needs from the graph. */
  predicate CanClick(a: WidgetAction, g: seq<Widget>)
  {
    a.widget < |g| && (a.ToggleChainStyleAction? ==> ToggleCanRun(g, a.widget))
  }

  /** The graph after a click. */
  function ClickEffect(a: WidgetAction, g: seq<Widget>): seq<Widget>
    requires CanClick(a, g)
  {
    match a
    case LockAction(w, cached) =>
      g[w := g[w].(anchors := WithCreator(g[w].anchors, LockTarget(cached)))]
    case DeleteConnectionsAction(w, _) =>
      g[w := g[w].(anchors := ClearTargets(g[w].anchors))]
    case ToggleChainStyleAction(w, _) =>
      ToggledChains(g, w)
  }

  /** The heads toggled by a Toggle click, horizontal first. */
  function ToggledHeads(g: seq<Widget>, w: WidgetId): seq<WidgetId>
    requires ToggleCanRun(g, w)
  {
    var h := if g[w].inHorizontalChain then ChainHead(g, w, Horizontal) else None;
    var g1 := ToggleAxis(g, w, Horizontal);
    WalkIgnoresStyles(g, g1, g[w].parent, w, Vertical, |g|);
    var v := if g1[w].inVerticalChain then ChainHead(g1, w, Vertical) else None;
    (if h.Some? then [h.value] else []) + (if v.Some? then [v.value] else [])
  }

  /** The widgets whose state the click asks the state model to save. */
  function ClickSaves(a: WidgetAction, g: seq<Widget>): seq<WidgetId>
    requires CanClick(a, g)
  {
    match a
    case LockAction(_, _) => []
    case DeleteConnectionsAction(w, _) => [w]
    case ToggleChainStyleAction(w, _) => ToggledHeads(g, w)
  }

  /** LockWidgetAction.click: flip the cached majority creator onto every connected anchor. */
  method ClickLock(scene: Scene, a: WidgetAction) returns (changed: bool)
    requires a.LockAction? && a.widget < |scene.widgets|
    modifies scene
    ensures changed
    ensures scene.widgets == ClickEffect(a, old(scene.widgets))
  {
    if a.constraintsCreator == AUTO_CONSTRAINT_CREATOR {
      SetConstraintsCreator(scene, a.widget, USER_CREATOR);
    } else {
      SetConstraintsCreator(scene, a.widget, AUTO_CONSTRAINT_CREATOR);
    }
    return true;
  }

  /** DeleteConnectionsWidgetAction.click: reset every constraint of the widget, then save it. */
  method ClickDeleteConnections(scene: Scene, a: WidgetAction) returns (changed: bool, saved: seq<WidgetId>)
    requires a.DeleteConnectionsAction? && a.widget < |scene.widgets|
    modifies scene
    ensures changed && saved == [a.widget]
    ensures scene.widgets == ClickEffect(a, old(scene.widgets))
  {
    scene.ResetAllConstraints(a.widget);
    return true, [a.widget];
  }

  /** ToggleChainStyleWidgetAction.click: cycle the horizontal chain's style, then the vertical one's. */
  method ClickToggleChainStyle(scene: Scene, a: WidgetAction) returns (changed: bool, saved: seq<WidgetId>)
    requires a.ToggleChainStyleAction? && ToggleCanRun(scene.widgets, a.widget)
    modifies scene
    ensures changed
    ensures scene.widgets == ClickEffect(a, old(scene.widgets))
    ensures saved == ClickSaves(a, old(scene.widgets))
  {
    var w := a.widget;
    ghost var g0 := scene.widgets;
    saved := [];
    if scene.widgets[w].inHorizontalChain {
      var found := FindChainHead(scene.widgets, w, Horizontal);
      if found.Some? {
        var head := found.value;
        scene.SetHorizontalChainStyle(head, CycleStyle(scene.widgets[head].horizontalChainStyle));
        saved := [head];
      }
    }
    assert scene.widgets == ToggleAxis(g0, w, Horizontal);
    ghost var g1 := scene.widgets;
    WalkIgnoresStyles(g0, g1, g0[w].parent, w, Vertical, |g0|);
    if scene.widgets[w].inVerticalChain {
      var found := FindChainHead(scene.widgets, w, Vertical);
      if found.Some? {
        var head := found.value;
        scene.SetVerticalChainStyle(head, CycleStyle(scene.widgets[head].verticalChainStyle));
        saved := saved + [head];
      }
    }
    return true, saved;
  }

  /** WidgetAction.click, dispatched on the action. */
  method Click(scene: Scene, a: WidgetAction) returns (changed: bool, saved: seq<WidgetId>)
    requires CanClick(a, scene.widgets)
    modifies scene
    ensures changed
    ensures scene.widgets == ClickEffect(a, old(scene.widgets))
    ensures saved == ClickSaves(a, old(scene.widgets))
  {
    match a
    case LockAction(_, _) =>
      changed := ClickLock(scene, a);
      saved := [];
    case DeleteConnectionsAction(_, _) =>
      changed, saved := ClickDeleteConnections(scene, a);
    case ToggleChainStyleAction(_, _) =>
      changed, saved := ClickToggleChainStyle(scene, a);
  }

  /**
   * A Lock click after `update()` hands the majority to the other creator:
   * an AUTO-majority widget becomes USER and a USER-majority one becomes AUTO.
   * With nothing connected the click changes no anchor.
   */
  lemma LockClickFlipsVote(g: seq<Widget>, w: WidgetId)
    requires w < |g|
    ensures var a := Updated(LockAction(w, -1), g);
      var g' := ClickEffect(a, g);
      && |g'| == |g|
      && (forall i :: 0 <= i < |g| && i != w ==> g'[i] == g[i])
      && MainCreator(g'[w].anchors) == (if a.constraintsCreator == -1 then -1 else LockTarget(a.constraintsCreator))
      && (a.constraintsCreator == -1 ==> g' == g)
  {
    var anchors := g[w].anchors;
    var a := Updated(LockAction(w, -1), g);
    MainCreatorMeaning(anchors);
    SetCreatorDecidesVote(anchors, LockTarget(a.constraintsCreator));
    if a.constraintsCreator == -1 {
      assert WithCreator(anchors, LockTarget(a.constraintsCreator)) == anchors;
      assert g[w].(anchors := anchors) == g[w];
    }
  }

  /** Two clicks of an updated Lock action bring back the original majority. */
  lemma LockTwiceRestoresVote(g: seq<Widget>, w: WidgetId)
    requires w < |g|
    ensures var g1 := ClickEffect(Updated(LockAction(w, -1), g), g);
      var g2 := ClickEffect(Updated(LockAction(w, -1), g1), g1);
      MainCreator(g2[w].anchors) == MainCreator(g[w].anchors)
  {
    LockClickFlipsVote(g, w);
    var g1 := ClickEffect(Updated(LockAction(w, -1), g), g);
    LockClickFlipsVote(g1, w);
  }

  /** After a Delete click the widget has no connection, so Lock and Delete both hide. */
  lemma DeleteHidesLockAndDelete(g: seq<Widget>, w: WidgetId)
    requires w < |g|
    ensures var g' := ClickEffect(DeleteConnectionsAction(w, true), g);
      && !HasConnection(g'[w].anchors)
      && !IsVisible(Updated(DeleteConnectionsAction(w, true), g'))
      && !IsVisible(Updated(LockAction(w, -1), g'))
  {
    var g' := ClickEffect(DeleteConnectionsAction(w, true), g);
    VisibleAfterUpdate(DeleteConnectionsAction(w, true), g');
    VisibleAfterUpdate(LockAction(w, -1), g');
  }

  lemma {:induction false} SameKindsSameFind(a: seq<Anchor>, b: seq<Anchor>, kind: AnchorType)
    requires |a| == |b| && forall i :: 0 <= i < |a| ==> a[i].kind == b[i].kind
    ensures FindAnchor(a, kind) == FindAnchor(b, kind)
    decreases |a|
  {
    if |a| > 0 && a[0].kind != kind {
      SameKindsSameFind(a[1..], b[1..], kind);
    }
  }

  /** Anchors with the same types and no new target keep a widget well formed. */
  lemma SameKindsWellFormed(n: nat, w: Widget, anchors: seq<Anchor>)
    requires WidgetWellFormed(n, w)
    requires |anchors| == |w.anchors| && forall i :: 0 <= i < |anchors| ==> anchors[i].kind == w.anchors[i].kind
    requires forall i :: 0 <= i < |anchors| ==> anchors[i].target == w.anchors[i].target || anchors[i].target.None?
    ensures WidgetWellFormed(n, w.(anchors := anchors))
  {
    SameKindsSameFind(anchors, w.anchors, Left);
    SameKindsSameFind(anchors, w.anchors, Top);
    SameKindsSameFind(anchors, w.anchors, Right);
    SameKindsSameFind(anchors, w.anchors, Bottom);
    SameKindsSameFind(anchors, w.anchors, Baseline);
    forall x | x in anchors && x.target.Some? ensures x.target.value.owner < n {
      var i :| 0 <= i < |anchors| && anchors[i] == x;
      assert w.anchors[i] in w.anchors;
    }
  }

  /** Every click keeps the graph well formed and every chain style inside the cycle table. */
  lemma ClickKeepsGraphValid(a: WidgetAction, g: seq<Widget>)
    requires CanClick(a, g) && WellFormed(g) && StylesInRange(g)
    ensures var g' := ClickEffect(a, g);
      |g'| == |g| && WellFormed(g') && StylesInRange(g')
  {
    var g' := ClickEffect(a, g);
    var w := a.widget;
    if a.ToggleChainStyleAction? {
      SameLinksWellFormed(g, g');
    } else {
      assert WidgetWellFormed(|g|, g[w]);
      SameKindsWellFormed(|g|, g[w], g'[w].anchors);
      forall i | 0 <= i < |g'| ensures WidgetWellFormed(|g'|, g'[i]) {
        if i != w {
          assert WidgetWellFormed(|g|, g[i]);
        }
      }
    }
  }
}
