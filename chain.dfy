/**
 * Finding the head of the chain a widget belongs to: walk backwards along
 * the LEFT (horizontal) or TOP (vertical) connections until the
 * predecessor is the start widget's parent, or until the predecessor's
 * RIGHT (BOTTOM) connection points at some other widget. The walk is
 * given a step budget (fuel); the budget of one step per widget is shown
 * to be enough for every walk that stops at all.
 */
module ChainWalk {
  import opened Wrappers
  import opened ConstraintModel

  datatype Axis = Horizontal | Vertical

  /** The anchor that leads to the predecessor in a chain. */
  function BackSide(axis: Axis): AnchorType
  {
    match axis
    case Horizontal => Left
    case Vertical => Top
  }

  /** The predecessor's anchor that points forward again in a consistent chain. */
  function FrontSide(axis: Axis): AnchorType
  {
    match axis
    case Horizontal => Right
    case Vertical => Bottom
  }

  /** The owner of the widget's back-side target, if it is connected. */
  function Predecessor(g: seq<Widget>, t: WidgetId, axis: Axis): (p: Option<WidgetId>)
    requires WellFormed(g) && t < |g|
    ensures p.Some? ==> p.value < |g|
  {
    TargetInArena(g, t, BackSide(axis));
    match TargetOf(g[t], BackSide(axis))
    case Some(r) => Some(r.owner)
    case None => None
  }

  /** The outcome of one turn of the walk's loop. */
  datatype Step = Stop(head: WidgetId) | Fall | Next(w: WidgetId)

  function WalkStep(g: seq<Widget>, parent: Option<WidgetId>, t: WidgetId, axis: Axis): (s: Step)
    requires WellFormed(g) && t < |g|
    ensures s.Next? ==> s.w < |g|
    ensures s.Stop? ==> s.head == t
  {
    var target := Predecessor(g, t, axis);
    if target == parent then Stop(t)
    else if target.None? then Fall
    else
      assert WidgetWellFormed(|g|, g[target.value]);
      match TargetOf(g[target.value], FrontSide(axis))
      case Some(r) => if r.owner != t then Stop(t) else Next(target.value)
      case None => Next(target.value)
  }

  datatype Walk = Found(head: WidgetId) | Lost | Unfinished

  /** The walk from t with at most `fuel` turns of the loop. */
  function HeadWalk(g: seq<Widget>, parent: Option<WidgetId>, t: WidgetId, axis: Axis, fuel: nat): (r: Walk)
    requires WellFormed(g) && t < |g|
    ensures r.Found? ==> r.head < |g|
    decreases fuel
  {
    if fuel == 0 then Unfinished
    else match WalkStep(g, parent, t, axis)
      case Stop(h) => Found(h)
      case Fall => Lost
      case Next(n) => HeadWalk(g, parent, n, axis, fuel - 1)
  }

  /** The source's loop stops for this start widget (see WalkBudgetIsExact). */
  predicate WalkStops(g: seq<Widget>, w: WidgetId, axis: Axis)
    requires WellFormed(g) && w < |g|
  {
    HeadWalk(g, g[w].parent, w, axis, |g|) != Unfinished
  }

  /** The chain head found from w, or None when the walk falls off the chain. */
  function ChainHead(g: seq<Widget>, w: WidgetId, axis: Axis): (h: Option<WidgetId>)
    requires WellFormed(g) && w < |g| && WalkStops(g, w, axis)
    ensures h.Some? ==> h.value < |g|
  {
    match HeadWalk(g, g[w].parent, w, axis, |g|)
    case Found(h) => Some(h)
    case _ => None
  }

  /** The loop of ToggleChainStyleWidgetAction.click for one axis. */
  method FindChainHead(g: seq<Widget>, w: WidgetId, axis: Axis) returns (found: Option<WidgetId>)
    requires WellFormed(g) && w < |g| && WalkStops(g, w, axis)
    ensures found == ChainHead(g, w, axis)
  {
    var parent := g[w].parent;
    var tmp: Option<WidgetId> := Some(w);
    found := None;
    ghost var fuel: nat := |g|;
    ghost var outcome := HeadWalk(g, parent, w, axis, |g|);
    while found.None? && tmp.Some?
      invariant tmp.Some? ==> tmp.value < |g|
      invariant found.None? && tmp.Some? ==> HeadWalk(g, parent, tmp.value, axis, fuel) == outcome
      invariant found.None? && tmp.None? ==> outcome == Lost
      invariant found.Some? ==> outcome == Found(found.value)
      invariant outcome != Unfinished
      decreases fuel, if found.None? then 1 else 0
    {
      var t := tmp.value;
      var target := Predecessor(g, t, axis);
      if target == parent {
        assert WalkStep(g, parent, t, axis) == Stop(t);
        found := Some(t);
        break;
      }
      var targetAnchor: Option<AnchorRef> := None;
      if target.Some? {
        assert WidgetWellFormed(|g|, g[target.value]);
        targetAnchor := TargetOf(g[target.value], FrontSide(axis));
      }
      if targetAnchor.Some? && targetAnchor.value.owner != t {
        assert WalkStep(g, parent, t, axis) == Stop(t);
        found := Some(t);
      } else {
        assert WalkStep(g, parent, t, axis) == if target.None? then Fall else Next(target.value);
        tmp := target;
        fuel := fuel - 1;
      }
    }
  }

  /** The widget reached after k turns of the loop that all continued the walk. */
  function Nth(g: seq<Widget>, parent: Option<WidgetId>, t: WidgetId, axis: Axis, k: nat): (r: Option<WidgetId>)
    requires WellFormed(g) && t < |g|
    ensures r.Some? ==> r.value < |g|
    decreases k
  {
    if k == 0 then Some(t)
    else match WalkStep(g, parent, t, axis)
      case Next(n) => Nth(g, parent, n, axis, k - 1)
      case _ => None
  }

  lemma {:induction false} UnfinishedIffNth(g: seq<Widget>, parent: Option<WidgetId>, t: WidgetId, axis: Axis, f: nat)
    requires WellFormed(g) && t < |g|
    ensures HeadWalk(g, parent, t, axis, f) == Unfinished <==> Nth(g, parent, t, axis, f).Some?
    decreases f
  {
    if f > 0 {
      match WalkStep(g, parent, t, axis)
      case Next(n) => UnfinishedIffNth(g, parent, n, axis, f - 1);
      case _ =>
    }
  }

  lemma {:induction false} NthCompose(g: seq<Widget>, parent: Option<WidgetId>, t: WidgetId, axis: Axis, a: nat, b: nat)
    requires WellFormed(g) && t < |g| && Nth(g, parent, t, axis, a).Some?
    ensures Nth(g, parent, t, axis, a + b) == Nth(g, parent, Nth(g, parent, t, axis, a).value, axis, b)
    decreases a
  {
    if a > 0 {
      match WalkStep(g, parent, t, axis)
      case Next(n) => NthCompose(g, parent, n, axis, a - 1, b);
      case _ =>
    }
  }

  lemma {:induction false} NthPrefix(g: seq<Widget>, parent: Option<WidgetId>, t: WidgetId, axis: Axis, j: nat, k: nat)
    requires WellFormed(g) && t < |g| && k <= j && Nth(g, parent, t, axis, j).Some?
    ensures Nth(g, parent, t, axis, k).Some?
    decreases k
  {
    if k > 0 {
      match WalkStep(g, parent, t, axis)
      case Next(n) => NthPrefix(g, parent, n, axis, j - 1, k - 1);
      case _ =>
    }
  }

  /** Once the walk comes back to a widget it has visited, it goes round forever. */
  lemma {:induction false} WalkCycles(g: seq<Widget>, parent: Option<WidgetId>, t: WidgetId, axis: Axis, i: nat, j: nat, k: nat)
    requires WellFormed(g) && t < |g| && i < j
    requires Nth(g, parent, t, axis, j).Some? && Nth(g, parent, t, axis, i) == Nth(g, parent, t, axis, j)
    ensures Nth(g, parent, t, axis, k).Some?
    decreases k
  {
    if k <= j {
      NthPrefix(g, parent, t, axis, j, k);
    } else {
      NthPrefix(g, parent, t, axis, j, i);
      NthCompose(g, parent, t, axis, j, k - j);
      NthCompose(g, parent, t, axis, i, k - j);
      WalkCycles(g, parent, t, axis, i, j, i + (k - j));
    }
  }

  /** The numbers below m. */
  function RangeSet(m: nat): (r: set<nat>)
    ensures |r| == m
    ensures forall x :: x in r <==> 0 <= x < m
  {
    if m == 0 then {} else RangeSet(m - 1) + {m - 1}
  }

  function Values(s: seq<nat>): set<nat>
  {
    set i | 0 <= i < |s| :: s[i]
  }

  lemma {:induction false} DistinctValuesSize(s: seq<nat>)
    requires forall i, j :: 0 <= i < j < |s| ==> s[i] != s[j]
    ensures |Values(s)| == |s|
  {
    if |s| > 0 {
      var p := s[..|s| - 1];
      DistinctValuesSize(p);
      assert Values(s) == Values(p) + {s[|s| - 1]};
      assert s[|s| - 1] !in Values(p);
    }
  }

  /** Pigeonhole: distinct numbers below m are at most m many. */
  lemma DistinctBounded(s: seq<nat>, m: nat)
    requires forall i, j :: 0 <= i < j < |s| ==> s[i] != s[j]
    requires forall i :: 0 <= i < |s| ==> s[i] < m
    ensures |s| <= m
  {
    DistinctValuesSize(s);
    assert Values(s) <= RangeSet(m);
    SubsetSize(Values(s), RangeSet(m));
  }

  lemma {:induction false} SubsetSize(a: set<nat>, b: set<nat>)
    requires a <= b
    ensures |a| <= |b|
  {
    assert b == a + (b - a);
  }

  /**
   * A walk that has not stopped after one turn per widget never stops:
   * the budget of WalkStops excludes exactly the inputs on which the
   * source's loop runs forever.
   */
  lemma WalkBudgetIsExact(g: seq<Widget>, parent: Option<WidgetId>, t: WidgetId, axis: Axis, f: nat)
    requires WellFormed(g) && t < |g|
    requires HeadWalk(g, parent, t, axis, |g|) == Unfinished
    ensures HeadWalk(g, parent, t, axis, f) == Unfinished
  {
    var n := |g|;
    UnfinishedIffNth(g, parent, t, axis, n);
    forall k | 0 <= k <= n
      ensures Nth(g, parent, t, axis, k).Some?
    {
      NthPrefix(g, parent, t, axis, n, k);
    }
    var s := seq(n + 1, k requires 0 <= k <= n => Nth(g, parent, t, axis, k).value);
    if forall i, j :: 0 <= i < j < |s| ==> s[i] != s[j] {
      DistinctBounded(s, n);
      assert false;
    }
    var i, j :| 0 <= i < j < |s| && s[i] == s[j];
    WalkCycles(g, parent, t, axis, i, j, f);
    UnfinishedIffNth(g, parent, t, axis, f);
  }

  /** The stop test of the walk, read as a property of the widget where it stops. */
  predicate IsChainHead(g: seq<Widget>, parent: Option<WidgetId>, h: WidgetId, axis: Axis)
    requires WellFormed(g) && h < |g|
  {
    var p := Predecessor(g, h, axis);
    p == parent || (p.Some? && TargetOf(g[p.value], FrontSide(axis)).Some?
                    && TargetOf(g[p.value], FrontSide(axis)).value.owner != h)
  }

  lemma {:induction false} WalkOutcome(g: seq<Widget>, parent: Option<WidgetId>, t: WidgetId, axis: Axis, f: nat)
    requires WellFormed(g) && t < |g|
    ensures HeadWalk(g, parent, t, axis, f).Found? ==>
      var h := HeadWalk(g, parent, t, axis, f).head;
      IsChainHead(g, parent, h, axis) && exists k: nat :: k < f && Nth(g, parent, t, axis, k) == Some(h)
    ensures HeadWalk(g, parent, t, axis, f) == Lost ==>
      && parent.Some?
      && exists k: nat :: k < f && Nth(g, parent, t, axis, k).Some? && Predecessor(g, Nth(g, parent, t, axis, k).value, axis).None?
    decreases f
  {
    if f > 0 {
      assert Nth(g, parent, t, axis, 0) == Some(t);
      match WalkStep(g, parent, t, axis)
      case Next(n) =>
        WalkOutcome(g, parent, n, axis, f - 1);
        var r := HeadWalk(g, parent, n, axis, f - 1);
        if r.Found? {
          var k: nat :| k < f - 1 && Nth(g, parent, n, axis, k) == Some(r.head);
          assert Nth(g, parent, t, axis, k + 1) == Some(r.head);
        } else if r == Lost {
          var k: nat :| k < f - 1 && Nth(g, parent, n, axis, k).Some?
            && Predecessor(g, Nth(g, parent, n, axis, k).value, axis).None?;
          assert Nth(g, parent, t, axis, k + 1) == Nth(g, parent, n, axis, k);
        }
      case _ =>
    }
  }

  /**
   * A head found from w is reached from w by following back-side
   * connections and passes the stop test; a walk that finds no head has
   * reached a widget whose back side is not connected while w has a parent.
   */
  lemma ChainHeadMeaning(g: seq<Widget>, w: WidgetId, axis: Axis)
    requires WellFormed(g) && w < |g| && WalkStops(g, w, axis)
    ensures ChainHead(g, w, axis).Some? ==>
      var h := ChainHead(g, w, axis).value;
      IsChainHead(g, g[w].parent, h, axis) && exists k: nat :: Nth(g, g[w].parent, w, axis, k) == Some(h)
    ensures ChainHead(g, w, axis).None? ==>
      && g[w].parent.Some?
      && exists k: nat :: Nth(g, g[w].parent, w, axis, k).Some? && Predecessor(g, Nth(g, g[w].parent, w, axis, k).value, axis).None?
  {
    WalkOutcome(g, g[w].parent, w, axis, |g|);
  }

  /** The fixed table `cycle` indexed by the current style. */
  function CycleStyle(style: int): (r: int)
    requires 0 <= style < 3
    ensures 0 <= r < 3 && r != style
  {
    [CHAIN_SPREAD_INSIDE, CHAIN_PACKED, CHAIN_SPREAD][style]
  }

  /** Three toggles bring a chain back to its style: the table is a 3-cycle. */
  lemma CycleStyleThrice(style: int)
    requires 0 <= style < 3
    ensures CycleStyle(CycleStyle(CycleStyle(style))) == style
  {
  }

  predicate InChain(w: Widget, axis: Axis)
  {
    match axis
    case Horizontal => w.inHorizontalChain
    case Vertical => w.inVerticalChain
  }

  function ChainStyle(w: Widget, axis: Axis): int
  {
    match axis
    case Horizontal => w.horizontalChainStyle
    case Vertical => w.verticalChainStyle
  }

  function WithChainStyle(w: Widget, axis: Axis, style: int): Widget
  {
    match axis
    case Horizontal => w.(horizontalChainStyle := style)
    case Vertical => w.(verticalChainStyle := style)
  }

  /** Every chain style is an index into the cycle table. */
  predicate StylesInRange(g: seq<Widget>)
  {
    forall i :: 0 <= i < |g| ==> 0 <= g[i].horizontalChainStyle < 3 && 0 <= g[i].verticalChainStyle < 3
  }

  /** Two graphs with the same connections and parents, whatever their chain styles. */
  predicate SameLinks(g: seq<Widget>, g': seq<Widget>)
  {
    |g| == |g'| && forall i :: 0 <= i < |g| ==> g'[i].anchors == g[i].anchors && g'[i].parent == g[i].parent
  }

  lemma SameLinksWellFormed(g: seq<Widget>, g': seq<Widget>)
    requires WellFormed(g) && SameLinks(g, g')
    ensures WellFormed(g')
  {
    forall i | 0 <= i < |g'| ensures WidgetWellFormed(|g'|, g'[i]) {
      assert WidgetWellFormed(|g|, g[i]);
    }
  }

  lemma {:induction false} WalkIgnoresStyles(g: seq<Widget>, g': seq<Widget>, parent: Option<WidgetId>, t: WidgetId, axis: Axis, f: nat)
    requires WellFormed(g) && SameLinks(g, g') && t < |g|
    ensures WellFormed(g')
    ensures HeadWalk(g', parent, t, axis, f) == HeadWalk(g, parent, t, axis, f)
    decreases f
  {
    SameLinksWellFormed(g, g');
    assert WalkStep(g', parent, t, axis) == WalkStep(g, parent, t, axis);
    if f > 0 {
      match WalkStep(g, parent, t, axis)
      case Next(n) => WalkIgnoresStyles(g, g', parent, n, axis, f - 1);
      case _ =>
    }
  }

  /** One axis of ToggleChainStyleWidgetAction.click: the head found from w gets the next style. */
  function ToggleAxis(g: seq<Widget>, w: WidgetId, axis: Axis): (r: seq<Widget>)
    requires WellFormed(g) && w < |g| && StylesInRange(g)
    requires InChain(g[w], axis) ==> WalkStops(g, w, axis)
    ensures SameLinks(g, r) && StylesInRange(r)
  {
    if InChain(g[w], axis) then
      match ChainHead(g, w, axis)
      case Some(h) => g[h := WithChainStyle(g[h], axis, CycleStyle(ChainStyle(g[h], axis)))]
      case None => g
    else g
  }

  /**
   * Toggling changes the chain style on the toggled axis of the head found
   * from w, to the next one in the cycle, and nothing else in the graph.
   */
  lemma ToggleChangesOnlyHead(g: seq<Widget>, w: WidgetId, axis: Axis)
    requires WellFormed(g) && w < |g| && StylesInRange(g)
    requires InChain(g[w], axis) ==> WalkStops(g, w, axis)
    ensures var r := ToggleAxis(g, w, axis);
      if InChain(g[w], axis) && ChainHead(g, w, axis).Some? then
        var h := ChainHead(g, w, axis).value;
        && (forall i :: 0 <= i < |g| && i != h ==> r[i] == g[i])
        && ChainStyle(r[h], axis) == CycleStyle(ChainStyle(g[h], axis))
        && r[h] == WithChainStyle(g[h], axis, ChainStyle(r[h], axis))
      else r == g
  {
  }

  /** The whole click: the horizontal chain first, then the vertical one. */
  function ToggledChains(g: seq<Widget>, w: WidgetId): (r: seq<Widget>)
    requires WellFormed(g) && w < |g| && StylesInRange(g)
    requires g[w].inHorizontalChain ==> WalkStops(g, w, Horizontal)
    requires g[w].inVerticalChain ==> WalkStops(g, w, Vertical)
    ensures SameLinks(g, r) && StylesInRange(r)
  {
    var g1 := ToggleAxis(g, w, Horizontal);
    WalkIgnoresStyles(g, g1, g[w].parent, w, Vertical, |g|);
    ToggleAxis(g1, w, Vertical)
  }

  /** Anchors of a widget with only its horizontal sides possibly connected. */
  function SideAnchors(left: Option<AnchorRef>, right: Option<AnchorRef>): seq<Anchor>
  {
    [Anchor(Left, left, USER_CREATOR), Anchor(Top, None, USER_CREATOR),
     Anchor(Right, right, USER_CREATOR), Anchor(Bottom, None, USER_CREATOR),
     Anchor(Baseline, None, USER_CREATOR)]
  }

  /**
   * A container (0) holding the horizontal chain A (1) - B (2) - C (3):
   * A's left side is attached to the container, C's right side too.
   */
  function ExampleChain(): seq<Widget>
  {
    var container := Widget(SideAnchors(None, None), None, true, false, false, Visible, false, false, 0, 0);
    var a := Widget(SideAnchors(Some(AnchorRef(0, Left)), Some(AnchorRef(2, Left))),
                    Some(0), false, false, false, Visible, true, false, CHAIN_SPREAD_INSIDE, 0);
    var b := Widget(SideAnchors(Some(AnchorRef(1, Right)), Some(AnchorRef(3, Left))),
                    Some(0), false, false, false, Visible, true, false, 0, 0);
    var c := Widget(SideAnchors(Some(AnchorRef(2, Right)), Some(AnchorRef(0, Right))),
                    Some(0), false, false, false, Visible, true, false, 0, 0);
    [container, a, b, c]
  }

  lemma SideAnchorsWellFormed(n: nat, w: Widget, left: Option<AnchorRef>, right: Option<AnchorRef>)
    requires w.anchors == SideAnchors(left, right)
    requires w.parent.Some? ==> w.parent.value < n
    requires left.Some? ==> left.value.owner < n
    requires right.Some? ==> right.value.owner < n
    ensures WidgetWellFormed(n, w)
  {
    var s := w.anchors;
    assert FindAnchor(s, Left) == Some(0);
    assert FindAnchor(s[1..], Top) == Some(0);
    assert FindAnchor(s[2..], Right) == Some(0);
    assert FindAnchor(s[3..], Bottom) == Some(0);
    assert FindAnchor(s[4..], Baseline) == Some(0);
    assert FindAnchor(s[3..], Baseline) == Some(1);
    assert FindAnchor(s[2..], Bottom) == Some(1);
    assert FindAnchor(s[2..], Baseline) == Some(2);
    assert FindAnchor(s[1..], Right) == Some(1);
    assert FindAnchor(s[1..], Bottom) == Some(2);
    assert FindAnchor(s[1..], Baseline) == Some(3);
  }

  lemma ExampleChainWellFormed()
    ensures WellFormed(ExampleChain()) && StylesInRange(ExampleChain())
  {
    var g := ExampleChain();
    forall i | 0 <= i < |g| ensures WidgetWellFormed(|g|, g[i]) {
      if i == 0 {
        SideAnchorsWellFormed(4, g[0], None, None);
      } else if i == 1 {
        SideAnchorsWellFormed(4, g[1], Some(AnchorRef(0, Left)), Some(AnchorRef(2, Left)));
      } else if i == 2 {
        SideAnchorsWellFormed(4, g[2], Some(AnchorRef(1, Right)), Some(AnchorRef(3, Left)));
      } else {
        SideAnchorsWellFormed(4, g[3], Some(AnchorRef(2, Right)), Some(AnchorRef(0, Right)));
      }
    }
  }

  /** Walking back from C passes B and stops at A, whose predecessor is the parent. */
  lemma ExampleChainHead()
    ensures WellFormed(ExampleChain())
    ensures WalkStops(ExampleChain(), 3, Horizontal) && ChainHead(ExampleChain(), 3, Horizontal) == Some(1)
    ensures WalkStops(ExampleChain(), 2, Horizontal) && ChainHead(ExampleChain(), 2, Horizontal) == Some(1)
  {
    ExampleChainWellFormed();
    var g := ExampleChain();
    assert WalkStep(g, Some(0), 1, Horizontal) == Stop(1);
    assert WalkStep(g, Some(0), 2, Horizontal) == Next(1);
    assert WalkStep(g, Some(0), 3, Horizontal) == Next(2);
    assert HeadWalk(g, Some(0), 1, Horizontal, 2) == Found(1);
    assert HeadWalk(g, Some(0), 1, Horizontal, 3) == Found(1);
    assert HeadWalk(g, Some(0), 2, Horizontal, 4) == Found(1);
  }

  /** Toggling from C moves A from spread-inside to packed. */
  lemma ExampleChainToggle()
    ensures WellFormed(ExampleChain()) && StylesInRange(ExampleChain())
    ensures ExampleChain()[3].inHorizontalChain && WalkStops(ExampleChain(), 3, Horizontal)
    ensures ToggleAxis(ExampleChain(), 3, Horizontal)[1].horizontalChainStyle == CHAIN_PACKED
  {
    ExampleChainWellFormed();
    ExampleChainHead();
  }
}
