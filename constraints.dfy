/**
 * The part of the constraint-solver model (widgets, anchors, connections,
 * chain flags) that the blueprint decorator reads and changes. The solver
 * library itself is not part of this model: widgets live in an arena
 * (a sequence indexed by widget id) and an anchor's target names the
 * owning widget and the anchor's type instead of holding a reference.
 */
module ConstraintModel {
  import opened Wrappers

  type WidgetId = nat

  /** The anchor types of a widget, as the solver names them. */
  datatype AnchorType = Left | Top | Right | Bottom | Baseline | Center | CenterX | CenterY

  /** Connection creators; the solver library defines the values, assumed here. */
  const USER_CREATOR: int := 0
  const AUTO_CONSTRAINT_CREATOR: int := 2

  /** Chain styles; the solver library defines the values, assumed here to be 0, 1 and 2. */
  const CHAIN_SPREAD: int := 0
  const CHAIN_SPREAD_INSIDE: int := 1
  const CHAIN_PACKED: int := 2

  /** An anchor of widget `owner` of type `kind`: the stand-in for a reference to an anchor. */
  datatype AnchorRef = AnchorRef(owner: WidgetId, kind: AnchorType)

  datatype Anchor = Anchor(kind: AnchorType, target: Option<AnchorRef>, creator: int)
  {
    predicate IsConnected() { target.Some? }
  }

  datatype Visibility = Visible | Invisible | Gone

  datatype Widget = Widget(
    anchors: seq<Anchor>,
    parent: Option<WidgetId>,
    isContainer: bool,                 // the widget is a ConstraintWidgetContainer
    handlesInternalConstraints: bool,  // meaningful for containers only
    hasBaseline: bool,
    visibility: Visibility,
    inHorizontalChain: bool,
    inVerticalChain: bool,
    horizontalChainStyle: int,
    verticalChainStyle: int)

  /** Position of the first anchor of the given type (getAnchor), if there is one. */
  function FindAnchor(anchors: seq<Anchor>, kind: AnchorType): (r: Option<nat>)
    ensures r.Some? ==> r.value < |anchors|
  {
    if |anchors| == 0 then None
    else if anchors[0].kind == kind then Some(0)
    else match FindAnchor(anchors[1..], kind)
      case None => None
      case Some(i) => Some(i + 1)
  }

  /** FindAnchor finds the first anchor of the type, and finds nothing only when there is none. */
  lemma {:induction false} FindAnchorFirst(anchors: seq<Anchor>, kind: AnchorType)
    ensures var r := FindAnchor(anchors, kind);
      && (r.Some? ==> anchors[r.value].kind == kind && forall j :: 0 <= j < r.value ==> anchors[j].kind != kind)
      && (r.None? <==> forall j :: 0 <= j < |anchors| ==> anchors[j].kind != kind)
  {
    if |anchors| > 0 && anchors[0].kind != kind {
      FindAnchorFirst(anchors[1..], kind);
      var r := FindAnchor(anchors, kind);
      if r.None? {
        forall j | 0 <= j < |anchors| ensures anchors[j].kind != kind {
          if j > 0 { assert anchors[j] == anchors[1..][j - 1]; }
        }
      }
    }
  }

  function GetAnchor(w: Widget, kind: AnchorType): (r: Option<Anchor>)
  {
    match FindAnchor(w.anchors, kind)
    case Some(i) => Some(w.anchors[i])
    case None => None
  }

  /** `getAnchor(kind)` null-checked, then `getTarget()`. */
  function TargetOf(w: Widget, kind: AnchorType): Option<AnchorRef>
  {
    match GetAnchor(w, kind)
    case Some(a) => a.target
    case None => None
  }

  /** `anchor != null && anchor.isConnected()` for the anchor of the given type. */
  predicate AnchorConnected(w: Widget, kind: AnchorType)
  {
    TargetOf(w, kind).Some?
  }

  /** The solver's orientation test for an anchor type. */
  predicate IsVerticalAnchor(kind: AnchorType)
  {
    kind == Top || kind == Bottom || kind == Baseline || kind == CenterY
  }

  predicate HasAnchor(w: Widget, kind: AnchorType)
  {
    FindAnchor(w.anchors, kind).Some?
  }

  /** Ids inside the arena, and the five anchors every solver widget carries. */
  predicate WidgetWellFormed(n: nat, w: Widget)
  {
    && (w.parent.Some? ==> w.parent.value < n)
    && (forall a :: a in w.anchors && a.target.Some? ==> a.target.value.owner < n)
    && HasAnchor(w, Left) && HasAnchor(w, Top) && HasAnchor(w, Right)
    && HasAnchor(w, Bottom) && HasAnchor(w, Baseline)
  }

  predicate WellFormed(g: seq<Widget>)
  {
    forall i {:trigger WidgetWellFormed(|g|, g[i])} :: 0 <= i < |g| ==> WidgetWellFormed(|g|, g[i])
  }

  lemma TargetInArena(g: seq<Widget>, i: WidgetId, kind: AnchorType)
    requires WellFormed(g) && i < |g|
    ensures TargetOf(g[i], kind).Some? ==> TargetOf(g[i], kind).value.owner < |g|
  {
    assert WidgetWellFormed(|g|, g[i]);
  }

  /** The parent is a constraint container that lays out its children's constraints itself or not. */
  predicate ParentIsConstraintContainer(g: seq<Widget>, w: WidgetId)
    requires WellFormed(g) && w < |g|
  {
    assert WidgetWellFormed(|g|, g[w]);
    g[w].parent.Some? && g[g[w].parent.value].isContainer
  }

  /** Anchors with every target removed: what resetAllConstraints leaves on the widget. */
  function ClearTargets(anchors: seq<Anchor>): (r: seq<Anchor>)
    ensures |r| == |anchors|
    ensures forall i :: 0 <= i < |r| ==>
      && r[i].kind == anchors[i].kind && r[i].creator == anchors[i].creator
      && !r[i].IsConnected()
  {
    seq(|anchors|, i requires 0 <= i < |anchors| => anchors[i].(target := None))
  }

  /**
   * The constraint graph the editor works on. Actions change it in place,
   * as the solver objects are changed in place by the decorator's actions.
   */
  class Scene {
    var widgets: seq<Widget>

    constructor (widgets: seq<Widget>)
      ensures this.widgets == widgets
    {
      this.widgets := widgets;
    }

    /** resetAllConstraints: every anchor of widget `w` loses its target. */
    method ResetAllConstraints(w: WidgetId)
      requires w < |widgets|
      modifies this
      ensures widgets == old(widgets)[w := old(widgets)[w].(anchors := ClearTargets(old(widgets)[w].anchors))]
    {
      widgets := widgets[w := widgets[w].(anchors := ClearTargets(widgets[w].anchors))];
    }

    method SetHorizontalChainStyle(w: WidgetId, style: int)
      requires w < |widgets|
      modifies this
      ensures widgets == old(widgets)[w := old(widgets)[w].(horizontalChainStyle := style)]
    {
      widgets := widgets[w := widgets[w].(horizontalChainStyle := style)];
    }

    method SetVerticalChainStyle(w: WidgetId, style: int)
      requires w < |widgets|
      modifies this
      ensures widgets == old(widgets)[w := old(widgets)[w].(verticalChainStyle := style)]
    {
      widgets := widgets[w := widgets[w].(verticalChainStyle := style)];
    }
  }
}
