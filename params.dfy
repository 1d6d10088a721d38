/**
 * Per-child state of CoordinatorLayout: the child record (frame, measured size,
 * visibility, layout flags) and its `LayoutParams`, with the LayoutParams
 * operations that do not walk the view tree.
 */
module Params {
  import opened Common
  import opened Geometry
  import opened Gravity
  import opened Placement

  /** A view is identified by a handle; handles are compared for identity. */
  type View = nat
  /** A `Behavior` instance is identified by a handle as well. */
  type BehaviorId = nat

  /** `View.NO_ID`. */
  const NoId: int := -1

  datatype Visibility = Visible | Invisible | Gone

  /** `CoordinatorLayout.LayoutParams`. */
  datatype LayoutParams = LayoutParams(
    margins: Margins,
    behavior: Option<BehaviorId>,
    behaviorResolved: bool,
    behaviorTag: Option<int>,
    gravity: Gravity,
    anchorGravity: Gravity,
    keyline: int,
    anchorId: int,
    insetEdge: Edges,
    dodgeInsetEdges: Edges,
    insetOffsetX: int,
    insetOffsetY: int,
    anchorView: Option<View>,
    anchorDirectChild: Option<View>,
    changedAfterNestedScroll: bool,
    lastChildRect: Rect)

  /** A direct child of the container as the engine sees it. */
  datatype Child = Child(
    view: View,
    frame: Rect,
    measuredWidth: int,
    measuredHeight: int,
    visibility: Visibility,
    layoutRequested: bool,
    laidOut: bool,
    lp: LayoutParams)

  /**
   * The hooks of every `Behavior`, as functions of the behavior and its arguments.
   * The base class answers "not handled" to each of them (`BaseHooks`).
   */
  datatype Hooks = Hooks(
    layoutDependsOn: (BehaviorId, View, View) -> bool,
    onDependentViewChanged: (BehaviorId, View, View) -> bool,
    getInsetDodgeRect: (BehaviorId, View) -> Option<Rect>,
    onMeasureChild: (BehaviorId, View) -> bool,
    onLayoutChild: (BehaviorId, View) -> bool)

  const BaseHooks := Hooks((b, c, d) => false, (b, c, d) => false, (b, c) => None,
                           (b, c) => false, (b, c) => false)

  /** A call the engine makes into a behavior, in the order it makes them. */
  datatype HookCall =
    | DependentViewChanged(behavior: BehaviorId, child: View, dependency: View)
    | DependentViewRemoved(behavior: BehaviorId, child: View, dependency: View)
    | AttachedToLayoutParams(behavior: BehaviorId)
    | DetachedFromLayoutParams(behavior: BehaviorId)

  /** The exceptions the engine throws. */
  datatype EngineError =
    | AnchoredToParent
    | AnchorIsDescendant
    | AnchorNotFound
    | AnchorChangedDuringLayout
    | DodgeRectOutsideBounds

  /** `new LayoutParams(width, height)`: nothing anchored, no keyline, no behavior. */
  function NewLayoutParams(m: Margins): (lp: LayoutParams)
    ensures lp.margins == m && lp.behavior.None? && !lp.behaviorResolved
    ensures lp.keyline < 0 && lp.anchorId == NoId && !CheckAnchorChanged(lp)
    ensures lp.gravity == NoGravity && lp.anchorGravity == NoGravity
    ensures lp.insetEdge.IsNone() && lp.dodgeInsetEdges.IsNone()
    ensures lp.insetOffsetX == 0 && lp.insetOffsetY == 0 && lp.lastChildRect == EmptyRect
    ensures !lp.changedAfterNestedScroll
  {
    LayoutParams(m, None, false, None, NoGravity, NoGravity, -1, NoId, NoEdges, NoEdges, 0, 0,
                 None, None, false, EmptyRect)
  }

  /**
   * `checkAnchorChanged`: an anchor id is set but no anchor view is resolved, which
   * is what `setAnchorId` leaves behind until the next measurement.
   */
  predicate CheckAnchorChanged(lp: LayoutParams) {
    lp.anchorView.None? && lp.anchorId != NoId
  }

  /**
   * `setAnchorId`: store the id and drop the resolved anchor; any real id then
   * makes the next layout fail until a measurement resolves it again.
   */
  function SetAnchorId(lp: LayoutParams, id: int): (r: LayoutParams)
    ensures r.anchorId == id && r.anchorView.None? && r.anchorDirectChild.None?
    ensures r == lp.(anchorId := id, anchorView := None, anchorDirectChild := None)
    ensures CheckAnchorChanged(r) <==> id != NoId
  {
    lp.(anchorView := None, anchorDirectChild := None).(anchorId := id)
  }

  /** The new LayoutParams and the behavior callbacks `setBehavior` makes. */
  datatype BehaviorUpdate = BehaviorUpdate(lp: LayoutParams, calls: seq<HookCall>)

  /**
   * `setBehavior`: replacing the behavior detaches the old one, clears the tag,
   * marks the behavior resolved and attaches the new one; setting the same
   * behavior again does nothing.
   */
  function SetBehavior(lp: LayoutParams, b: Option<BehaviorId>): (r: BehaviorUpdate)
    ensures b == lp.behavior ==> r.lp == lp && r.calls == []
    ensures b != lp.behavior ==>
      && r.lp == lp.(behavior := b, behaviorTag := None, behaviorResolved := true)
      && r.calls == (if lp.behavior.Some? then [DetachedFromLayoutParams(lp.behavior.value)] else [])
                    + (if b.Some? then [AttachedToLayoutParams(b.value)] else [])
  {
    if lp.behavior == b then BehaviorUpdate(lp, [])
    else
      var detach := if lp.behavior.Some? then [DetachedFromLayoutParams(lp.behavior.value)] else [];
      var attach := if b.Some? then [AttachedToLayoutParams(b.value)] else [];
      BehaviorUpdate(lp.(behavior := b, behaviorTag := None, behaviorResolved := true), detach + attach)
  }

  /** Setting a behavior twice has the effect of setting it once. */
  lemma SetBehaviorIdempotent(lp: LayoutParams, b: Option<BehaviorId>)
    ensures SetBehavior(SetBehavior(lp, b).lp, b) == BehaviorUpdate(SetBehavior(lp, b).lp, [])
  {
  }

  /** `setChangedAfterNestedScroll` and `resetChangedAfterNestedScroll`. */
  function SetChangedAfterNestedScroll(lp: LayoutParams, changed: bool): (r: LayoutParams)
    ensures r.changedAfterNestedScroll == changed
    ensures r.(changedAfterNestedScroll := lp.changedAfterNestedScroll) == lp
  {
    lp.(changedAfterNestedScroll := changed)
  }

  /**
   * `shouldDodge`: `other` has an inset edge and every one of its inset edges is
   * among the edges this child dodges.
   */
  predicate ShouldDodge(lp: LayoutParams, other: LayoutParams) {
    !other.insetEdge.IsNone() && other.insetEdge.SubsetOf(lp.dodgeInsetEdges)
  }

  /**
   * `dependsOn`: the child whose params are `lp` depends on `dependency` when that
   * is its anchor's direct child, when it must dodge one of its inset edges, or
   * when its behavior says so.
   */
  predicate DependsOn(lp: LayoutParams, view: View, dependency: Child, hooks: Hooks) {
    || lp.anchorDirectChild == Some(dependency.view)
    || ShouldDodge(lp, dependency.lp)
    || (lp.behavior.Some? && hooks.layoutDependsOn(lp.behavior.value, view, dependency.view))
  }

  /** With the base behavior, dependencies come only from anchors and inset edges. */
  lemma BaseDependsOn(lp: LayoutParams, view: View, dependency: Child)
    ensures DependsOn(lp, view, dependency, BaseHooks) <==>
            lp.anchorDirectChild == Some(dependency.view) || ShouldDodge(lp, dependency.lp)
  {
  }

  /**
   * `getChildRect`: a child waiting for layout or GONE has an empty rectangle,
   * any other child its frame (the descendant transform is the identity here).
   */
  function ChildRect(c: Child): (r: Rect)
    ensures c.layoutRequested || c.visibility == Gone ==> r == EmptyRect && r.IsEmpty()
    ensures !c.layoutRequested && c.visibility != Gone ==> r == c.frame
  {
    if c.layoutRequested || c.visibility == Gone then EmptyRect else c.frame
  }

  /** `View.layout(l, t, r, b)`: the new frame, and the child counts as laid out. */
  function LayOut(c: Child, frame: Rect): (r: Child)
    ensures r.frame == frame && r.laidOut && !r.layoutRequested
    ensures r.(frame := c.frame, laidOut := c.laidOut, layoutRequested := c.layoutRequested) == c
  {
    c.(frame := frame, laidOut := true, layoutRequested := false)
  }
}
