/**
 * The CoordinatorLayout engine: dependency graph construction, measurement,
 * layout, and the change pass that re-anchors children, accumulates insets,
 * dodges them and notifies dependents.
 */
module Coordinator {
  import opened Common
  import opened Geometry
  import opened Gravity
  import opened Placement
  import opened Params
  import opened Anchors
  import opened Propagation

  /** The index of the child whose view is `v`, if any. */
  function IndexOfView(cs: seq<Child>, v: View): (r: Option<nat>)
    ensures r.Some? ==> r.value < |cs| && cs[r.value].view == v
    ensures r.None? ==> forall k :: 0 <= k < |cs| ==> cs[k].view != v
  {
    if cs == [] then None
    else if cs[0].view == v then Some(0)
    else match IndexOfView(cs[1..], v)
      case None => None
      case Some(k) => Some(k + 1)
  }

  /**
   * `getDescendantRect`: the frame of any view in the container, which for a
   * direct child is its current frame.
   */
  function DescendantRect(cs: seq<Child>, t: ViewTree, v: View): (r: Rect)
    ensures (exists k :: 0 <= k < |cs| && cs[k].view == v) ==> exists k :: 0 <= k < |cs| && cs[k].view == v && r == cs[k].frame
    ensures (forall k :: 0 <= k < |cs| ==> cs[k].view != v) ==> r == (if v in t.frame then t.frame[v] else EmptyRect)
  {
    match IndexOfView(cs, v)
    case Some(k) => cs[k].frame
    case None => if v in t.frame then t.frame[v] else EmptyRect
  }

  /** Lists with the same views at the same places find a view at the same index. */
  lemma {:induction false} IndexOfSameViews(a: seq<Child>, b: seq<Child>, v: View)
    requires |a| == |b| && forall k :: 0 <= k < |a| ==> a[k].view == b[k].view
    ensures IndexOfView(a, v) == IndexOfView(b, v)
    decreases |a|
  {
    if a != [] {
      IndexOfSameViews(a[1..], b[1..], v);
    }
  }

  /** Moving one child leaves the rectangle of every other child's view where it was. */
  lemma DescendantRectOfOther(cs: seq<Child>, t: ViewTree, k: nat, f: Rect, v: View)
    requires k < |cs| && cs[k].view != v
    ensures DescendantRect(cs[k := cs[k].(frame := f)], t, v) == DescendantRect(cs, t, v)
  {
    IndexOfSameViews(cs[k := cs[k].(frame := f)], cs, v);
  }

  /** Every dependent comes before each of its dependencies. */
  ghost predicate DependentsFirst(order: seq<nat>, edges: set<(nat, nat)>) {
    forall a, b :: 0 <= a < |order| && 0 <= b < |order| && (order[a], order[b]) in edges ==> b < a
  }

  /** Every dependency comes before each of its dependents. */
  ghost predicate DependenciesFirst(order: seq<nat>, edges: set<(nat, nat)>) {
    forall a, b :: 0 <= a < |order| && 0 <= b < |order| && (order[a], order[b]) in edges ==> a < b
  }

  /**
   * Reversing a list that puts dependents first, which is how `prepareChildren`
   * uses the graph's sorted list, puts every dependency before its dependents.
   */
  lemma ReversedOrderPutsDependenciesFirst(order: seq<nat>, edges: set<(nat, nat)>)
    requires DependentsFirst(order, edges)
    ensures DependenciesFirst(Reverse(order), edges)
  {
    var r := Reverse(order);
    var n := |order|;
    forall a, b | 0 <= a < n && 0 <= b < n && (r[a], r[b]) in edges
      ensures a < b
    {
      assert r[a] == order[n - 1 - a] && r[b] == order[n - 1 - b];
    }
  }

  /** What `onMeasure` asks of one child. */
  datatype MeasureRequest = MeasureRequest(view: View, widthUsed: int, byEngine: bool)

  /** What `offsetChildToAnchor` does to a child with a resolved anchor. */
  datatype Reanchor = Reanchor(frame: Rect, changed: bool)

  /**
   * `offsetChildToAnchor` for a child whose anchor's frame is `anchor`: the child
   * moves by the difference between its constrained desired rectangle and its
   * child rectangle, and `changed` compares the UNCONSTRAINED desired position.
   */
  function OffsetToAnchor(box: Box, rtl: bool, c: Child, anchor: Rect): (r: Reanchor)
    ensures var desired := DesiredAnchoredRect(anchor, c.lp.gravity, c.lp.anchorGravity, rtl,
                                               c.measuredWidth, c.measuredHeight);
            r.changed <==> desired.left != ChildRect(c).left || desired.top != ChildRect(c).top
    ensures r.frame.Width() == c.frame.Width() && r.frame.Height() == c.frame.Height()
    ensures ChildRect(c) == c.frame && c.frame.Width() == c.measuredWidth && c.frame.Height() == c.measuredHeight ==>
              r.frame == AnchoredChildRect(box, c.lp.margins, anchor, c.lp.gravity, c.lp.anchorGravity, rtl,
                                           c.measuredWidth, c.measuredHeight)
  {
    var w := c.measuredWidth;
    var h := c.measuredHeight;
    var desired := DesiredAnchoredRect(anchor, c.lp.gravity, c.lp.anchorGravity, rtl, w, h);
    var cr := ChildRect(c);
    var target := ConstrainChildRect(box, c.lp.margins, desired, w, h);
    Reanchor(c.frame.Offset(target.left - cr.left, target.top - cr.top),
             desired.left != cr.left || desired.top != cr.top)
  }

  /**
   * `changed` is decided before the clamp: a child already at its constrained
   * position whose unconstrained position lies outside the content area does not
   * move, yet it still counts as changed (and its behavior is told so).
   */
  lemma ChangedWithoutMoving(box: Box, rtl: bool, c: Child, anchor: Rect)
    requires ChildRect(c) == c.frame
    requires var d := DesiredAnchoredRect(anchor, c.lp.gravity, c.lp.anchorGravity, rtl,
                                          c.measuredWidth, c.measuredHeight);
             && c.frame == ConstrainChildRect(box, c.lp.margins, d, c.measuredWidth, c.measuredHeight)
             && (d.left != c.frame.left || d.top != c.frame.top)
    ensures var r := OffsetToAnchor(box, rtl, c, anchor);
            r.changed && r.frame == c.frame
  {
    assert c.frame.Offset(0, 0) == c.frame;
  }

  /**
   * Such a child exists: a 10x10 child centred (the default) on the top-left
   * corner of a 10x10 anchor wants to sit at (-5, -5), which a container with no
   * padding clamps to (0, 0).
   */
  lemma CenteredOnCorner()
    ensures DesiredAnchoredRect(Rect(0, 0, 10, 10), NoGravity, NoGravity, false, 10, 10) == Rect(-5, -5, 5, 5)
  {
    assert AnchoredChildGravity(NoGravity, false) == Center;
    assert AnchorSideGravity(NoGravity, false) == Gravity(Left, Top);
    assert Div(10, 2) == 5;
  }

  /**
   * Re-anchoring settles: once a laid-out child of its measured size has been
   * moved to its anchor, moving it again leaves it where it is.
   */
  lemma OffsetToAnchorSettles(box: Box, rtl: bool, c: Child, anchor: Rect)
    requires !c.layoutRequested && c.visibility != Gone
    requires c.frame.Width() == c.measuredWidth && c.frame.Height() == c.measuredHeight
    ensures var c1 := c.(frame := OffsetToAnchor(box, rtl, c, anchor).frame);
            OffsetToAnchor(box, rtl, c1, anchor).frame == c1.frame
  {
    var c1 := c.(frame := OffsetToAnchor(box, rtl, c, anchor).frame);
    assert ChildRect(c1) == c1.frame;
  }

  /** A child with new inset offsets, its frame shifted by the difference. */
  function WithInsetOffsets(c: Child, x: int, y: int): (r: Child)
    ensures r.lp.insetOffsetX == x && r.lp.insetOffsetY == y
    ensures r.frame.left - x == c.frame.left - c.lp.insetOffsetX
    ensures r.frame.top - y == c.frame.top - c.lp.insetOffsetY
    ensures r.frame.Width() == c.frame.Width() && r.frame.Height() == c.frame.Height()
  {
    c.(frame := c.frame.Offset(x - c.lp.insetOffsetX, y - c.lp.insetOffsetY),
       lp := c.lp.(insetOffsetX := x, insetOffsetY := y))
  }

  /** Setting the offsets a child already has changes nothing. */
  lemma WithSameInsetOffsets(c: Child)
    ensures WithInsetOffsets(c, c.lp.insetOffsetX, c.lp.insetOffsetY) == c
  {
  }

  /** Setting the offsets twice is setting the second pair once. */
  lemma ComposeInsetOffsets(c: Child, x1: int, y1: int, x2: int, y2: int)
    ensures WithInsetOffsets(WithInsetOffsets(c, x1, y1), x2, y2) == WithInsetOffsets(c, x2, y2)
  {
  }

  /** The dodge rectangle `offsetChildByInset` works with, or the error it throws. */
  datatype DodgeRect = Dodge(rect: Rect) | OutsideBounds

  /**
   * The behavior's inset dodge rectangle when it provides one (it must lie within
   * the child's bounds), otherwise the bounds themselves.
   */
  function DodgeRectOf(hooks: Hooks, c: Child): (r: DodgeRect)
    ensures r.OutsideBounds? <==>
      c.lp.behavior.Some? && hooks.getInsetDodgeRect(c.lp.behavior.value, c.view).Some? &&
      !c.frame.Contains(hooks.getInsetDodgeRect(c.lp.behavior.value, c.view).value)
    ensures r.Dodge? && !c.frame.IsEmpty() ==> c.frame.Contains(r.rect)
  {
    if c.lp.behavior.Some? then
      match hooks.getInsetDodgeRect(c.lp.behavior.value, c.view)
      case Some(d) => if c.frame.Contains(d) then Dodge(d) else OutsideBounds
      case None => Dodge(c.frame)
    else Dodge(c.frame)
  }

  /** The parts of a child that a change pass never touches. */
  function Fixed(c: Child): Child {
    c.(frame := EmptyRect,
       lp := c.lp.(insetOffsetX := 0, insetOffsetY := 0, lastChildRect := EmptyRect,
                   changedAfterNestedScroll := false))
  }

  /** A child with its "changed after nested scroll" flag cleared. */
  function Unflagged(c: Child): Child {
    c.(lp := c.lp.(changedAfterNestedScroll := false))
  }

  /** Two child lists that differ only in what a change pass may touch. */
  predicate SameChildren(a: seq<Child>, b: seq<Child>) {
    |a| == |b| && forall k :: 0 <= k < |a| ==> Fixed(a[k]) == Fixed(b[k])
  }

  /** `b` is `a` with, at most, different "changed after nested scroll" flags. */
  predicate FlagsOnly(a: seq<Child>, b: seq<Child>) {
    |a| == |b| &&
    forall m :: 0 <= m < |a| ==> b[m] == a[m].(lp := a[m].lp.(changedAfterNestedScroll := b[m].lp.changedAfterNestedScroll))
  }

  /** Two child lists with the same recorded child rectangles. */
  predicate SameRecords(a: seq<Child>, b: seq<Child>) {
    |a| == |b| && forall k :: 0 <= k < |a| ==> a[k].lp.lastChildRect == b[k].lp.lastChildRect
  }

  /**
   * One dependent's reaction to a change of `dep`: only a child whose behavior
   * depends on `dep` is affected; it follows the flag protocol of
   * `NotifyDependent`, and the hook call made is the one the reaction names.
   */
  function Notify(hooks: Hooks, c: Child, kind: Event, dep: View): (r: (Child, seq<HookCall>))
    ensures r.0 == c.(lp := c.lp.(changedAfterNestedScroll := r.0.lp.changedAfterNestedScroll))
    ensures !(c.lp.behavior.Some? && hooks.layoutDependsOn(c.lp.behavior.value, c.view, dep)) ==> r == (c, [])
    ensures c.lp.behavior.Some? && hooks.layoutDependsOn(c.lp.behavior.value, c.view, dep) ==>
      var b := c.lp.behavior.value;
      var n := NotifyDependent(kind, c.lp.changedAfterNestedScroll, hooks.onDependentViewChanged(b, c.view, dep));
      && r.0.lp.changedAfterNestedScroll == n.flag
      && (n.reaction == Skipped ==> r.1 == [])
      && (n.reaction == Changed ==> r.1 == [DependentViewChanged(b, c.view, dep)])
      && (n.reaction == Removed ==> r.1 == [DependentViewRemoved(b, c.view, dep)])
  {
    if c.lp.behavior.Some? && hooks.layoutDependsOn(c.lp.behavior.value, c.view, dep) then
      var b := c.lp.behavior.value;
      var n := NotifyDependent(kind, c.lp.changedAfterNestedScroll, hooks.onDependentViewChanged(b, c.view, dep));
      var call := match n.reaction
        case Skipped => []
        case Changed => [DependentViewChanged(b, c.view, dep)]
        case Removed => [DependentViewRemoved(b, c.view, dep)];
      (c.(lp := c.lp.(changedAfterNestedScroll := n.flag)), call)
    else (c, [])
  }

  /** The hook calls made notifying the dependents at positions `lo` up to `hi` of `order`. */
  function Notifications(hooks: Hooks, cs: seq<Child>, order: seq<nat>, lo: nat, hi: nat, kind: Event, dep: View)
    : seq<HookCall>
    requires hi <= |order| && forall k :: 0 <= k < |order| ==> order[k] < |cs|
    decreases hi
  {
    if hi <= lo then []
    else Notifications(hooks, cs, order, lo, hi - 1, kind, dep) + Notify(hooks, cs[order[hi - 1]], kind, dep).1
  }

  /**
   * The notification loop as a value: the children and hook calls after telling
   * the children at positions `lo` up to `hi` of `order`, in order, about `dep`.
   */
  function NotifyRun(hooks: Hooks, cs: seq<Child>, order: seq<nat>, lo: nat, hi: nat, kind: Event, dep: View)
    : (r: (seq<Child>, seq<HookCall>))
    requires lo <= hi <= |order| && forall p :: 0 <= p < |order| ==> order[p] < |cs|
    ensures |r.0| == |cs|
    decreases hi
  {
    if hi == lo then (cs, [])
    else
      var prev := NotifyRun(hooks, cs, order, lo, hi - 1, kind, dep);
      var n := Notify(hooks, prev.0[order[hi - 1]], kind, dep);
      (prev.0[order[hi - 1] := n.0], prev.1 + n.1)
  }

  /** Notifying changes nothing but nested-scroll flags. */
  lemma {:induction false} NotifyRunShape(hooks: Hooks, cs: seq<Child>, order: seq<nat>, lo: nat, hi: nat,
                                          kind: Event, dep: View)
    requires lo <= hi <= |order| && forall p :: 0 <= p < |order| ==> order[p] < |cs|
    ensures FlagsOnly(cs, NotifyRun(hooks, cs, order, lo, hi, kind, dep).0)
    ensures SameChildren(cs, NotifyRun(hooks, cs, order, lo, hi, kind, dep).0)
    ensures SameRecords(cs, NotifyRun(hooks, cs, order, lo, hi, kind, dep).0)
    decreases hi
  {
    if hi > lo {
      NotifyRunShape(hooks, cs, order, lo, hi - 1, kind, dep);
    }
  }

  /**
   * Over distinct positions, the loop tells each child in the range once, about
   * its own original state: those children react as `Notify` says, every other
   * child is untouched, and the calls are exactly `Notifications`.
   */
  lemma {:induction false} NotifyRunEffect(hooks: Hooks, cs: seq<Child>, order: seq<nat>, lo: nat, hi: nat,
                                           kind: Event, dep: View)
    requires lo <= hi <= |order| && Distinct(order) && forall p :: 0 <= p < |order| ==> order[p] < |cs|
    ensures var r := NotifyRun(hooks, cs, order, lo, hi, kind, dep);
      && (forall p :: lo <= p < hi ==> r.0[order[p]] == Notify(hooks, cs[order[p]], kind, dep).0)
      && (forall p :: 0 <= p < |order| && (p < lo || hi <= p) ==> r.0[order[p]] == cs[order[p]])
      && (forall k :: 0 <= k < |cs| && k !in order ==> r.0[k] == cs[k])
      && r.1 == Notifications(hooks, cs, order, lo, hi, kind, dep)
    decreases hi
  {
    if hi > lo {
      NotifyRunEffect(hooks, cs, order, lo, hi - 1, kind, dep);
      var prev := NotifyRun(hooks, cs, order, lo, hi - 1, kind, dep);
      var x := order[hi - 1];
      assert prev.0[x] == cs[x];
      forall p | 0 <= p < |order| && p != hi - 1
        ensures order[p] != x
      {
      }
    }
  }

  /**
   * Only children after the changed one are notified, each about the changed
   * view, and on a removal every one whose behavior depends on it hears of it.
   */
  lemma {:induction false} NotificationsConcernLaterDependents(hooks: Hooks, cs: seq<Child>, order: seq<nat>,
                                                              lo: nat, hi: nat, kind: Event, dep: View)
    requires hi <= |order| && forall k :: 0 <= k < |order| ==> order[k] < |cs|
    ensures forall q :: q in Notifications(hooks, cs, order, lo, hi, kind, dep) ==>
      (q.DependentViewChanged? || q.DependentViewRemoved?) && q.dependency == dep &&
      exists j :: lo <= j < hi && q.child == cs[order[j]].view && Some(q.behavior) == cs[order[j]].lp.behavior
    ensures kind == ViewRemoved ==> forall j :: (lo <= j < hi && cs[order[j]].lp.behavior.Some? &&
      hooks.layoutDependsOn(cs[order[j]].lp.behavior.value, cs[order[j]].view, dep)) ==>
      DependentViewRemoved(cs[order[j]].lp.behavior.value, cs[order[j]].view, dep)
        in Notifications(hooks, cs, order, lo, hi, kind, dep)
    decreases hi
  {
    if lo < hi {
      NotificationsConcernLaterDependents(hooks, cs, order, lo, hi - 1, kind, dep);
    }
  }

  /** Position `j` of `order` holds a child that a pass for `kind` skips (GONE, on pre-draw). */
  predicate SkippedAt(cs: seq<Child>, order: seq<nat>, kind: Event, j: int) {
    0 <= j < |order| && order[j] < |cs| && kind == PreDraw && cs[order[j]].visibility == Gone
  }

  /**
   * What a change pass over `order`, started on children `c0`, has established on
   * reaching position `i` with children `cs`: one visit per position so far (a
   * neutral one for a skipped child), the record of every visited child is its
   * draw rectangle unless the event is a removal, and every other record is
   * untouched.
   */
  ghost predicate PassState(c0: seq<Child>, cs: seq<Child>, order: seq<nat>, kind: Event, i: nat,
                            visits: seq<Contribution>)
  {
    && i <= |order| && |visits| == i && SameChildren(c0, cs) && Distinct(order)
    && (forall p :: 0 <= p < |order| ==> order[p] < |c0|)
    && (forall j :: 0 <= j < i && SkippedAt(c0, order, kind, j) ==> visits[j] == Contribution(NoEdges, EmptyRect))
    && (forall j :: 0 <= j < i && !SkippedAt(c0, order, kind, j) ==>
          && visits[j].edges == c0[order[j]].lp.insetEdge
          && (kind != ViewRemoved ==> cs[order[j]].lp.lastChildRect == visits[j].draw))
    && (forall j :: 0 <= j < |order| && (kind == ViewRemoved || SkippedAt(c0, order, kind, j) || i <= j) ==>
          cs[order[j]].lp.lastChildRect == c0[order[j]].lp.lastChildRect)
    && (forall k :: 0 <= k < |cs| && k !in order ==> cs[k].lp.lastChildRect == c0[k].lp.lastChildRect)
  }

  /**
   * The effect of visiting the child at `k` on the child list: children keep
   * what a pass never touches, other children keep their records, and the
   * child's record becomes `draw` when the visit completed (`ok`) and the event
   * is not a removal, and is otherwise kept.
   */
  ghost predicate Visited(cs: seq<Child>, cs': seq<Child>, k: nat, kind: Event, ok: bool, draw: Rect) {
    && SameChildren(cs, cs') && k < |cs|
    && (forall m :: 0 <= m < |cs'| && m != k ==> cs'[m].lp.lastChildRect == cs[m].lp.lastChildRect)
    && (kind != ViewRemoved && ok ==> cs'[k].lp.lastChildRect == draw)
    && (kind == ViewRemoved || !ok ==> cs'[k].lp.lastChildRect == cs[k].lp.lastChildRect)
  }

  /** A move that keeps every record, followed by a visit, is that visit. */
  lemma MoveThenVisit(cs: seq<Child>, cs1: seq<Child>, cs2: seq<Child>, k: nat, kind: Event, ok: bool, draw: Rect)
    requires SameChildren(cs, cs1) && SameRecords(cs, cs1) && Visited(cs1, cs2, k, kind, ok, draw)
    ensures Visited(cs, cs2, k, kind, ok, draw)
  {
  }

  /** A skipped position adds a neutral visit and changes nothing. */
  lemma PassSkip(c0: seq<Child>, cs: seq<Child>, order: seq<nat>, kind: Event, i: nat, visits: seq<Contribution>)
    requires PassState(c0, cs, order, kind, i, visits) && i < |order|
    requires kind == PreDraw && cs[order[i]].visibility == Gone
    ensures PassState(c0, cs, order, kind, i + 1, visits + [Contribution(NoEdges, EmptyRect)])
  {
    assert Fixed(c0[order[i]]).visibility == Fixed(cs[order[i]]).visibility;
  }

  /** A visit that fails changes no record, so the pass state stands. */
  lemma PassKeep(c0: seq<Child>, cs: seq<Child>, cs': seq<Child>, order: seq<nat>, kind: Event, i: nat,
                 visits: seq<Contribution>, draw: Rect)
    requires PassState(c0, cs, order, kind, i, visits) && i < |order|
    requires Visited(cs, cs', order[i], kind, false, draw)
    ensures PassState(c0, cs', order, kind, i, visits)
  {
  }

  /**
   * A completed visit of position `i` keeps the pass state, adding the child's
   * inset edges and draw rectangle, and the inset grows by them.
   */
  lemma PassVisit(c0: seq<Child>, cs: seq<Child>, cs': seq<Child>, order: seq<nat>, kind: Event, i: nat,
                  visits: seq<Contribution>, draw: Rect, width: int, height: int)
    requires PassState(c0, cs, order, kind, i, visits) && i < |order|
    requires !(kind == PreDraw && cs[order[i]].visibility == Gone)
    requires Visited(cs, cs', order[i], kind, true, draw)
    ensures PassState(c0, cs', order, kind, i + 1, visits + [Contribution(cs[order[i]].lp.insetEdge, draw)])
    ensures InsetOf(visits + [Contribution(cs[order[i]].lp.insetEdge, draw)], width, height) ==
            AccumulateInset(InsetOf(visits, width, height), cs[order[i]].lp.insetEdge, draw, width, height)
  {
    var k := order[i];
    assert Fixed(c0[k]).visibility == Fixed(cs[k]).visibility;
    assert Fixed(c0[k]).lp.insetEdge == Fixed(cs[k]).lp.insetEdge;
    var visits' := visits + [Contribution(cs[k].lp.insetEdge, draw)];
    assert visits'[..i] == visits;
    forall j | 0 <= j < i + 1 && !SkippedAt(c0, order, kind, j)
      ensures visits'[j].edges == c0[order[j]].lp.insetEdge
      ensures kind != ViewRemoved ==> cs'[order[j]].lp.lastChildRect == visits'[j].draw
    {
      if j < i {
        assert order[j] != order[i];
      }
    }
    forall j | 0 <= j < |order| && (kind == ViewRemoved || SkippedAt(c0, order, kind, j) || i + 1 <= j)
      ensures cs'[order[j]].lp.lastChildRect == c0[order[j]].lp.lastChildRect
    {
      if j != i {
        assert order[j] != order[i];
      }
    }
  }

  /**
   * What a finished pass state says: the children keep their views, visibility
   * and inset edges (only positions, offsets and records move); every
   * visited child's record is its draw rectangle unless the event is a removal;
   * records of skipped, unreached and unsorted children are unchanged.
   */
  lemma PassStateMeans(c0: seq<Child>, cs: seq<Child>, order: seq<nat>, kind: Event, i: nat,
                       visits: seq<Contribution>)
    requires PassState(c0, cs, order, kind, i, visits)
    ensures |cs| == |c0|
    ensures forall k :: 0 <= k < |cs| ==>
      cs[k].view == c0[k].view && cs[k].visibility == c0[k].visibility && cs[k].lp.insetEdge == c0[k].lp.insetEdge
    ensures forall j :: 0 <= j < i && !SkippedAt(c0, order, kind, j) && kind != ViewRemoved ==>
      cs[order[j]].lp.lastChildRect == visits[j].draw && visits[j].edges == cs[order[j]].lp.insetEdge
    ensures forall j :: 0 <= j < i && SkippedAt(c0, order, kind, j) ==> visits[j].edges.IsNone()
    ensures forall j :: 0 <= j < |order| && (kind == ViewRemoved || i <= j) ==>
      cs[order[j]].lp.lastChildRect == c0[order[j]].lp.lastChildRect
    ensures forall k :: 0 <= k < |cs| && k !in order ==> cs[k].lp.lastChildRect == c0[k].lp.lastChildRect
  {
  }

  /** The outcome of visiting one child in a change pass. */
  datatype VisitOutcome = VisitOutcome(cs: seq<Child>, err: Option<EngineError>, calls: seq<HookCall>,
                                       inset: Rect, draw: Rect)

  /** The outcome of a change pass, or of its first positions. */
  datatype PassOutcome = PassOutcome(cs: seq<Child>, err: Option<EngineError>, calls: seq<HookCall>,
                                     inset: Rect, visits: seq<Contribution>)

  /** The container. Its children are values; their order and parameters change in place. */
  class CoordinatorLayout {
    /** The children in `getChildAt` order. */
    var children: seq<Child>
    /** `mDependencySortedChildren`, as indices into `children`. */
    var sorted: seq<nat>
    /** The nodes of `mChildDag`, as indices into `children`. */
    var dagNodes: set<nat>
    /** The edges of `mChildDag` as (dependency, dependent) pairs of child indices. */
    var dagEdges: set<(nat, nat)>
    /** `mKeylines`. */
    var keylines: Option<seq<int>>
    /** The container's size and padding. */
    const box: Box
    /** The layout direction is right-to-left. */
    const rtl: bool
    /** `isInEditMode()`. */
    const editMode: bool
    /** The views below the container, for anchor lookup. */
    const tree: ViewTree
    /** The behaviors' hooks. */
    const hooks: Hooks
    /** `GravityCompat.apply(gravity, w, h, container, layoutDirection)`, whose body is not modelled. */
    const applyGravity: (Gravity, int, int, Rect, bool) -> Rect

    ghost predicate Valid()
      reads this
    {
      && WellFormed(tree)
      && (forall k :: 0 <= k < |sorted| ==> sorted[k] < |children|)
      && Distinct(sorted)
    }

    constructor (children0: seq<Child>, box0: Box, rtl0: bool, editMode0: bool, tree0: ViewTree, hooks0: Hooks,
                 applyGravity0: (Gravity, int, int, Rect, bool) -> Rect)
      requires WellFormed(tree0)
      ensures Valid()
      ensures children == children0 && sorted == [] && dagNodes == {} && dagEdges == {} && keylines.None?
      ensures box == box0 && rtl == rtl0 && editMode == editMode0 && tree == tree0 && hooks == hooks0
      ensures applyGravity == applyGravity0
    {
      children := children0;
      sorted := [];
      dagNodes := {};
      dagEdges := {};
      keylines := None;
      box := box0;
      rtl := rtl0;
      editMode := editMode0;
      tree := tree0;
      hooks := hooks0;
      applyGravity := applyGravity0;
    }

    /** `setKeyLines`. */
    method SetKeylines(lines: Option<seq<int>>)
      modifies this`keylines
      ensures keylines == lines
    {
      keylines := lines;
    }

    // -------------------------------------------------------------------
    // prepareChildren

    /** `getResolvedLayoutParams` followed by `findAnchorView`, for child `c`. */
    function Resolved(c: Child): Resolution
      requires WellFormed(tree)
    {
      FindAnchor(tree, editMode, c.lp.(behaviorResolved := true), c.view)
    }

    /** The child at `e` depends on the child at `d`. */
    predicate Depends(cs: seq<Child>, d: nat, e: nat)
      requires d < |cs| && e < |cs|
    {
      DependsOn(cs[e].lp, cs[e].view, cs[d], hooks)
    }

    /**
     * The graph holds what the loop of `prepareChildren` adds for the children
     * before position `n`: each of them as a node, every child one of them
     * depends on as a node, and an edge (d, e) exactly when e is before `n`,
     * d != e and child e depends on child d.
     */
    ghost predicate GraphOver(cs: seq<Child>, nodes: set<nat>, edges: set<(nat, nat)>, n: nat) {
      && (forall k: nat :: k in nodes <==>
            k < |cs| && (k < n || exists e :: 0 <= e < n && e < |cs| && k != e && Depends(cs, k, e)))
      && (forall d: nat, e: nat :: (d, e) in edges <==> e < n && e < |cs| && d < |cs| && d != e && Depends(cs, d, e))
    }

    /**
     * `prepareChildren`. `dagOrder` is what the graph's `getSortedList` returns,
     * which is a permutation of the children. On success every child's params are
     * resolved, every child is a node, there is an edge (d, e) exactly when
     * d != e and child e depends on child d, and the sorted list is the reverse of
     * `dagOrder`. A failing anchor resolution aborts with the children before it
     * (and itself) resolved, the sorted list cleared, and the graph as the
     * children before it built it.
     */
    method PrepareChildren(dagOrder: seq<nat>) returns (err: Option<EngineError>)
      requires Valid()
      requires |dagOrder| == |children| && Distinct(dagOrder)
      requires forall k :: 0 <= k < |dagOrder| ==> dagOrder[k] < |children|
      modifies this`children, this`sorted, this`dagNodes, this`dagEdges
      ensures Valid()
      ensures |children| == |old(children)|
      ensures err.None? ==>
        && (forall k :: 0 <= k < |children| ==>
              Resolved(old(children[k])).err.None? && children[k] == old(children[k]).(lp := Resolved(old(children[k])).lp))
        && (forall k: nat :: k in dagNodes <==> k < |children|)
        && (forall d: nat, e: nat :: (d, e) in dagEdges <==>
              d < |children| && e < |children| && d != e && Depends(children, d, e))
        && sorted == Reverse(dagOrder)
      ensures err.Some? ==> sorted == [] && exists i :: (
        && 0 <= i < |children| && Resolved(old(children[i])).err == err
        && (forall k :: 0 <= k < i ==> Resolved(old(children[k])).err.None?)
        && (forall k :: 0 <= k < |children| ==>
              children[k] == if k <= i then old(children[k]).(lp := Resolved(old(children[k])).lp) else old(children[k]))
        && GraphOver(children, dagNodes, dagEdges, i))
    {
      sorted := [];
      dagNodes := {};
      dagEdges := {};
      var n := |children|;
      var i := 0;
      while i < n
        invariant 0 <= i <= n && |children| == n && sorted == []
        invariant forall k :: 0 <= k < n ==>
          children[k] == if k < i then old(children[k]).(lp := Resolved(old(children[k])).lp) else old(children[k])
        invariant forall k :: 0 <= k < i ==> Resolved(old(children[k])).err.None?
        invariant GraphOver(children, dagNodes, dagEdges, i)
      {
        var e := AddChild(i);
        if e.Some? {
          return e;
        }
        i := i + 1;
      }
      sorted := Reverse(dagOrder);
      err := None;
    }

    /**
     * One turn of the loop of `prepareChildren`: child `i` is resolved; unless
     * that fails, it becomes a node and gains its dependency edges.
     */
    method AddChild(i: nat) returns (err: Option<EngineError>)
      requires WellFormed(tree) && i < |children| && GraphOver(children, dagNodes, dagEdges, i)
      modifies this`children, this`dagNodes, this`dagEdges
      ensures children == old(children)[i := old(children[i]).(lp := Resolved(old(children[i])).lp)]
      ensures err == Resolved(old(children[i])).err
      ensures GraphOver(children, dagNodes, dagEdges, if err.Some? then i else i + 1)
    {
      ghost var before := children;
      err := ResolveChild(i);
      assert forall d: nat, e: nat :: d < |children| && e < i ==> (Depends(before, d, e) <==> Depends(children, d, e));
      if err.None? {
        dagNodes := dagNodes + {i};
        AddDependencies(i);
      }
    }

    /**
     * The first step of the loop of `prepareChildren`: the params of child `i`
     * become resolved (behavior and anchor), or the anchor error is returned
     * with the params as far as resolution got.
     */
    method ResolveChild(i: nat) returns (err: Option<EngineError>)
      requires WellFormed(tree) && i < |children|
      modifies this`children
      ensures children == old(children)[i := old(children[i]).(lp := Resolved(old(children[i])).lp)]
      ensures err == Resolved(old(children[i])).err
    {
      var lp, e := FindAnchorView(tree, editMode, children[i].lp.(behaviorResolved := true), children[i].view);
      children := children[i := children[i].(lp := lp)];
      err := e;
    }

    /**
     * The inner loop of `prepareChildren`: for every other child that the child
     * at `i` depends on, that child becomes a node (if it is not one yet) and an
     * edge leads from it to `i`. Nothing else is added.
     */
    method AddDependencies(i: nat)
      requires i < |children| && forall k :: k in dagNodes ==> k < |children|
      modifies this`dagNodes, this`dagEdges
      ensures old(dagNodes) <= dagNodes && forall k :: k in dagNodes ==> k < |children|
      ensures forall k: nat :: k in dagNodes <==>
        k in old(dagNodes) || (k < |children| && k != i && Depends(children, k, i))
      ensures forall d: nat, e: nat :: (d, e) in dagEdges <==>
        (d, e) in old(dagEdges) || (e == i && d < |children| && d != i && Depends(children, d, i))
    {
      var n := |children|;
      var j := 0;
      while j < n
        invariant 0 <= j <= n
        invariant old(dagNodes) <= dagNodes && forall k :: k in dagNodes ==> k < n
        invariant forall k: nat :: k in dagNodes <==> k in old(dagNodes) || (k < j && k != i && Depends(children, k, i))
        invariant forall d: nat, e: nat :: (d, e) in dagEdges <==>
          (d, e) in old(dagEdges) || (e == i && d < j && d != i && Depends(children, d, i))
      {
        if j != i && DependsOn(children[i].lp, children[i].view, children[j], hooks) {
          if j !in dagNodes {
            dagNodes := dagNodes + {j};
          }
          dagEdges := dagEdges + {(j, i)};
        }
        j := j + 1;
      }
    }

    // -------------------------------------------------------------------
    // onMeasure

    /** The width a child needs: its measured width, its margins and the container's padding. */
    function WidthNeeded(c: Child): int {
      box.paddingLeft + box.paddingRight + c.measuredWidth + c.lp.margins.left + c.lp.margins.right
    }

    /** The height a child needs, likewise. */
    function HeightNeeded(c: Child): int {
      box.paddingTop + box.paddingBottom + c.measuredHeight + c.lp.margins.top + c.lp.margins.bottom
    }

    /** Position `j` of the sorted list holds a child that measure and layout visit (it is not GONE). */
    predicate InPass(j: int)
      reads this
    {
      0 <= j < |sorted| && sorted[j] < |children| && children[sorted[j]].visibility != Gone
    }

    /**
     * How `onMeasure` measures child `c`: with the width its keyline reserves, and
     * by the engine's own `onMeasureChild` unless the behavior measured it.
     */
    function Request(c: Child, widthMode: MeasureMode, widthSize: int): MeasureRequest
      reads this`keylines
    {
      MeasureRequest(c.view, KeylineWidthUsed(keylines, c.lp.keyline, c.lp.gravity, rtl, widthMode, widthSize, box),
                     !(c.lp.behavior.Some? && hooks.onMeasureChild(c.lp.behavior.value, c.view)))
    }

    /**
     * The requests the loop of `onMeasure` makes over the first `n` positions of
     * the sorted list: one per child that is not GONE, in sorted order.
     */
    function MeasureRequests(n: nat, widthMode: MeasureMode, widthSize: int): (r: seq<MeasureRequest>)
      requires n <= |sorted|
      reads this
      ensures |r| <= n
    {
      if n == 0 then []
      else MeasureRequests(n - 1, widthMode, widthSize) +
             (if InPass(n - 1) then [Request(children[sorted[n - 1]], widthMode, widthSize)] else [])
    }

    /** Every child that is not GONE is requested, and nothing else is. */
    lemma {:induction false} MeasureRequestsMembers(n: nat, widthMode: MeasureMode, widthSize: int)
      requires n <= |sorted|
      ensures forall j :: 0 <= j < n && InPass(j) ==>
        Request(children[sorted[j]], widthMode, widthSize) in MeasureRequests(n, widthMode, widthSize)
      ensures forall q :: q in MeasureRequests(n, widthMode, widthSize) ==>
        exists j :: 0 <= j < n && InPass(j) && q == Request(children[sorted[j]], widthMode, widthSize)
    {
      if n > 0 {
        MeasureRequestsMembers(n - 1, widthMode, widthSize);
      }
    }

    /** When no child is GONE, request `j` is the one for the child at sorted position `j`. */
    lemma {:induction false} MeasureRequestsInOrder(n: nat, widthMode: MeasureMode, widthSize: int)
      requires n <= |sorted|
      requires forall j :: 0 <= j < n ==> InPass(j)
      ensures var r := MeasureRequests(n, widthMode, widthSize);
        && |r| == n
        && forall j :: 0 <= j < n ==> InPass(j) && r[j] == Request(children[sorted[j]], widthMode, widthSize)
    {
      if n > 0 {
        MeasureRequestsInOrder(n - 1, widthMode, widthSize);
      }
    }

    /** The width the loop of `onMeasure` has reached after the first `n` sorted positions, starting from `least`. */
    function WidthUsedOver(n: nat, least: int): int
      requires n <= |sorted|
      reads this
    {
      if n == 0 then least
      else if InPass(n - 1) then Max(WidthUsedOver(n - 1, least), WidthNeeded(children[sorted[n - 1]]))
      else WidthUsedOver(n - 1, least)
    }

    /** The height the loop of `onMeasure` has reached after the first `n` sorted positions, starting from `least`. */
    function HeightUsedOver(n: nat, least: int): int
      requires n <= |sorted|
      reads this
    {
      if n == 0 then least
      else if InPass(n - 1) then Max(HeightUsedOver(n - 1, least), HeightNeeded(children[sorted[n - 1]]))
      else HeightUsedOver(n - 1, least)
    }

    /**
     * The width reached is at least `least` and at least every child's need, and
     * it is `least` or the need of one child that is not GONE.
     */
    lemma {:induction false} WidthUsedOverBounds(n: nat, least: int)
      requires n <= |sorted|
      ensures var w := WidthUsedOver(n, least);
        && w >= least
        && (forall j :: 0 <= j < n && InPass(j) ==> w >= WidthNeeded(children[sorted[j]]))
        && (w == least || exists j :: 0 <= j < n && InPass(j) && w == WidthNeeded(children[sorted[j]]))
    {
      if n > 0 {
        WidthUsedOverBounds(n - 1, least);
      }
    }

    /**
     * The height reached is at least `least` and at least every child's need, and
     * it is `least` or the need of one child that is not GONE.
     */
    lemma {:induction false} HeightUsedOverBounds(n: nat, least: int)
      requires n <= |sorted|
      ensures var h := HeightUsedOver(n, least);
        && h >= least
        && (forall j :: 0 <= j < n && InPass(j) ==> h >= HeightNeeded(children[sorted[j]]))
        && (h == least || exists j :: 0 <= j < n && InPass(j) && h == HeightNeeded(children[sorted[j]]))
    {
      if n > 0 {
        HeightUsedOverBounds(n - 1, least);
      }
    }

    /**
     * The loop of `onMeasure`: the width and height used are the largest need of
     * any child that is not GONE, or the suggested minimum when that is larger,
     * and every such child (and no other) is measured.
     */
    method MeasurePass(widthMode: MeasureMode, widthSize: int, minWidth: int, minHeight: int)
      returns (widthUsed: int, heightUsed: int, requests: seq<MeasureRequest>)
      requires Valid()
      ensures widthUsed >= minWidth && heightUsed >= minHeight
      ensures forall j :: InPass(j) ==>
        widthUsed >= WidthNeeded(children[sorted[j]]) && heightUsed >= HeightNeeded(children[sorted[j]])
      ensures widthUsed == minWidth || exists j :: InPass(j) && widthUsed == WidthNeeded(children[sorted[j]])
      ensures heightUsed == minHeight || exists j :: InPass(j) && heightUsed == HeightNeeded(children[sorted[j]])
      ensures forall j :: InPass(j) ==> Request(children[sorted[j]], widthMode, widthSize) in requests
      ensures forall q :: q in requests ==>
        exists j :: InPass(j) && q == Request(children[sorted[j]], widthMode, widthSize)
      ensures requests == MeasureRequests(|sorted|, widthMode, widthSize)
      ensures widthUsed == WidthUsedOver(|sorted|, minWidth) && heightUsed == HeightUsedOver(|sorted|, minHeight)
    {
      widthUsed := minWidth;
      heightUsed := minHeight;
      requests := [];
      var i := 0;
      while i < |sorted|
        invariant 0 <= i <= |sorted|
        invariant widthUsed == WidthUsedOver(i, minWidth) && heightUsed == HeightUsedOver(i, minHeight)
        invariant requests == MeasureRequests(i, widthMode, widthSize)
      {
        var c := children[sorted[i]];
        if c.visibility != Gone {
          requests := requests + [Request(c, widthMode, widthSize)];
          widthUsed := Max(widthUsed, WidthNeeded(c));
          heightUsed := Max(heightUsed, HeightNeeded(c));
        }
        i := i + 1;
      }
      MeasureRequestsMembers(|sorted|, widthMode, widthSize);
      WidthUsedOverBounds(|sorted|, minWidth);
      HeightUsedOverBounds(|sorted|, minHeight);
    }

    /**
     * `onMeasure`: prepare the children, then measure them in dependency order.
     * The sizes returned are those handed to `resolveSizeAndState`.
     */
    method OnMeasure(dagOrder: seq<nat>, widthMode: MeasureMode, widthSize: int, minWidth: int, minHeight: int)
      returns (err: Option<EngineError>, widthUsed: int, heightUsed: int, requests: seq<MeasureRequest>)
      requires Valid()
      requires |dagOrder| == |children| && Distinct(dagOrder)
      requires forall k :: 0 <= k < |dagOrder| ==> dagOrder[k] < |children|
      modifies this`children, this`sorted, this`dagNodes, this`dagEdges
      ensures Valid() && |children| == |old(children)|
      ensures err.None? ==>
        && (forall k :: 0 <= k < |children| ==>
              Resolved(old(children[k])).err.None? && children[k] == old(children[k]).(lp := Resolved(old(children[k])).lp))
        && (forall k: nat :: k in dagNodes <==> k < |children|)
        && (forall d: nat, e: nat :: (d, e) in dagEdges <==>
              d < |children| && e < |children| && d != e && Depends(children, d, e))
        && sorted == Reverse(dagOrder)
      ensures err.Some? ==> sorted == [] && exists i :: (
        && 0 <= i < |children| && Resolved(old(children[i])).err == err
        && (forall k :: 0 <= k < i ==> Resolved(old(children[k])).err.None?)
        && (forall k :: 0 <= k < |children| ==>
              children[k] == if k <= i then old(children[k]).(lp := Resolved(old(children[k])).lp) else old(children[k]))
        && GraphOver(children, dagNodes, dagEdges, i))
      ensures err.Some? ==> widthUsed == minWidth && heightUsed == minHeight && requests == []
      ensures err.None? ==> requests == MeasureRequests(|sorted|, widthMode, widthSize)
      ensures err.None? ==> forall j :: InPass(j) ==>
        widthUsed >= WidthNeeded(children[sorted[j]]) && heightUsed >= HeightNeeded(children[sorted[j]])
      ensures err.None? ==> widthUsed >= minWidth && heightUsed >= minHeight
      ensures err.None? ==> widthUsed == minWidth || exists j :: InPass(j) && widthUsed == WidthNeeded(children[sorted[j]])
      ensures err.None? ==>
        heightUsed == minHeight || exists j :: InPass(j) && heightUsed == HeightNeeded(children[sorted[j]])
    {
      widthUsed, heightUsed, requests := minWidth, minHeight, [];
      err := PrepareChildren(dagOrder);
      if err.None? {
        widthUsed, heightUsed, requests := MeasurePass(widthMode, widthSize, minWidth, minHeight);
      }
    }

    // -------------------------------------------------------------------
    // onLayout

    /** The area `layoutChild` places a child in: the padding and the child's margins taken off. */
    function ContentRect(m: Margins): (r: Rect)
      ensures r.left - box.paddingLeft == m.left && box.width - box.paddingRight - r.right == m.right
      ensures r.top - box.paddingTop == m.top && box.height - box.paddingBottom - r.bottom == m.bottom
    {
      Rect(box.paddingLeft + m.left, box.paddingTop + m.top,
           box.width - box.paddingRight - m.right, box.height - box.paddingBottom - m.bottom)
    }

    /**
     * The frame `onLayoutChild` gives child `c` when its anchor's frame is
     * `anchor`: anchored placement, keyline placement, or plain gravity placement.
     * Anchored and keyline children keep their measured size and are clamped into
     * the content area.
     */
    function PlacedFrame(c: Child, anchor: Rect): (r: Rect)
      reads this`keylines
      ensures c.lp.anchorView.Some? || c.lp.keyline >= 0 ==>
        && r.Width() == c.measuredWidth && r.Height() == c.measuredHeight
        && r == ConstrainChildRect(box, c.lp.margins, r, c.measuredWidth, c.measuredHeight)
      ensures c.lp.anchorView.None? && c.lp.keyline < 0 ==>
        r == applyGravity(ResolveGravity(c.lp.gravity), c.measuredWidth, c.measuredHeight, ContentRect(c.lp.margins), rtl)
    {
      var w := c.measuredWidth;
      var h := c.measuredHeight;
      if c.lp.anchorView.Some? then
        AnchoredChildRect(box, c.lp.margins, anchor, c.lp.gravity, c.lp.anchorGravity, rtl, w, h)
      else if c.lp.keyline >= 0 then
        var x := KeylineLeft(keylines, c.lp.keyline, c.lp.gravity, rtl, box, w);
        var y := KeylineTop(c.lp.gravity, rtl, h);
        ConstrainIdempotent(box, c.lp.margins, Rect(x, y, x + w, y + h), w, h);
        KeylineChildRect(keylines, c.lp.keyline, c.lp.gravity, rtl, box, c.lp.margins, w, h)
      else
        applyGravity(ResolveGravity(c.lp.gravity), w, h, ContentRect(c.lp.margins), rtl)
    }

    /** The frame of the anchor of `c` as it stands now (empty when there is none). */
    function AnchorRect(c: Child): Rect
      reads this`children
    {
      if c.lp.anchorView.Some? then DescendantRect(children, tree, c.lp.anchorView.value) else EmptyRect
    }

    /**
     * `onLayoutChild`: a child whose anchor id changed since measurement is an
     * error and is left alone; otherwise it is laid out at its placed frame.
     */
    method OnLayoutChild(k: nat) returns (err: Option<EngineError>)
      requires k < |children|
      modifies this`children
      ensures CheckAnchorChanged(old(children[k]).lp) ==>
        err == Some(AnchorChangedDuringLayout) && children == old(children)
      ensures !CheckAnchorChanged(old(children[k]).lp) ==>
        err.None? && children == old(children)[k := LayOut(old(children[k]), old(PlacedFrame(children[k], AnchorRect(children[k]))))]
    {
      var c := children[k];
      if CheckAnchorChanged(c.lp) {
        return Some(AnchorChangedDuringLayout);
      }
      var frame := PlacedFrame(c, AnchorRect(c));
      children := children[k := LayOut(c, frame)];
      err := None;
    }

    /** Position `j` of the sorted list holds a child the engine lays out itself. */
    predicate EngineLays(cs: seq<Child>, j: int)
      reads this`sorted
    {
      && 0 <= j < |sorted| && sorted[j] < |cs| && cs[sorted[j]].visibility != Gone
      && !(cs[sorted[j]].lp.behavior.Some? && hooks.onLayoutChild(cs[sorted[j]].lp.behavior.value, cs[sorted[j]].view))
    }

    /**
     * `onLayout`: lay out the children in dependency order, skipping GONE ones and
     * those whose behavior laid them out. It fails exactly when one of the
     * children it lays out has an anchor that changed since measurement; when it
     * succeeds each of them is laid out, those without an anchor at their placed
     * frame, and nothing else changes.
     */
    method OnLayout() returns (err: Option<EngineError>)
      requires Valid()
      modifies this`children
      ensures Valid() && |children| == |old(children)|
      ensures err.None? <==> forall j :: EngineLays(old(children), j) ==> !CheckAnchorChanged(old(children[sorted[j]]).lp)
      ensures forall k :: 0 <= k < |children| ==>
        children[k] == old(children[k]) || children[k] == LayOut(old(children[k]), children[k].frame)
      ensures err.None? ==> forall j :: EngineLays(old(children), j) ==>
        && children[sorted[j]].laidOut && !children[sorted[j]].layoutRequested
        && (old(children[sorted[j]]).lp.anchorView.None? ==>
              children[sorted[j]].frame == PlacedFrame(old(children[sorted[j]]), EmptyRect))
      ensures forall j :: 0 <= j < |sorted| && !EngineLays(old(children), j) ==>
        children[sorted[j]] == old(children[sorted[j]])
      ensures forall k :: 0 <= k < |children| && k !in sorted ==> children[k] == old(children[k])
    {
      ghost var c0 := children;
      var i := 0;
      while i < |sorted|
        invariant LaidOutUpTo(c0, children, i)
      {
        var k := sorted[i];
        var c := children[k];
        if c.visibility != Gone && !(c.lp.behavior.Some? && hooks.onLayoutChild(c.lp.behavior.value, c.view)) {
          ghost var cs := children;
          ghost var frame := PlacedFrame(c, AnchorRect(c));
          err := OnLayoutChild(k);
          if err.Some? {
            assert EngineLays(c0, i) && CheckAnchorChanged(c0[sorted[i]].lp);
            return;
          }
          LayStep(c0, cs, i, frame);
        } else {
          LaySkip(c0, children, i);
        }
        i := i + 1;
      }
      err := None;
    }

    /**
     * What `onLayout` has established on reaching position `i` of the sorted
     * list, starting from children `c0`: every child it lays out before `i` had
     * no changed anchor and is laid out (an unanchored one at its placed frame);
     * every other child is as it was; a child only ever changes by being laid out.
     */
    ghost predicate LaidOutUpTo(c0: seq<Child>, cs: seq<Child>, i: nat)
      reads this`sorted, this`keylines
    {
      && i <= |sorted| && |cs| == |c0| && Distinct(sorted)
      && (forall p :: 0 <= p < |sorted| ==> sorted[p] < |c0|)
      && (forall k :: 0 <= k < |cs| ==> cs[k] == c0[k] || cs[k] == LayOut(c0[k], cs[k].frame))
      && (forall j :: 0 <= j < i && EngineLays(c0, j) ==>
            && !CheckAnchorChanged(c0[sorted[j]].lp)
            && cs[sorted[j]].laidOut && !cs[sorted[j]].layoutRequested
            && (c0[sorted[j]].lp.anchorView.None? ==> cs[sorted[j]].frame == PlacedFrame(c0[sorted[j]], EmptyRect)))
      && (forall j :: 0 <= j < |sorted| && (i <= j || !EngineLays(c0, j)) ==> cs[sorted[j]] == c0[sorted[j]])
      && (forall k :: 0 <= k < |cs| && k !in sorted ==> cs[k] == c0[k])
    }

    /** Passing over a child the engine does not lay out extends the layout state by one. */
    lemma LaySkip(c0: seq<Child>, cs: seq<Child>, i: nat)
      requires LaidOutUpTo(c0, cs, i) && i < |sorted| && !EngineLays(c0, i)
      ensures LaidOutUpTo(c0, cs, i + 1)
    {
    }

    /** Laying out the child at position `i` at `frame` extends the layout state by one. */
    lemma LayStep(c0: seq<Child>, cs: seq<Child>, i: nat, frame: Rect)
      requires LaidOutUpTo(c0, cs, i) && i < |sorted| && EngineLays(c0, i)
      requires !CheckAnchorChanged(c0[sorted[i]].lp)
      requires c0[sorted[i]].lp.anchorView.None? ==> frame == PlacedFrame(c0[sorted[i]], EmptyRect)
      ensures LaidOutUpTo(c0, cs[sorted[i] := LayOut(c0[sorted[i]], frame)], i + 1)
    {
      var cs' := cs[sorted[i] := LayOut(c0[sorted[i]], frame)];
      forall j | 0 <= j < |sorted| && j != i
        ensures cs'[sorted[j]] == cs[sorted[j]]
      {
        assert sorted[j] != sorted[i];
      }
    }

    // -------------------------------------------------------------------
    // Inset offsets

    /**
     * `setInsetOffsetX`: the child moves across by exactly the change of offset
     * and stores the new offset, so its position without the offset is kept.
     */
    method SetInsetOffsetX(k: nat, offsetX: int)
      requires k < |children|
      modifies this`children
      ensures children == old(children)[k := WithInsetOffsets(old(children[k]), offsetX, old(children[k]).lp.insetOffsetY)]
      ensures old(children[k]).lp.insetOffsetX == offsetX ==> children == old(children)
    {
      var c := children[k];
      if c.lp.insetOffsetX != offsetX {
        var dx := offsetX - c.lp.insetOffsetX;
        children := children[k := c.(frame := c.frame.Offset(dx, 0), lp := c.lp.(insetOffsetX := offsetX))];
      } else {
        WithSameInsetOffsets(c);
      }
    }

    /** `setInsetOffsetY`: the same, vertically. */
    method SetInsetOffsetY(k: nat, offsetY: int)
      requires k < |children|
      modifies this`children
      ensures children == old(children)[k := WithInsetOffsets(old(children[k]), old(children[k]).lp.insetOffsetX, offsetY)]
      ensures old(children[k]).lp.insetOffsetY == offsetY ==> children == old(children)
    {
      var c := children[k];
      if c.lp.insetOffsetY != offsetY {
        var dy := offsetY - c.lp.insetOffsetY;
        children := children[k := c.(frame := c.frame.Offset(0, dy), lp := c.lp.(insetOffsetY := offsetY))];
      } else {
        WithSameInsetOffsets(c);
      }
    }

    /** The vertical offset `offsetChildByInset` settles on for child `c` with dodge rectangle `d`. */
    function DodgeY(c: Child, d: Rect, inset: Rect): int {
      DodgeAxis(c.lp.dodgeInsetEdges.top, c.lp.dodgeInsetEdges.bottom, d.top, d.bottom,
                c.lp.margins.top, c.lp.margins.bottom, c.lp.insetOffsetY, inset.top, inset.bottom, box.height)
    }

    /** The horizontal offset, likewise. */
    function DodgeX(c: Child, d: Rect, inset: Rect): int {
      DodgeAxis(c.lp.dodgeInsetEdges.left, c.lp.dodgeInsetEdges.right, d.left, d.right,
                c.lp.margins.left, c.lp.margins.right, c.lp.insetOffsetX, inset.left, inset.right, box.width)
    }

    /**
     * `offsetChildByInset`: a child that is not laid out, has no area, or has an
     * empty dodge rectangle is untouched; a behavior dodge rectangle outside the
     * child's bounds is an error; otherwise each axis's inset offset becomes the
     * one `DodgeAxis` computes and the child moves with it.
     */
    method OffsetChildByInset(k: nat, inset: Rect) returns (err: Option<EngineError>)
      requires k < |children|
      modifies this`children
      ensures var c := old(children[k]);
        !c.laidOut || c.frame.Width() <= 0 || c.frame.Height() <= 0 ==> err.None? && children == old(children)
      ensures var c := old(children[k]);
        c.laidOut && c.frame.Width() > 0 && c.frame.Height() > 0 ==>
          match DodgeRectOf(hooks, c)
          case OutsideBounds => err == Some(DodgeRectOutsideBounds) && children == old(children)
          case Dodge(d) =>
            && err.None?
            && (d.IsEmpty() ==> children == old(children))
            && (!d.IsEmpty() ==> children == old(children)[k := WithInsetOffsets(c, DodgeX(c, d, inset), DodgeY(c, d, inset))])
      ensures SameChildren(old(children), children) && SameRecords(old(children), children)
      ensures (children, err) == InsetStep(old(children), k, inset)
    {
      var c := children[k];
      err := None;
      if !c.laidOut || c.frame.Width() <= 0 || c.frame.Height() <= 0 {
        return;
      }
      var dodge := DodgeRectOf(hooks, c);
      if dodge.OutsideBounds? {
        return Some(DodgeRectOutsideBounds);
      }
      var d := dodge.rect;
      if d.IsEmpty() {
        return;
      }
      DodgeVertically(k, d, inset);
      DodgeHorizontally(k, d, inset);
      ComposeInsetOffsets(c, c.lp.insetOffsetX, DodgeY(c, d, inset), DodgeX(c, d, inset), DodgeY(c, d, inset));
    }

    /** The vertical half of `offsetChildByInset`, with dodge rectangle `d`. */
    method DodgeVertically(k: nat, d: Rect, inset: Rect)
      requires k < |children|
      modifies this`children
      ensures var c := old(children[k]);
        children == old(children)[k := WithInsetOffsets(c, c.lp.insetOffsetX, DodgeY(c, d, inset))]
    {
      var c := children[k];
      var edges := c.lp.dodgeInsetEdges;
      var m := c.lp.margins;
      var shifted := false;
      var top := NearShift(edges.top, d.top, m.top, c.lp.insetOffsetY, inset.top);
      if top.Some? {
        SetInsetOffsetY(k, top.value);
        shifted := true;
      }
      var offset := children[k].lp.insetOffsetY;
      var bottom := FarShift(edges.bottom, d.bottom, m.bottom, offset, inset.bottom, box.height);
      if bottom.Some? {
        ComposeInsetOffsets(c, c.lp.insetOffsetX, offset, c.lp.insetOffsetX, bottom.value);
        SetInsetOffsetY(k, bottom.value);
        shifted := true;
      }
      if !shifted {
        SetInsetOffsetY(k, 0);
      }
    }

    /** The horizontal half of `offsetChildByInset`. */
    method DodgeHorizontally(k: nat, d: Rect, inset: Rect)
      requires k < |children|
      modifies this`children
      ensures var c := old(children[k]);
        children == old(children)[k := WithInsetOffsets(c, DodgeX(c, d, inset), c.lp.insetOffsetY)]
    {
      var c := children[k];
      var edges := c.lp.dodgeInsetEdges;
      var m := c.lp.margins;
      var shifted := false;
      var left := NearShift(edges.left, d.left, m.left, c.lp.insetOffsetX, inset.left);
      if left.Some? {
        SetInsetOffsetX(k, left.value);
        shifted := true;
      }
      var offset := children[k].lp.insetOffsetX;
      var right := FarShift(edges.right, d.right, m.right, offset, inset.right, box.width);
      if right.Some? {
        ComposeInsetOffsets(c, offset, c.lp.insetOffsetY, right.value, c.lp.insetOffsetY);
        SetInsetOffsetX(k, right.value);
        shifted := true;
      }
      if !shifted {
        SetInsetOffsetX(k, 0);
      }
    }

    // -------------------------------------------------------------------
    // offsetChildToAnchor

    /**
     * `offsetChildToAnchor`: a child with a resolved anchor moves to its
     * constrained anchored position, and its behavior is told the anchor changed
     * when the unconstrained position differs from where the child was.
     */
    method OffsetChildToAnchor(k: nat) returns (calls: seq<HookCall>)
      requires k < |children|
      modifies this`children
      ensures var c := old(children[k]);
        c.lp.anchorView.None? ==> calls == [] && children == old(children)
      ensures var c := old(children[k]);
        c.lp.anchorView.Some? ==>
          var a := c.lp.anchorView.value;
          var r := OffsetToAnchor(box, rtl, c, DescendantRect(old(children), tree, a));
          && children == old(children)[k := c.(frame := r.frame)]
          && calls == (if r.changed && c.lp.behavior.Some? then [DependentViewChanged(c.lp.behavior.value, c.view, a)] else [])
      ensures (children, calls) == AnchorStep(old(children), k)
    {
      var c := children[k];
      calls := [];
      if c.lp.anchorView.Some? {
        var a := c.lp.anchorView.value;
        var r := OffsetToAnchor(box, rtl, c, DescendantRect(children, tree, a));
        children := children[k := c.(frame := r.frame)];
        if r.changed && c.lp.behavior.Some? {
          calls := [DependentViewChanged(c.lp.behavior.value, c.view, a)];
        }
      }
    }

    // -------------------------------------------------------------------
    // onChildViewsChanged, as values

    /** What `offsetChildToAnchor` does to the child at `k` of `cs`: the new children and the hook calls. */
    function AnchorStep(cs: seq<Child>, k: nat): (r: (seq<Child>, seq<HookCall>))
      requires k < |cs|
      ensures |r.0| == |cs| && r.0 == cs[k := cs[k].(frame := r.0[k].frame)]
      ensures r.0[k].frame.Width() == cs[k].frame.Width() && r.0[k].frame.Height() == cs[k].frame.Height()
      ensures cs[k].lp.anchorView.None? ==> r == (cs, [])
      ensures cs[k].lp.anchorView.Some? ==>
        r.0[k].frame == OffsetToAnchor(box, rtl, cs[k], DescendantRect(cs, tree, cs[k].lp.anchorView.value)).frame
      ensures forall q :: q in r.1 ==>
        cs[k].lp.behavior.Some? && cs[k].lp.anchorView.Some? &&
        q == DependentViewChanged(cs[k].lp.behavior.value, cs[k].view, cs[k].lp.anchorView.value)
    {
      var c := cs[k];
      if c.lp.anchorView.None? then (cs, [])
      else
        var a := c.lp.anchorView.value;
        var re := OffsetToAnchor(box, rtl, c, DescendantRect(cs, tree, a));
        (cs[k := c.(frame := re.frame)],
         if re.changed && c.lp.behavior.Some? then [DependentViewChanged(c.lp.behavior.value, c.view, a)] else [])
    }

    /**
     * The first inner loop of `onChildViewsChanged` as a value: the child at `k`
     * re-offset to its anchor once for each of the first `upto` positions of
     * `order` whose child is its anchor's direct child.
     */
    function ReanchorRun(cs: seq<Child>, order: seq<nat>, k: nat, upto: nat): (r: (seq<Child>, seq<HookCall>))
      requires k < |cs| && upto <= |order| && forall p :: 0 <= p < |order| ==> order[p] < |cs|
      ensures |r.0| == |cs|
      decreases upto
    {
      if upto == 0 then (cs, [])
      else
        var prev := ReanchorRun(cs, order, k, upto - 1);
        if prev.0[k].lp.anchorDirectChild == Some(prev.0[order[upto - 1]].view) then
          var step := AnchorStep(prev.0, k);
          (step.0, prev.1 + step.1)
        else prev
    }

    /**
     * Re-anchoring moves only the child at `k`, keeping its size, and only its
     * behavior is told; a child none of whose earlier positions holds its
     * anchor's direct child is left alone.
     */
    lemma {:induction false} ReanchorRunShape(cs: seq<Child>, order: seq<nat>, k: nat, upto: nat)
      requires k < |cs| && upto <= |order| && forall p :: 0 <= p < |order| ==> order[p] < |cs|
      ensures var r := ReanchorRun(cs, order, k, upto);
        && r.0 == cs[k := cs[k].(frame := r.0[k].frame)]
        && r.0[k].frame.Width() == cs[k].frame.Width() && r.0[k].frame.Height() == cs[k].frame.Height()
        && (forall q :: q in r.1 ==>
              cs[k].lp.behavior.Some? && cs[k].lp.anchorView.Some? &&
              q == DependentViewChanged(cs[k].lp.behavior.value, cs[k].view, cs[k].lp.anchorView.value))
        && ((forall j :: 0 <= j < upto ==> cs[k].lp.anchorDirectChild != Some(cs[order[j]].view)) ==> r == (cs, []))
      decreases upto
    {
      if upto > 0 {
        ReanchorRunShape(cs, order, k, upto - 1);
        var prev := ReanchorRun(cs, order, k, upto - 1);
        assert prev.0[k].lp == cs[k].lp && prev.0[order[upto - 1]].view == cs[order[upto - 1]].view;
      }
    }

    /**
     * Re-anchoring a child that already sits where its anchor puts it leaves it
     * there: the anchor's rectangle does not depend on the child's own frame.
     */
    lemma AnchorStepSettled(cs: seq<Child>, k: nat)
      requires k < |cs| && !cs[k].layoutRequested && cs[k].visibility != Gone
      requires cs[k].frame.Width() == cs[k].measuredWidth && cs[k].frame.Height() == cs[k].measuredHeight
      requires cs[k].lp.anchorView.Some? && cs[k].lp.anchorView.value != cs[k].view
      ensures var a := cs[k].lp.anchorView.value;
        var f := OffsetToAnchor(box, rtl, cs[k], DescendantRect(cs, tree, a)).frame;
        AnchorStep(cs[k := cs[k].(frame := f)], k).0[k].frame == f
    {
      var a := cs[k].lp.anchorView.value;
      var f := OffsetToAnchor(box, rtl, cs[k], DescendantRect(cs, tree, a)).frame;
      DescendantRectOfOther(cs, tree, k, f, a);
      OffsetToAnchorSettles(box, rtl, cs[k], DescendantRect(cs, tree, a));
    }

    /**
     * A laid-out child of its measured size that is not its own anchor ends at
     * its anchored position however often it is re-anchored: at the position
     * `offsetChildToAnchor` computes from the anchor's rectangle before the loop.
     */
    lemma {:induction false} ReanchorRunSettles(cs: seq<Child>, order: seq<nat>, k: nat, upto: nat)
      requires k < |cs| && upto <= |order| && forall p :: 0 <= p < |order| ==> order[p] < |cs|
      requires !cs[k].layoutRequested && cs[k].visibility != Gone
      requires cs[k].frame.Width() == cs[k].measuredWidth && cs[k].frame.Height() == cs[k].measuredHeight
      requires cs[k].lp.anchorView.Some? && cs[k].lp.anchorView.value != cs[k].view
      requires exists j :: 0 <= j < upto && cs[k].lp.anchorDirectChild == Some(cs[order[j]].view)
      ensures ReanchorRun(cs, order, k, upto).0[k].frame ==
              OffsetToAnchor(box, rtl, cs[k], DescendantRect(cs, tree, cs[k].lp.anchorView.value)).frame
      decreases upto
    {
      if exists j :: 0 <= j < upto - 1 && cs[k].lp.anchorDirectChild == Some(cs[order[j]].view) {
        ReanchorRunSettles(cs, order, k, upto - 1);
        SettledStaysSettled(cs, order, k, upto);
      } else {
        SettledOnFirstAnchor(cs, order, k, upto);
      }
    }

    /** Once a child sits where its anchor puts it, a further position of the run keeps it there. */
    lemma SettledStaysSettled(cs: seq<Child>, order: seq<nat>, k: nat, upto: nat)
      requires k < |cs| && 0 < upto <= |order| && forall p :: 0 <= p < |order| ==> order[p] < |cs|
      requires !cs[k].layoutRequested && cs[k].visibility != Gone
      requires cs[k].frame.Width() == cs[k].measuredWidth && cs[k].frame.Height() == cs[k].measuredHeight
      requires cs[k].lp.anchorView.Some? && cs[k].lp.anchorView.value != cs[k].view
      requires ReanchorRun(cs, order, k, upto - 1).0[k].frame ==
               OffsetToAnchor(box, rtl, cs[k], DescendantRect(cs, tree, cs[k].lp.anchorView.value)).frame
      ensures ReanchorRun(cs, order, k, upto).0[k].frame ==
              OffsetToAnchor(box, rtl, cs[k], DescendantRect(cs, tree, cs[k].lp.anchorView.value)).frame
    {
      var f := OffsetToAnchor(box, rtl, cs[k], DescendantRect(cs, tree, cs[k].lp.anchorView.value)).frame;
      ReanchorRunShape(cs, order, k, upto - 1);
      var prev := ReanchorRun(cs, order, k, upto - 1);
      assert prev.0 == cs[k := cs[k].(frame := f)];
      if prev.0[k].lp.anchorDirectChild == Some(prev.0[order[upto - 1]].view) {
        AnchorStepSettled(cs, k);
      }
    }

    /** The first position whose child is the anchor's direct child moves the child where its anchor puts it. */
    lemma SettledOnFirstAnchor(cs: seq<Child>, order: seq<nat>, k: nat, upto: nat)
      requires k < |cs| && 0 < upto <= |order| && forall p :: 0 <= p < |order| ==> order[p] < |cs|
      requires !cs[k].layoutRequested && cs[k].visibility != Gone
      requires cs[k].frame.Width() == cs[k].measuredWidth && cs[k].frame.Height() == cs[k].measuredHeight
      requires cs[k].lp.anchorView.Some? && cs[k].lp.anchorView.value != cs[k].view
      requires forall j :: 0 <= j < upto - 1 ==> cs[k].lp.anchorDirectChild != Some(cs[order[j]].view)
      requires cs[k].lp.anchorDirectChild == Some(cs[order[upto - 1]].view)
      ensures ReanchorRun(cs, order, k, upto).0[k].frame ==
              OffsetToAnchor(box, rtl, cs[k], DescendantRect(cs, tree, cs[k].lp.anchorView.value)).frame
    {
      ReanchorRunShape(cs, order, k, upto - 1);
      assert ReanchorRun(cs, order, k, upto - 1) == (cs, []);
    }

    /** What `offsetChildByInset` does to the child at `k` of `cs`: the new children, or the error. */
    function InsetStep(cs: seq<Child>, k: nat, inset: Rect): (r: (seq<Child>, Option<EngineError>))
      requires k < |cs|
      ensures |r.0| == |cs| && r.0 == cs[k := r.0[k]] && SameChildren(cs, r.0) && SameRecords(cs, r.0)
      ensures r.0[k].frame.left - r.0[k].lp.insetOffsetX == cs[k].frame.left - cs[k].lp.insetOffsetX
      ensures r.0[k].frame.top - r.0[k].lp.insetOffsetY == cs[k].frame.top - cs[k].lp.insetOffsetY
      ensures r.0[k].frame.Width() == cs[k].frame.Width() && r.0[k].frame.Height() == cs[k].frame.Height()
      ensures r.1 == Some(DodgeRectOutsideBounds) <==>
        cs[k].laidOut && cs[k].frame.Width() > 0 && cs[k].frame.Height() > 0 && DodgeRectOf(hooks, cs[k]).OutsideBounds?
      ensures r.1.Some? ==> r.0 == cs
    {
      var c := cs[k];
      if !c.laidOut || c.frame.Width() <= 0 || c.frame.Height() <= 0 then (cs, None)
      else match DodgeRectOf(hooks, c)
        case OutsideBounds => (cs, Some(DodgeRectOutsideBounds))
        case Dodge(d) =>
          if d.IsEmpty() then (cs, None)
          else (cs[k := WithInsetOffsets(c, DodgeX(c, d, inset), DodgeY(c, d, inset))], None)
    }

    /**
     * The recording and notification of a visit as a value: except on removal,
     * `draw` becomes the record of the child at position `i` of `order`, and the
     * later children are told about `dep` when that changed the record (always,
     * on removal).
     */
    function RecordStep(cs: seq<Child>, order: seq<nat>, i: nat, kind: Event, draw: Rect, dep: View)
      : (r: (seq<Child>, seq<HookCall>))
      requires i < |order| && forall p :: 0 <= p < |order| ==> order[p] < |cs|
      ensures |r.0| == |cs|
      ensures kind != ViewRemoved && cs[order[i]].lp.lastChildRect == draw ==> r == (cs, [])
    {
      var k := order[i];
      if kind == ViewRemoved then NotifyRun(hooks, cs, order, i + 1, |order|, kind, dep)
      else
        var rec := RecordChildRect(kind, cs[k].lp.lastChildRect, draw);
        var cs1 := cs[k := cs[k].(lp := cs[k].lp.(lastChildRect := rec.last))];
        if rec.notify then NotifyRun(hooks, cs1, order, i + 1, |order|, kind, dep)
        else
          assert cs1 == cs;
          (cs1, [])
    }

    /**
     * A recording step keeps every child but the one visited up to its
     * nested-scroll flag, and that one up to its flag and its record, which is
     * `draw` unless the event is a removal.
     */
    lemma RecordStepShape(cs: seq<Child>, order: seq<nat>, i: nat, kind: Event, draw: Rect, dep: View)
      requires i < |order| && forall p :: 0 <= p < |order| ==> order[p] < |cs|
      ensures var r := RecordStep(cs, order, i, kind, draw, dep);
        var k := order[i];
        && SameChildren(cs, r.0)
        && (forall m :: 0 <= m < |cs| && m != k ==> r.0[m] == cs[m].(lp := cs[m].lp.(changedAfterNestedScroll := r.0[m].lp.changedAfterNestedScroll)))
        && r.0[k] == cs[k].(lp := cs[k].lp.(changedAfterNestedScroll := r.0[k].lp.changedAfterNestedScroll,
                                             lastChildRect := r.0[k].lp.lastChildRect))
        && r.0[k].lp.lastChildRect == (if kind == ViewRemoved then cs[k].lp.lastChildRect else draw)
    {
      var k := order[i];
      if kind == ViewRemoved {
        NotifyRunShape(hooks, cs, order, i + 1, |order|, kind, dep);
      } else {
        var rec := RecordChildRect(kind, cs[k].lp.lastChildRect, draw);
        var cs1 := cs[k := cs[k].(lp := cs[k].lp.(lastChildRect := rec.last))];
        NotifyRunShape(hooks, cs1, order, i + 1, |order|, kind, dep);
      }
    }

    /** A recording step is a completed visit of the child at position `i`. */
    lemma RecordStepVisited(cs: seq<Child>, order: seq<nat>, i: nat, kind: Event, draw: Rect, dep: View)
      requires i < |order| && forall p :: 0 <= p < |order| ==> order[p] < |cs|
      ensures Visited(cs, RecordStep(cs, order, i, kind, draw, dep).0, order[i], kind, true, draw)
    {
      RecordStepShape(cs, order, i, kind, draw, dep);
    }

    /**
     * The rest of a visit as a value: the child at position `i` dodges `inset`
     * when it dodges any edge and is VISIBLE; if that did not fail, `draw` is
     * recorded and the dependents are notified about the child.
     */
    function RestOfVisit(cs: seq<Child>, order: seq<nat>, i: nat, kind: Event, inset: Rect, draw: Rect)
      : (r: (seq<Child>, Option<EngineError>, seq<HookCall>))
      requires i < |order| && forall p :: 0 <= p < |order| ==> order[p] < |cs|
      ensures |r.0| == |cs|
      ensures r.1.Some? ==> r.2 == [] && r.1 == Some(DodgeRectOutsideBounds)
    {
      var k := order[i];
      var c := cs[k];
      var dodged := if !c.lp.dodgeInsetEdges.IsNone() && c.visibility == Visible then InsetStep(cs, k, inset) else (cs, None);
      if dodged.1.Some? then (dodged.0, dodged.1, [])
      else
        var n := RecordStep(dodged.0, order, i, kind, draw, c.view);
        (n.0, None, n.1)
    }

    /**
     * One visit of the outer loop of `onChildViewsChanged` as a value: the child
     * at position `i` is re-anchored, its draw rectangle is its child rectangle
     * after that and joins the inset, and the rest of the visit follows.
     */
    function VisitOf(cs: seq<Child>, order: seq<nat>, i: nat, kind: Event, inset: Rect): (r: VisitOutcome)
      requires i < |order| && forall p :: 0 <= p < |order| ==> order[p] < |cs|
      ensures |r.cs| == |cs|
      ensures r.draw == ChildRect(ReanchorRun(cs, order, order[i], i).0[order[i]])
      ensures r.inset == AccumulateInset(inset, cs[order[i]].lp.insetEdge, r.draw, box.width, box.height)
    {
      var k := order[i];
      var moved := ReanchorRun(cs, order, k, i);
      ReanchorRunShape(cs, order, k, i);
      var draw := ChildRect(moved.0[k]);
      var inset' := AccumulateInset(inset, moved.0[k].lp.insetEdge, draw, box.width, box.height);
      var rest := RestOfVisit(moved.0, order, i, kind, inset', draw);
      VisitOutcome(rest.0, rest.1, moved.1 + rest.2, inset', draw)
    }

    /**
     * One position `i` of the outer loop of `onChildViewsChanged` as a value: a
     * failed pass stays as it is, a child GONE on pre-draw adds a neutral visit,
     * any other is visited and, unless the visit fails, adds its inset edges and
     * draw rectangle.
     */
    function PassStep(p: PassOutcome, order: seq<nat>, kind: Event, i: nat): (r: PassOutcome)
      requires i < |order| && forall q :: 0 <= q < |order| ==> order[q] < |p.cs|
      ensures |r.cs| == |p.cs|
      ensures p.err.Some? ==> r == p
      ensures p.err.None? && kind == PreDraw && p.cs[order[i]].visibility == Gone ==>
        r == p.(visits := p.visits + [Contribution(NoEdges, EmptyRect)])
    {
      var k := order[i];
      if p.err.Some? then p
      else if kind == PreDraw && p.cs[k].visibility == Gone then
        p.(visits := p.visits + [Contribution(NoEdges, EmptyRect)])
      else
        var v := VisitOf(p.cs, order, i, kind, p.inset);
        PassOutcome(v.cs, v.err, p.calls + v.calls, v.inset,
                    if v.err.None? then p.visits + [Contribution(p.cs[k].lp.insetEdge, v.draw)] else p.visits)
    }

    /** The outer loop of `onChildViewsChanged` as a value, over the first `n` positions of `order`. */
    function PassRun(c0: seq<Child>, order: seq<nat>, kind: Event, n: nat): (r: PassOutcome)
      requires n <= |order| && forall p :: 0 <= p < |order| ==> order[p] < |c0|
      ensures |r.cs| == |c0|
      decreases n
    {
      if n == 0 then PassOutcome(c0, None, [], EmptyRect, [])
      else PassStep(PassRun(c0, order, kind, n - 1), order, kind, n - 1)
    }

    /** A pass over `n` positions is the pass over `n - 1` followed by position `n - 1`. */
    lemma PassRunNext(c0: seq<Child>, order: seq<nat>, kind: Event, n: nat)
      requires 0 < n <= |order| && forall p :: 0 <= p < |order| ==> order[p] < |c0|
      ensures PassRun(c0, order, kind, n) == PassStep(PassRun(c0, order, kind, n - 1), order, kind, n - 1)
    {
    }

    /**
     * A visit as a value has the effect `Visited` describes: only the visited
     * child's record changes, to its draw rectangle, and only when the visit
     * completed and the event is not a removal.
     */
    lemma VisitOfVisited(cs: seq<Child>, order: seq<nat>, i: nat, kind: Event, inset: Rect)
      requires i < |order| && forall p :: 0 <= p < |order| ==> order[p] < |cs|
      ensures var v := VisitOf(cs, order, i, kind, inset);
        Visited(cs, v.cs, order[i], kind, v.err.None?, v.draw)
    {
      var k := order[i];
      ReanchorRunShape(cs, order, k, i);
      var moved := ReanchorRun(cs, order, k, i);
      assert SameChildren(cs, moved.0) && SameRecords(cs, moved.0);
      var draw := ChildRect(moved.0[k]);
      var inset' := AccumulateInset(inset, moved.0[k].lp.insetEdge, draw, box.width, box.height);
      var rest := RestOfVisit(moved.0, order, i, kind, inset', draw);
      RestOfVisitVisited(moved.0, order, i, kind, inset', draw);
      MoveThenVisit(cs, moved.0, rest.0, k, kind, rest.1.None?, draw);
    }

    /** The rest of a visit has the effect `Visited` describes. */
    lemma RestOfVisitVisited(cs: seq<Child>, order: seq<nat>, i: nat, kind: Event, inset: Rect, draw: Rect)
      requires i < |order| && forall p :: 0 <= p < |order| ==> order[p] < |cs|
      ensures var r := RestOfVisit(cs, order, i, kind, inset, draw);
        Visited(cs, r.0, order[i], kind, r.1.None?, draw)
    {
      var k := order[i];
      var c := cs[k];
      var dodged := if !c.lp.dodgeInsetEdges.IsNone() && c.visibility == Visible then InsetStep(cs, k, inset)
                    else (cs, None);
      assert SameChildren(cs, dodged.0) && SameRecords(cs, dodged.0);
      if dodged.1.None? {
        var last := RecordStep(dodged.0, order, i, kind, draw, c.view).0;
        RecordStepVisited(dodged.0, order, i, kind, draw, c.view);
        MoveThenVisit(cs, dodged.0, last, k, kind, true, draw);
      }
    }

    /**
     * What a pass as a value establishes: the pass state over the visits made,
     * one visit per position on success with the inset their accumulation, and
     * fewer visits than positions on failure.
     */
    lemma {:induction false} PassRunState(c0: seq<Child>, order: seq<nat>, kind: Event, n: nat)
      requires n <= |order| && Distinct(order) && forall p :: 0 <= p < |order| ==> order[p] < |c0|
      ensures StateAfter(c0, order, kind, n, PassRun(c0, order, kind, n))
      decreases n
    {
      if n == 0 {
        assert PassRun(c0, order, kind, n) == PassOutcome(c0, None, [], EmptyRect, []);
      } else {
        PassRunState(c0, order, kind, n - 1);
        var p := PassRun(c0, order, kind, n - 1);
        PassStepState(c0, order, kind, n, p);
        PassRunNext(c0, order, kind, n);
      }
    }

    /** One position of a pass keeps the pass state. */
    lemma PassStepState(c0: seq<Child>, order: seq<nat>, kind: Event, n: nat, p: PassOutcome)
      requires 0 < n <= |order| && forall q :: 0 <= q < |order| ==> order[q] < |p.cs|
      requires StateAfter(c0, order, kind, n - 1, p)
      ensures StateAfter(c0, order, kind, n, PassStep(p, order, kind, n - 1))
    {
      var i := n - 1;
      assert i + 1 == n;
      if p.err.None? {
        if kind == PreDraw && p.cs[order[i]].visibility == Gone {
          SkipKeepsState(c0, order, kind, i, p);
        } else {
          VisitKeepsState(c0, order, kind, i, p);
        }
      }
    }

    /** What `PassRunState` says about the outcome `r` of the first `n` positions. */
    ghost predicate StateAfter(c0: seq<Child>, order: seq<nat>, kind: Event, n: nat, r: PassOutcome) {
      && PassState(c0, r.cs, order, kind, |r.visits|, r.visits)
      && (r.err.None? ==> |r.visits| == n && r.inset == InsetOf(r.visits, box.width, box.height))
      && (r.err.Some? ==> |r.visits| < n)
    }

    /** A skipped position keeps the pass state. */
    lemma SkipKeepsState(c0: seq<Child>, order: seq<nat>, kind: Event, n: nat, p: PassOutcome)
      requires n < |order| && forall q :: 0 <= q < |order| ==> order[q] < |p.cs|
      requires p.err.None? && kind == PreDraw && p.cs[order[n]].visibility == Gone
      requires StateAfter(c0, order, kind, n, p)
      ensures StateAfter(c0, order, kind, n + 1, PassStep(p, order, kind, n))
    {
      PassSkip(c0, p.cs, order, kind, n, p.visits);
      var visits := p.visits + [Contribution(NoEdges, EmptyRect)];
      assert visits[..|visits| - 1] == p.visits;
    }

    /** A visited position keeps the pass state, whether or not the visit fails. */
    lemma VisitKeepsState(c0: seq<Child>, order: seq<nat>, kind: Event, n: nat, p: PassOutcome)
      requires n < |order| && forall q :: 0 <= q < |order| ==> order[q] < |p.cs|
      requires p.err.None? && !(kind == PreDraw && p.cs[order[n]].visibility == Gone)
      requires StateAfter(c0, order, kind, n, p)
      ensures StateAfter(c0, order, kind, n + 1, PassStep(p, order, kind, n))
    {
      var v := VisitOf(p.cs, order, n, kind, p.inset);
      VisitOfVisited(p.cs, order, n, kind, p.inset);
      if v.err.Some? {
        PassKeep(c0, p.cs, v.cs, order, kind, n, p.visits, v.draw);
      } else {
        PassVisit(c0, p.cs, v.cs, order, kind, n, p.visits, v.draw, box.width, box.height);
      }
    }

    /** A pass that failed stays failed: the positions after the failure change nothing. */
    lemma {:induction false} PassRunHalts(c0: seq<Child>, order: seq<nat>, kind: Event, i: nat, n: nat)
      requires i <= n <= |order| && forall p :: 0 <= p < |order| ==> order[p] < |c0|
      requires PassRun(c0, order, kind, i).err.Some?
      ensures PassRun(c0, order, kind, n) == PassRun(c0, order, kind, i)
      decreases n
    {
      if n > i {
        PassRunHalts(c0, order, kind, i, n - 1);
      }
    }

    /**
     * The rest of a visit changes other children only in their nested-scroll
     * flags, and the visited one only in what a pass may touch.
     */
    lemma RestOfVisitShape(cs: seq<Child>, order: seq<nat>, i: nat, kind: Event, inset: Rect, draw: Rect)
      requires i < |order| && forall p :: 0 <= p < |order| ==> order[p] < |cs|
      ensures var r := RestOfVisit(cs, order, i, kind, inset, draw);
        && SameChildren(cs, r.0)
        && forall m :: 0 <= m < |cs| && m != order[i] ==>
             r.0[m] == cs[m].(lp := cs[m].lp.(changedAfterNestedScroll := r.0[m].lp.changedAfterNestedScroll))
    {
      var k := order[i];
      var c := cs[k];
      var dodged := if !c.lp.dodgeInsetEdges.IsNone() && c.visibility == Visible then InsetStep(cs, k, inset)
                    else (cs, None);
      if dodged.1.None? {
        RecordStepShape(dodged.0, order, i, kind, draw, c.view);
      }
    }

    /** A visit changes other children only in their nested-scroll flags. */
    lemma VisitOfShape(cs: seq<Child>, order: seq<nat>, i: nat, kind: Event, inset: Rect)
      requires i < |order| && forall p :: 0 <= p < |order| ==> order[p] < |cs|
      ensures var v := VisitOf(cs, order, i, kind, inset);
        && SameChildren(cs, v.cs)
        && forall m :: 0 <= m < |cs| && m != order[i] ==>
             v.cs[m] == cs[m].(lp := cs[m].lp.(changedAfterNestedScroll := v.cs[m].lp.changedAfterNestedScroll))
    {
      var k := order[i];
      ReanchorRunShape(cs, order, k, i);
      var moved := ReanchorRun(cs, order, k, i);
      var draw := ChildRect(moved.0[k]);
      var inset' := AccumulateInset(inset, moved.0[k].lp.insetEdge, draw, box.width, box.height);
      RestOfVisitShape(moved.0, order, i, kind, inset', draw);
    }

    /**
     * Over distinct positions, a pass keeps what it never touches, and a child
     * not yet reached is as it was before the pass but for its nested-scroll flag.
     */
    lemma {:induction false} PassRunShape(c0: seq<Child>, order: seq<nat>, kind: Event, n: nat)
      requires n <= |order| && Distinct(order) && forall p :: 0 <= p < |order| ==> order[p] < |c0|
      ensures Untouched(c0, PassRun(c0, order, kind, n).cs, order, n)
      decreases n
    {
      if n == 0 {
        assert PassRun(c0, order, kind, n).cs == c0;
      } else {
        PassRunShape(c0, order, kind, n - 1);
        var p := PassRun(c0, order, kind, n - 1);
        PassStepShape(c0, order, kind, n, p);
        PassRunNext(c0, order, kind, n);
      }
    }

    /** `cs` keeps what a pass never touches, and the children from position `n` on are untouched but for their flags. */
    ghost predicate Untouched(c0: seq<Child>, cs: seq<Child>, order: seq<nat>, n: nat)
      requires forall p :: 0 <= p < |order| ==> order[p] < |c0|
    {
      && SameChildren(c0, cs)
      && forall p :: n <= p < |order| ==> Unflagged(cs[order[p]]) == Unflagged(c0[order[p]])
    }

    /** One position of a pass keeps `Untouched` for the positions after it. */
    lemma PassStepShape(c0: seq<Child>, order: seq<nat>, kind: Event, n: nat, p: PassOutcome)
      requires 0 < n <= |order| && Distinct(order) && forall q :: 0 <= q < |order| ==> order[q] < |c0|
      requires Untouched(c0, p.cs, order, n - 1)
      ensures Untouched(c0, PassStep(p, order, kind, n - 1).cs, order, n)
    {
      if p.err.None? && !(kind == PreDraw && p.cs[order[n - 1]].visibility == Gone) {
        VisitOfUntouched(c0, order, kind, n, p.cs, p.inset);
      }
    }

    /** A visit at position `n - 1` keeps `Untouched` for the positions after it. */
    lemma VisitOfUntouched(c0: seq<Child>, order: seq<nat>, kind: Event, n: nat, cs: seq<Child>, inset: Rect)
      requires 0 < n <= |order| && Distinct(order) && forall q :: 0 <= q < |order| ==> order[q] < |c0|
      requires Untouched(c0, cs, order, n - 1)
      ensures Untouched(c0, VisitOf(cs, order, n - 1, kind, inset).cs, order, n)
    {
      var i := n - 1;
      var v := VisitOf(cs, order, i, kind, inset);
      VisitOfShape(cs, order, i, kind, inset);
      forall q | n <= q < |order|
        ensures Unflagged(v.cs[order[q]]) == Unflagged(c0[order[q]])
      {
        assert order[q] != order[i];
      }
    }

    /**
     * The visit a pass records at position `j`: nothing for a child GONE on
     * pre-draw, otherwise the child's inset edges and its child rectangle once
     * re-anchored in the children as the pass had left them on reaching `j`.
     */
    function Contributed(c0: seq<Child>, order: seq<nat>, kind: Event, j: nat): Contribution
      requires j < |order| && forall p :: 0 <= p < |order| ==> order[p] < |c0|
    {
      var k := order[j];
      if kind == PreDraw && c0[k].visibility == Gone then Contribution(NoEdges, EmptyRect)
      else Contribution(c0[k].lp.insetEdge, ChildRect(ReanchorRun(PassRun(c0, order, kind, j).cs, order, k, j).0[k]))
    }

    /** The visit a pass records at position `j` is the one `Contributed` names. */
    lemma {:induction false} PassRunVisit(c0: seq<Child>, order: seq<nat>, kind: Event, n: nat, j: nat)
      requires n <= |order| && Distinct(order) && forall p :: 0 <= p < |order| ==> order[p] < |c0|
      requires j < |PassRun(c0, order, kind, n).visits|
      ensures j < n && PassRun(c0, order, kind, n).visits[j] == Contributed(c0, order, kind, j)
      decreases n
    {
      PassRunLength(c0, order, kind, n);
      if j < |PassRun(c0, order, kind, n - 1).visits| {
        PassRunVisit(c0, order, kind, n - 1, j);
        PassRunKeepsVisit(c0, order, kind, n, j);
      } else {
        PassRunAddsVisit(c0, order, kind, n, j);
      }
    }

    /** A visit recorded over `n - 1` positions stays recorded over `n`. */
    lemma PassRunKeepsVisit(c0: seq<Child>, order: seq<nat>, kind: Event, n: nat, j: nat)
      requires 0 < n <= |order| && forall p :: 0 <= p < |order| ==> order[p] < |c0|
      requires j < |PassRun(c0, order, kind, n - 1).visits|
      ensures j < |PassRun(c0, order, kind, n).visits|
      ensures PassRun(c0, order, kind, n).visits[j] == PassRun(c0, order, kind, n - 1).visits[j]
    {
      var prev := PassRun(c0, order, kind, n - 1);
      PassStepKeepsVisits(prev, order, kind, n - 1);
      PassRunNext(c0, order, kind, n);
    }

    /** A visit recorded over `n` positions but not over `n - 1` is position `n - 1`'s, as `Contributed` names it. */
    lemma PassRunAddsVisit(c0: seq<Child>, order: seq<nat>, kind: Event, n: nat, j: nat)
      requires 0 < n <= |order| && Distinct(order) && forall p :: 0 <= p < |order| ==> order[p] < |c0|
      requires |PassRun(c0, order, kind, n - 1).visits| <= j < |PassRun(c0, order, kind, n).visits|
      ensures j == n - 1 && PassRun(c0, order, kind, n).visits[j] == Contributed(c0, order, kind, j)
    {
      PassRunGrows(c0, order, kind, n, j);
      PassRunNewVisit(c0, order, kind, n);
    }

    /** A pass over `n` positions that records more visits than over `n - 1` records exactly `n`. */
    lemma PassRunGrows(c0: seq<Child>, order: seq<nat>, kind: Event, n: nat, j: nat)
      requires 0 < n <= |order| && forall p :: 0 <= p < |order| ==> order[p] < |c0|
      requires |PassRun(c0, order, kind, n - 1).visits| <= j < |PassRun(c0, order, kind, n).visits|
      ensures j == n - 1 && |PassRun(c0, order, kind, n - 1).visits| == n - 1
    {
      PassRunLength(c0, order, kind, n);
      PassRunLength(c0, order, kind, n - 1);
      var p := PassRun(c0, order, kind, n - 1);
      PassRunNext(c0, order, kind, n);
    }

    /** The visit position `n - 1` adds to a pass is the one `Contributed` names. */
    lemma PassRunNewVisit(c0: seq<Child>, order: seq<nat>, kind: Event, n: nat)
      requires 0 < n <= |order| && Distinct(order) && forall p :: 0 <= p < |order| ==> order[p] < |c0|
      requires |PassRun(c0, order, kind, n - 1).visits| == n - 1 < |PassRun(c0, order, kind, n).visits|
      ensures PassRun(c0, order, kind, n).visits[n - 1] == Contributed(c0, order, kind, n - 1)
    {
      PassRunShape(c0, order, kind, n - 1);
      var p := PassRun(c0, order, kind, n - 1);
      PassStepNewVisit(c0, order, kind, n - 1, p);
      PassRunNext(c0, order, kind, n);
    }

    /**
     * One position of a pass keeps the visits recorded before it and adds at
     * most one, and exactly one when it ends without error.
     */
    lemma PassStepKeepsVisits(p: PassOutcome, order: seq<nat>, kind: Event, i: nat)
      requires i < |order| && forall q :: 0 <= q < |order| ==> order[q] < |p.cs|
      ensures var r := PassStep(p, order, kind, i);
        && |p.visits| <= |r.visits| <= |p.visits| + 1
        && (forall j :: 0 <= j < |p.visits| ==> r.visits[j] == p.visits[j])
        && (r.err.None? ==> p.err.None? && |r.visits| == |p.visits| + 1)
        && (|r.visits| > |p.visits| ==> p.err.None?)
    {
    }

    /** The visit position `n` adds to a pass that has not failed is the one `Contributed` names. */
    lemma PassStepNewVisit(c0: seq<Child>, order: seq<nat>, kind: Event, n: nat, p: PassOutcome)
      requires n < |order| && forall q :: 0 <= q < |order| ==> order[q] < |c0|
      requires p == PassRun(c0, order, kind, n) && SameChildren(c0, p.cs) && |p.visits| == n
      requires |PassStep(p, order, kind, n).visits| > n
      ensures PassStep(p, order, kind, n).visits[n] == Contributed(c0, order, kind, n)
    {
      assert Fixed(p.cs[order[n]]) == Fixed(c0[order[n]]);
    }

    /**
     * A pass over `n` positions records at most `n` visits, exactly `n` when no
     * visit fails, and its last position adds a visit only to a pass that had
     * recorded all the earlier ones.
     */
    lemma {:induction false} PassRunLength(c0: seq<Child>, order: seq<nat>, kind: Event, n: nat)
      requires n <= |order| && forall p :: 0 <= p < |order| ==> order[p] < |c0|
      ensures |PassRun(c0, order, kind, n).visits| <= n
      ensures PassRun(c0, order, kind, n).err.None? ==> |PassRun(c0, order, kind, n).visits| == n
      decreases n
    {
      if n == 0 {
        assert PassRun(c0, order, kind, n) == PassOutcome(c0, None, [], EmptyRect, []);
      } else {
        PassRunLength(c0, order, kind, n - 1);
        var p := PassRun(c0, order, kind, n - 1);
        PassStepLength(p, order, kind, n);
        PassRunNext(c0, order, kind, n);
      }
    }

    /** One position of a pass keeps at most one visit per position, and one per position while no visit fails. */
    lemma PassStepLength(p: PassOutcome, order: seq<nat>, kind: Event, n: nat)
      requires 0 < n <= |order| && forall q :: 0 <= q < |order| ==> order[q] < |p.cs|
      requires |p.visits| <= n - 1 && (p.err.None? ==> |p.visits| == n - 1)
      ensures var r := PassStep(p, order, kind, n - 1); |r.visits| <= n && (r.err.None? ==> |r.visits| == n)
    {
    }

    /**
     * A child that no earlier position holds the anchor's direct child of is not
     * re-anchored: the pass records its child rectangle from before the pass.
     */
    lemma PassDrawOfUnanchoredChild(c0: seq<Child>, order: seq<nat>, kind: Event, n: nat, j: nat)
      requires n <= |order| && Distinct(order) && forall p :: 0 <= p < |order| ==> order[p] < |c0|
      requires j < n && j < |PassRun(c0, order, kind, n).visits|
      requires !(kind == PreDraw && c0[order[j]].visibility == Gone)
      requires forall e :: 0 <= e < j ==> c0[order[j]].lp.anchorDirectChild != Some(c0[order[e]].view)
      ensures PassRun(c0, order, kind, n).visits[j] == Contribution(c0[order[j]].lp.insetEdge, ChildRect(c0[order[j]]))
    {
      PassRunVisit(c0, order, kind, n, j);
      var k := order[j];
      var s := PassRun(c0, order, kind, j).cs;
      PassRunShape(c0, order, kind, j);
      assert forall m :: 0 <= m < |c0| ==> Fixed(s[m]).view == Fixed(c0[m]).view;
      ReanchorRunShape(s, order, k, j);
    }

    /**
     * A laid-out child of its measured size, not its own anchor, that some
     * earlier position holds the anchor's direct child of: the pass records its
     * anchored position, computed from the anchor's rectangle as the pass had
     * left it on reaching the child.
     */
    lemma PassDrawOfAnchoredChild(c0: seq<Child>, order: seq<nat>, kind: Event, n: nat, j: nat)
      requires n <= |order| && Distinct(order) && forall p :: 0 <= p < |order| ==> order[p] < |c0|
      requires j < n && j < |PassRun(c0, order, kind, n).visits|
      requires var c := c0[order[j]];
        && !c.layoutRequested && c.visibility != Gone
        && c.frame.Width() == c.measuredWidth && c.frame.Height() == c.measuredHeight
        && c.lp.anchorView.Some? && c.lp.anchorView.value != c.view
      requires exists e :: 0 <= e < j && c0[order[j]].lp.anchorDirectChild == Some(c0[order[e]].view)
      ensures var c := c0[order[j]];
        var anchor := DescendantRect(PassRun(c0, order, kind, j).cs, tree, c.lp.anchorView.value);
        PassRun(c0, order, kind, n).visits[j].draw == OffsetToAnchor(box, rtl, c, anchor).frame
    {
      PassRunVisit(c0, order, kind, n, j);
      var k := order[j];
      var s := PassRun(c0, order, kind, j).cs;
      PassRunShape(c0, order, kind, j);
      assert forall m :: 0 <= m < |c0| ==> Fixed(s[m]).view == Fixed(c0[m]).view;
      var e :| 0 <= e < j && c0[k].lp.anchorDirectChild == Some(c0[order[e]].view);
      assert s[k].lp.anchorDirectChild == Some(s[order[e]].view);
      ReanchorRunSettles(s, order, k, j);
      ReanchorRunShape(s, order, k, j);
    }

    // -------------------------------------------------------------------
    // onChildViewsChanged

    /**
     * The notification loop of `onChildViewsChanged` for the child at position `i`
     * of the sorted list, whose view is `dep`: every later child reacts as `Notify`
     * says, in order, and no other child changes.
     */
    method NotifyDependents(i: nat, kind: Event, dep: View) returns (calls: seq<HookCall>)
      requires Valid() && i < |sorted|
      modifies this`children
      ensures (children, calls) == NotifyRun(hooks, old(children), sorted, i + 1, |sorted|, kind, dep)
      ensures SameChildren(old(children), children) && SameRecords(old(children), children)
    {
      ghost var c0 := children;
      var cs := children;
      calls := [];
      var j := i + 1;
      while j < |sorted|
        invariant i + 1 <= j <= |sorted| && |cs| == |c0|
        invariant (cs, calls) == NotifyRun(hooks, c0, sorted, i + 1, j, kind, dep)
      {
        var k := sorted[j];
        var r := Notify(hooks, cs[k], kind, dep);
        cs := cs[k := r.0];
        calls := calls + r.1;
        j := j + 1;
      }
      NotifyRunShape(hooks, c0, sorted, i + 1, |sorted|, kind, dep);
      children := cs;
    }

    /**
     * The first inner loop of `onChildViewsChanged`: the child at position `i`
     * is re-offset to its anchor for every earlier child that is its anchor's
     * direct child. Only its frame changes, and its behavior is the only one told.
     */
    method OffsetToEarlierAnchors(i: nat) returns (calls: seq<HookCall>)
      requires Valid() && i < |sorted|
      modifies this`children
      ensures var k := sorted[i];
        |children| == |old(children)| && children == old(children)[k := old(children[k]).(frame := children[k].frame)]
      ensures children[sorted[i]].frame.Width() == old(children[sorted[i]]).frame.Width()
      ensures children[sorted[i]].frame.Height() == old(children[sorted[i]]).frame.Height()
      ensures SameChildren(old(children), children) && SameRecords(old(children), children)
      ensures var c := old(children[sorted[i]]);
        forall q :: q in calls ==>
          c.lp.behavior.Some? && c.lp.anchorView.Some? && q == DependentViewChanged(c.lp.behavior.value, c.view, c.lp.anchorView.value)
      ensures (forall j :: 0 <= j < i ==> old(children[sorted[i]]).lp.anchorDirectChild != Some(old(children[sorted[j]]).view)) ==>
        calls == [] && children == old(children)
      ensures (children, calls) == ReanchorRun(old(children), sorted, sorted[i], i)
    {
      ghost var c0 := children;
      var k := sorted[i];
      calls := [];
      var j := 0;
      while j < i
        invariant 0 <= j <= i && |children| == |c0|
        invariant (children, calls) == ReanchorRun(c0, sorted, k, j)
      {
        if children[k].lp.anchorDirectChild == Some(children[sorted[j]].view) {
          var more := OffsetChildToAnchor(k);
          calls := calls + more;
        }
        j := j + 1;
      }
      ReanchorRunShape(c0, sorted, k, i);
    }

    /**
     * The body of the outer loop of `onChildViewsChanged` for the child at
     * position `i`, which is visited: re-offset to its anchor, its draw rectangle
     * added to `inset`, dodging, recording and notifying its dependents. Only that
     * child's recorded rectangle changes: to the draw rectangle, except on removal
     * or when dodging fails.
     */
    method VisitChild(i: nat, kind: Event, inset: Rect)
      returns (err: Option<EngineError>, calls: seq<HookCall>, inset': Rect, draw: Rect)
      requires Valid() && i < |sorted|
      modifies this`children
      ensures Visited(old(children), children, sorted[i], kind, err.None?, draw)
      ensures var c := old(children[sorted[i]]);
        && (c.layoutRequested || c.visibility == Gone ==> draw == EmptyRect)
        && (!c.layoutRequested && c.visibility != Gone ==>
              draw.Width() == c.frame.Width() && draw.Height() == c.frame.Height())
      ensures inset' == AccumulateInset(inset, old(children[sorted[i]]).lp.insetEdge, draw, box.width, box.height)
      ensures VisitOutcome(children, err, calls, inset', draw) == VisitOf(old(children), sorted, i, kind, inset)
    {
      var k := sorted[i];
      calls := OffsetToEarlierAnchors(i);
      var c := children[k];
      draw := ChildRect(c);
      inset' := AccumulateInset(inset, c.lp.insetEdge, draw, box.width, box.height);
      ghost var moved := children;
      var more;
      err, more := DodgeRecordNotify(i, kind, inset', draw);
      calls := calls + more;
      MoveThenVisit(old(children), moved, children, k, kind, err.None?, draw);
    }

    /**
     * The rest of a visit: the child at position `i` dodges `inset` when it
     * dodges any edge and is VISIBLE; then, except on removal, `draw` is recorded
     * and dependents are notified only if it differs from the recorded rectangle;
     * on removal they are always notified.
     */
    method DodgeRecordNotify(i: nat, kind: Event, inset: Rect, draw: Rect)
      returns (err: Option<EngineError>, calls: seq<HookCall>)
      requires Valid() && i < |sorted|
      modifies this`children
      ensures Visited(old(children), children, sorted[i], kind, err.None?, draw)
      ensures (children, err, calls) == RestOfVisit(old(children), sorted, i, kind, inset, draw)
    {
      var k := sorted[i];
      var c := children[k];
      err := None;
      calls := [];
      if !c.lp.dodgeInsetEdges.IsNone() && c.visibility == Visible {
        err := OffsetChildByInset(k, inset);
      }
      if err.None? {
        ghost var moved := children;
        calls := RecordAndNotify(i, kind, draw, c.view);
        MoveThenVisit(old(children), moved, children, k, kind, true, draw);
      }
    }

    /**
     * Except on removal, `draw` becomes the record of the child at position `i`
     * and its dependents are told about `dep` only if that changes the record;
     * on removal they are always told.
     */
    method RecordAndNotify(i: nat, kind: Event, draw: Rect, dep: View) returns (calls: seq<HookCall>)
      requires Valid() && i < |sorted|
      modifies this`children
      ensures Visited(old(children), children, sorted[i], kind, true, draw)
      ensures kind != ViewRemoved && old(children[sorted[i]]).lp.lastChildRect == draw ==> calls == []
      ensures (children, calls) == RecordStep(old(children), sorted, i, kind, draw, dep)
    {
      var k := sorted[i];
      if kind != ViewRemoved {
        var record := RecordChildRect(kind, children[k].lp.lastChildRect, draw);
        children := children[k := children[k].(lp := children[k].lp.(lastChildRect := record.last))];
        if record.notify {
          calls := NotifyDependents(i, kind, dep);
        } else {
          calls := [];
        }
      } else {
        calls := NotifyDependents(i, kind, dep);
      }
    }

    /**
     * One position `i` of the outer loop of `onChildViewsChanged`, taking the
     * calls, inset and visits so far: a skipped child adds a neutral visit, any
     * other is visited as `VisitChild` says.
     */
    method PassStepAt(i: nat, kind: Event, calls: seq<HookCall>, inset: Rect, ghost visits: seq<Contribution>,
                      ghost c0: seq<Child>)
      returns (err: Option<EngineError>, calls': seq<HookCall>, inset': Rect, ghost visits': seq<Contribution>)
      requires Valid() && i < |sorted| && |c0| == |children|
      requires PassRun(c0, sorted, kind, i) == PassOutcome(children, None, calls, inset, visits)
      modifies this`children
      ensures PassOutcome(children, err, calls', inset', visits') ==
              PassStep(PassOutcome(old(children), None, calls, inset, visits), sorted, kind, i)
      ensures |children| == |c0|
      ensures PassRun(c0, sorted, kind, i + 1) == PassOutcome(children, err, calls', inset', visits')
    {
      var k := sorted[i];
      ghost var cs := children;
      err, calls', inset', visits' := None, calls, inset, visits;
      if kind == PreDraw && children[k].visibility == Gone {
        visits' := visits + [Contribution(NoEdges, EmptyRect)];
      } else {
        var more, draw;
        err, more, inset', draw := VisitChild(i, kind, inset);
        calls' := calls + more;
        if err.None? {
          visits' := visits + [Contribution(cs[k].lp.insetEdge, draw)];
        }
      }
      assert PassRun(c0, sorted, kind, i + 1) == PassStep(PassRun(c0, sorted, kind, i), sorted, kind, i);
    }

    /**
     * `onChildViewsChanged`. In dependency order, each child (GONE ones skipped
     * on pre-draw) is visited as `VisitChild` says. `visits` holds, per position
     * of the sorted list reached, the inset edges and draw rectangle of the child
     * there (nothing, for a skipped child); `PassStateMeans` spells out what the
     * final pass state says about the records. On success every position is
     * reached and the inset is the accumulation of the visits. The whole outcome
     * is the pass as a value, `PassRun`.
     */
    method OnChildViewsChanged(kind: Event)
      returns (err: Option<EngineError>, calls: seq<HookCall>, inset: Rect, ghost visits: seq<Contribution>)
      requires Valid()
      modifies this`children
      ensures Valid()
      ensures PassState(old(children), children, sorted, kind, |visits|, visits)
      ensures err.None? ==> |visits| == |sorted| && inset == InsetOf(visits, box.width, box.height)
      ensures PassRun(old(children), sorted, kind, |sorted|) == PassOutcome(children, err, calls, inset, visits)
    {
      ghost var c0 := children;
      ghost var reached;
      err, calls, inset, visits, reached := VisitAll(kind);
      if err.Some? {
        PassRunHalts(c0, sorted, kind, reached, |sorted|);
      }
      PassRunState(c0, sorted, kind, |sorted|);
    }

    /**
     * The outer loop of `onChildViewsChanged`: the children in dependency order,
     * one position at a time, until one visit fails.
     */
    method VisitAll(kind: Event)
      returns (err: Option<EngineError>, calls: seq<HookCall>, inset: Rect, ghost visits: seq<Contribution>,
               ghost reached: nat)
      requires Valid()
      modifies this`children
      ensures Valid()
      ensures reached <= |sorted| && (err.None? ==> reached == |sorted|)
      ensures PassRun(old(children), sorted, kind, reached) == PassOutcome(children, err, calls, inset, visits)
    {
      ghost var c0 := children;
      err := None;
      calls := [];
      inset := EmptyRect;
      visits := [];
      var i := 0;
      assert PassRun(c0, sorted, kind, 0) == PassOutcome(children, err, calls, inset, visits);
      while i < |sorted| && err.None?
        invariant i <= |sorted| && |children| == |c0|
        invariant PassRun(c0, sorted, kind, i) == PassOutcome(children, err, calls, inset, visits)
      {
        err, calls, inset, visits := PassStepAt(i, kind, calls, inset, visits, c0);
        i := i + 1;
      }
      reached := i;
    }
  }
}
