/**
 * Anchor resolution of `CoordinatorLayout.LayoutParams`: `findAnchorView`,
 * `resolveAnchorView` and `verifyAnchorView`, which walk up the ancestors of the
 * anchor view to find the direct child of the container that holds it.
 */
module Anchors {
  import opened Common
  import opened Geometry
  import opened Params

  /**
   * The view hierarchy as anchor lookup sees it. `parent` is `getParent()` (absent
   * means null) and `depth` strictly decreases towards the top, which bounds every
   * walk up the tree. `byId` is what `findViewById` on the container returns.
   */
  datatype ViewTree = ViewTree(
    root: View,
    parent: map<View, View>,
    depth: map<View, nat>,
    id: map<View, int>,
    byId: map<int, View>,
    frame: map<View, Rect>)

  ghost predicate WellFormed(t: ViewTree) {
    forall v :: v in t.parent ==> v in t.depth && t.parent[v] in t.depth && t.depth[t.parent[v]] < t.depth[v]
  }

  /** `findViewById` only returns views that carry the id asked for. */
  ghost predicate IdsAgree(t: ViewTree) {
    forall i :: i in t.byId ==> IdOf(t, t.byId[i]) == i
  }

  function ParentOf(t: ViewTree, v: View): Option<View> {
    if v in t.parent then Some(t.parent[v]) else None
  }

  /** `View.getId()`. */
  function IdOf(t: ViewTree, v: View): int {
    if v in t.id then t.id[v] else NoId
  }

  /** `findViewById` on the container. */
  function FindViewById(t: ViewTree, id: int): Option<View> {
    if id in t.byId then Some(t.byId[id]) else None
  }

  /** Termination measure of a walk that is at `p`. */
  function Rank(t: ViewTree, p: Option<View>): nat {
    match p
    case None => 0
    case Some(v) => if v in t.depth then t.depth[v] + 2 else 1
  }

  lemma RankDecreases(t: ViewTree, v: View)
    requires WellFormed(t)
    ensures Rank(t, ParentOf(t, v)) < Rank(t, Some(v))
  {
  }

  /**
   * The ancestors met when walking up from `p`, stopping before the container
   * or at the top of the hierarchy.
   */
  function Chain(t: ViewTree, p: Option<View>): seq<View>
    requires WellFormed(t)
    decreases Rank(t, p)
  {
    match p
    case None => []
    case Some(v) => if v == t.root then [] else RankDecreases(t, v); [v] + Chain(t, ParentOf(t, v))
  }

  /** Whether the walk from `p` reaches the container (rather than null). */
  predicate EndsAtRoot(t: ViewTree, p: Option<View>)
    requires WellFormed(t)
    decreases Rank(t, p)
  {
    match p
    case None => false
    case Some(v) => v == t.root || (RankDecreases(t, v); EndsAtRoot(t, ParentOf(t, v)))
  }

  /** `a` is `v` or one of its ancestors. */
  ghost predicate AncestorOrSelf(t: ViewTree, a: View, v: View)
    requires WellFormed(t)
    decreases Rank(t, Some(v))
  {
    v == a || (v in t.parent && (RankDecreases(t, v); AncestorOrSelf(t, a, t.parent[v])))
  }

  /** How the walk of the resolve and verify loops ends. */
  datatype Walk = ReachedParent(direct: View) | ReachedTop(direct: View) | MetChild

  /**
   * The walk of `resolveAnchorView` and `verifyAnchorView`: from the current
   * ancestor `p`, remembering the last view passed as `direct`, up to the
   * container, to null, or to the anchored child itself.
   */
  function Climb(t: ViewTree, p: Option<View>, forChild: View, direct: View): Walk
    requires WellFormed(t)
    decreases Rank(t, p)
  {
    match p
    case None => ReachedTop(direct)
    case Some(v) =>
      if v == t.root then ReachedParent(direct)
      else if v == forChild then MetChild
      else RankDecreases(t, v); Climb(t, ParentOf(t, v), forChild, v)
  }

  /**
   * The walk meets the anchored child exactly when it is on the chain; otherwise
   * the direct child it reports is the last view of the chain (the anchor itself
   * when the chain is empty), an ancestor-or-self of the anchor whose parent is
   * the container or null, and it reaches the container exactly when the chain does.
   */
  lemma {:induction false} ClimbFollowsChain(t: ViewTree, p: Option<View>, forChild: View, direct: View)
    requires WellFormed(t)
    requires ParentOf(t, direct) == p
    ensures Climb(t, p, forChild, direct).MetChild? <==> forChild in Chain(t, p)
    ensures forChild !in Chain(t, p) ==>
      var w := Climb(t, p, forChild, direct);
      && w.direct == (if Chain(t, p) == [] then direct else Chain(t, p)[|Chain(t, p)| - 1])
      && (w.ReachedParent? <==> EndsAtRoot(t, p))
      && (w.ReachedParent? ==> ParentOf(t, w.direct) == Some(t.root))
      && (w.ReachedTop? ==> ParentOf(t, w.direct) == None)
      && AncestorOrSelf(t, w.direct, direct)
    decreases Rank(t, p)
  {
    match p
    case None =>
    case Some(v) =>
      if v != t.root && v != forChild {
        RankDecreases(t, v);
        ClimbFollowsChain(t, ParentOf(t, v), forChild, v);
        var w := Climb(t, ParentOf(t, v), forChild, v);
        if forChild !in Chain(t, p) {
          assert AncestorOrSelf(t, w.direct, v);
          AncestorOrSelfStep(t, w.direct, direct, v);
        }
      }
  }

  lemma AncestorOrSelfStep(t: ViewTree, a: View, v: View, p: View)
    requires WellFormed(t)
    requires ParentOf(t, v) == Some(p)
    requires AncestorOrSelf(t, a, p)
    ensures AncestorOrSelf(t, a, v)
  {
  }

  /** The container is never its own strict ancestor. */
  lemma {:induction false} RootNotAboveItself(t: ViewTree, p: Option<View>, x: View)
    requires WellFormed(t)
    requires ParentOf(t, x) == p && x in t.depth
    requires EndsAtRoot(t, p)
    ensures t.root in t.depth && t.depth[t.root] < t.depth[x]
    decreases Rank(t, p)
  {
    var v := p.value;
    if v != t.root {
      RankDecreases(t, v);
      RootNotAboveItself(t, ParentOf(t, v), v);
    }
  }

  // ---------------------------------------------------------------------
  // Specification of the three LayoutParams methods

  /** What a resolution leaves in the params, and the exception it throws, if any. */
  datatype Resolution = Resolution(lp: LayoutParams, err: Option<EngineError>)

  /** `mAnchorView = mAnchorDirectChild = null`. */
  function Cleared(lp: LayoutParams): LayoutParams {
    lp.(anchorView := None, anchorDirectChild := None)
  }

  /** In edit mode every failure is a silent clear; otherwise it throws. */
  function Fail(lp: LayoutParams, editMode: bool, e: EngineError): Resolution {
    if editMode then Resolution(Cleared(lp), None) else Resolution(lp, Some(e))
  }

  /** `resolveAnchorView`. */
  function ResolveAnchor(t: ViewTree, editMode: bool, lp: LayoutParams, forChild: View): (r: Resolution)
    requires WellFormed(t)
    ensures Cleared(r.lp) == Cleared(lp)
  {
    var found := FindViewById(t, lp.anchorId);
    var lp1 := lp.(anchorView := found);
    match found
    case None => Fail(lp1, editMode, AnchorNotFound)
    case Some(a) =>
      if a == t.root then Fail(lp1, editMode, AnchoredToParent)
      else match Climb(t, ParentOf(t, a), forChild, a)
        case MetChild => Fail(lp1, editMode, AnchorIsDescendant)
        case ReachedParent(d) => Resolution(lp1.(anchorDirectChild := Some(d)), None)
        case ReachedTop(d) => Resolution(lp1.(anchorDirectChild := Some(d)), None)
  }

  /** `verifyAnchorView`: the params it leaves and whether the cached anchor still holds. */
  function VerifyAnchor(t: ViewTree, lp: LayoutParams, forChild: View): (r: (LayoutParams, bool))
    requires WellFormed(t) && lp.anchorView.Some?
    ensures Cleared(r.0) == Cleared(lp)
  {
    var a := lp.anchorView.value;
    if IdOf(t, a) != lp.anchorId then (lp, false)
    else match Climb(t, ParentOf(t, a), forChild, a)
      case ReachedParent(d) => (lp.(anchorDirectChild := Some(d)), true)
      case _ => (Cleared(lp), false)
  }

  /** `findAnchorView`. */
  function FindAnchor(t: ViewTree, editMode: bool, lp: LayoutParams, forChild: View): (r: Resolution)
    requires WellFormed(t)
    ensures Cleared(r.lp) == Cleared(lp)
    ensures lp.anchorId == NoId ==> r == Resolution(Cleared(lp), None)
    ensures editMode ==> r.err.None?
  {
    if lp.anchorId == NoId then Resolution(Cleared(lp), None)
    else if lp.anchorView.Some? then
      var (lp', ok) := VerifyAnchor(t, lp, forChild);
      if ok then Resolution(lp', None) else ResolveAnchor(t, editMode, lp', forChild)
    else ResolveAnchor(t, editMode, lp, forChild)
  }

  /**
   * A successful resolution with an anchor: the anchor is not the container, the
   * anchored child is not among its ancestors, and the direct child is an
   * ancestor-or-self of the anchor whose parent is the container (or null when
   * the anchor lies outside it).
   */
  lemma FindAnchorSuccess(t: ViewTree, editMode: bool, lp: LayoutParams, forChild: View)
    requires WellFormed(t)
    requires FindAnchor(t, editMode, lp, forChild).err.None?
    requires FindAnchor(t, editMode, lp, forChild).lp.anchorView.Some?
    ensures var r := FindAnchor(t, editMode, lp, forChild).lp;
            var a := r.anchorView.value;
            && a != t.root
            && forChild !in Chain(t, ParentOf(t, a))
            && r.anchorDirectChild.Some?
            && AncestorOrSelf(t, r.anchorDirectChild.value, a)
            && ParentOf(t, r.anchorDirectChild.value) in {Some(t.root), None}
  {
    if lp.anchorView.Some? && VerifyAnchor(t, lp, forChild).1 {
      var a := lp.anchorView.value;
      ClimbFollowsChain(t, ParentOf(t, a), forChild, a);
      if a == t.root {
        // Only a cached anchor can be the container, and its walk never comes back to it.
        RootNotAboveItself(t, ParentOf(t, a), a);
      }
    } else {
      var lp' := if lp.anchorView.Some? then VerifyAnchor(t, lp, forChild).0 else lp;
      ResolveSuccess(t, editMode, lp', forChild);
    }
  }

  lemma ResolveSuccess(t: ViewTree, editMode: bool, lp: LayoutParams, forChild: View)
    requires WellFormed(t)
    requires ResolveAnchor(t, editMode, lp, forChild).err.None?
    requires ResolveAnchor(t, editMode, lp, forChild).lp.anchorView.Some?
    ensures var r := ResolveAnchor(t, editMode, lp, forChild).lp;
            var a := r.anchorView.value;
            && a != t.root
            && forChild !in Chain(t, ParentOf(t, a))
            && r.anchorDirectChild.Some?
            && AncestorOrSelf(t, r.anchorDirectChild.value, a)
            && ParentOf(t, r.anchorDirectChild.value) in {Some(t.root), None}
  {
    var a := FindViewById(t, lp.anchorId).value;
    ClimbFollowsChain(t, ParentOf(t, a), forChild, a);
  }

  /**
   * The three errors of a first resolution (no cached anchor) outside edit mode:
   * the id is not found, it names the container, or the anchored child is an
   * ancestor of the anchor. Without any of them the resolution succeeds.
   */
  lemma FirstResolutionErrors(t: ViewTree, lp: LayoutParams, forChild: View)
    requires WellFormed(t)
    requires lp.anchorId != NoId && lp.anchorView.None?
    ensures var r := FindAnchor(t, false, lp, forChild);
            var found := FindViewById(t, lp.anchorId);
            && (r.err == Some(AnchorNotFound) <==> found.None?)
            && (r.err == Some(AnchoredToParent) <==> found == Some(t.root))
            && (r.err == Some(AnchorIsDescendant) <==>
                  found.Some? && found.value != t.root && forChild in Chain(t, ParentOf(t, found.value)))
            && (r.err.None? ==> r.lp.anchorView == found)
  {
    var found := FindViewById(t, lp.anchorId);
    if found.Some? && found.value != t.root {
      ClimbFollowsChain(t, ParentOf(t, found.value), forChild, found.value);
    }
  }

  /**
   * The same first resolution in edit mode: each of the three errors is
   * swallowed and both anchor fields are cleared, while the anchor id stays
   * set. So `checkAnchorChanged` holds for the cleared parameters, and the
   * next `onLayoutChild` throws. Without an error, edit mode changes nothing.
   */
  lemma FirstResolutionInEditMode(t: ViewTree, lp: LayoutParams, forChild: View)
    requires WellFormed(t)
    requires lp.anchorId != NoId && lp.anchorView.None?
    ensures var r := FindAnchor(t, true, lp, forChild);
            var found := FindViewById(t, lp.anchorId);
            var fails := found.None? || found == Some(t.root) ||
                         forChild in Chain(t, ParentOf(t, found.value));
            && (fails ==> && r.err.None? && r.lp.anchorView.None? && r.lp.anchorDirectChild.None?
                          && r.lp.anchorId == lp.anchorId && CheckAnchorChanged(r.lp))
            && (!fails ==> r == FindAnchor(t, false, lp, forChild) && r.lp.anchorView == found)
  {
    var found := FindViewById(t, lp.anchorId);
    if found.Some? && found.value != t.root {
      ClimbFollowsChain(t, ParentOf(t, found.value), forChild, found.value);
    }
  }

  /**
   * A resolution whose direct child hangs off the container is kept by the next
   * `findAnchorView`: the cached anchor verifies and nothing changes.
   */
  lemma ResolutionIsStable(t: ViewTree, editMode: bool, lp: LayoutParams, forChild: View)
    requires WellFormed(t) && IdsAgree(t)
    requires FindAnchor(t, editMode, lp, forChild).err.None?
    requires FindAnchor(t, editMode, lp, forChild).lp.anchorView.Some?
    requires var d := FindAnchor(t, editMode, lp, forChild).lp.anchorDirectChild;
             d.Some? && ParentOf(t, d.value) == Some(t.root)
    ensures var r := FindAnchor(t, editMode, lp, forChild);
            FindAnchor(t, editMode, r.lp, forChild) == r
  {
    var r := FindAnchor(t, editMode, lp, forChild);
    var a := r.lp.anchorView.value;
    FindAnchorSuccess(t, editMode, lp, forChild);
    ClimbFollowsChain(t, ParentOf(t, a), forChild, a);
    assert IdOf(t, a) == lp.anchorId;
  }

  // ---------------------------------------------------------------------
  // The imperative walks
  //
  // The source climbs the parent chain with a `while` loop. `ClimbFrom` keeps
  // that loop, and the three methods below are the source's methods written
  // around it; each is proved to return exactly what its functional
  // counterpart above returns, so the lemmas about those functions hold for
  // the methods too.

  /** The loop shared by `resolveAnchorView` and `verifyAnchorView`. */
  method ClimbFrom(t: ViewTree, anchor: View, forChild: View) returns (w: Walk)
    requires WellFormed(t)
    ensures w == Climb(t, ParentOf(t, anchor), forChild, anchor)
  {
    var direct := anchor;
    var p := ParentOf(t, anchor);
    while p.Some? && p.value != t.root && p.value != forChild
      invariant Climb(t, p, forChild, direct) == Climb(t, ParentOf(t, anchor), forChild, anchor)
      decreases Rank(t, p)
    {
      RankDecreases(t, p.value);
      direct := p.value;
      p := ParentOf(t, p.value);
    }
    if p.None? {
      w := ReachedTop(direct);
    } else if p.value == t.root {
      w := ReachedParent(direct);
    } else {
      w := MetChild;
    }
  }

  /** `resolveAnchorView`, running the walk with the loop of `ClimbFrom`; equal to `ResolveAnchor`. */
  method ResolveAnchorView(t: ViewTree, editMode: bool, lp: LayoutParams, forChild: View)
    returns (r: LayoutParams, err: Option<EngineError>)
    requires WellFormed(t)
    ensures Resolution(r, err) == ResolveAnchor(t, editMode, lp, forChild)
  {
    var found := FindViewById(t, lp.anchorId);
    r := lp.(anchorView := found);
    err := None;
    if found.Some? {
      if found.value == t.root {
        if editMode {
          r := Cleared(r);
        } else {
          err := Some(AnchoredToParent);
        }
        return;
      }
      var w := ClimbFrom(t, found.value, forChild);
      if w.MetChild? {
        if editMode {
          r := Cleared(r);
        } else {
          err := Some(AnchorIsDescendant);
        }
        return;
      }
      r := r.(anchorDirectChild := Some(w.direct));
    } else {
      if editMode {
        r := Cleared(r);
      } else {
        err := Some(AnchorNotFound);
      }
    }
  }

  /** `verifyAnchorView`, running the walk with the loop of `ClimbFrom`; equal to `VerifyAnchor`. */
  method VerifyAnchorView(t: ViewTree, lp: LayoutParams, forChild: View) returns (r: LayoutParams, ok: bool)
    requires WellFormed(t) && lp.anchorView.Some?
    ensures (r, ok) == VerifyAnchor(t, lp, forChild)
  {
    r := lp;
    if IdOf(t, lp.anchorView.value) != lp.anchorId {
      return r, false;
    }
    var w := ClimbFrom(t, lp.anchorView.value, forChild);
    if w.ReachedParent? {
      r := r.(anchorDirectChild := Some(w.direct));
      ok := true;
    } else {
      r := Cleared(r);
      ok := false;
    }
  }

  /** `findAnchorView` over the two methods above; equal to `FindAnchor`. */
  method FindAnchorView(t: ViewTree, editMode: bool, lp: LayoutParams, forChild: View)
    returns (r: LayoutParams, err: Option<EngineError>)
    requires WellFormed(t)
    ensures Resolution(r, err) == FindAnchor(t, editMode, lp, forChild)
  {
    if lp.anchorId == NoId {
      return Cleared(lp), None;
    }
    r := lp;
    var ok := false;
    if r.anchorView.Some? {
      r, ok := VerifyAnchorView(t, r, forChild);
    }
    if ok {
      err := None;
    } else {
      r, err := ResolveAnchorView(t, editMode, r, forChild);
    }
  }
}
