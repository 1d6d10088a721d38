# CoordinatorLayout engine and HideBottomViewOnScrollBehavior, in Dafny

This project models the core of a Java port of AndroidX `CoordinatorLayout` and the
Material `HideBottomViewOnScrollBehavior`, and proves properties of the model.

`CoordinatorLayout` is a view group. It lays out its children relative to one another
through anchors, keylines, inset edges and pluggable behaviors. It works in four steps:

- **Dependency graph.** Before each measurement it resolves every child's anchor
  (`findAnchorView`) and builds a graph of which child depends on which (`prepareChildren`).
- **Measurement.** It measures the children in dependency order, taking the largest size any
  of them needs (`onMeasure`).
- **Layout.** It lays each child out by its anchor, its keyline or its gravity (`onLayout`).
- **Change pass.** On a pre-draw, a nested scroll or a view removal, it re-runs the change
  pass (`onChildViewsChanged`). For each child in dependency order, the pass:
  - moves the child back onto its anchor;
  - adds the child's inset edge to the running inset rectangle;
  - shifts the child clear of the inset edges it dodges;
  - notifies the behaviors that depend on the child. For a view removal it always does so;
    otherwise only if the child's draw rectangle changed.

`HideBottomViewOnScrollBehavior` is a two-state machine, SCROLLED_UP or SCROLLED_DOWN.
It slides its child off the bottom edge when content scrolls down and back when content
scrolls up. Each confirmed change of state is reported to its listeners in registration
order.

Files:
- `common.dfy`: `Option`, `Math.max`/`min`, distinctness, `Collections.reverse`.
- `geometry.dfy`: `Rect` as a value, Java's truncating division, and the clamp.
- `gravity.dfy`: gravity as one enumeration per axis, and inset and dodge edges as four
  flags. Lemmas show that these views agree with the bit tests the engine performs on the
  real Android constants.
- `placement.dfy`: keylines, the anchored rectangle, and the clamp into the content area.
- `params.dfy`: the child record and `LayoutParams` with its pure operations, the behavior
  hooks as a record of functions, and the exceptions.
- `anchors.dfy`: the view tree and anchor resolution, both as specification functions and
  as methods with the source's loops.
- `propagation.dfy`: the per-child rules of the change pass, as functions.
- `coordinator.dfy`: the class `CoordinatorLayout`. Its fields (the children, the sorted list,
  the graph and the keylines) are updated in place by `PrepareChildren`, `OnMeasure`,
  `OnLayout`, `OffsetChildByInset`, `OffsetChildToAnchor` and `OnChildViewsChanged`.
- `hidebottom.dfy`: the classes `HideBottomViewOnScrollBehavior` and `BottomView`. Each
  state-changing method is specified by a function (`SlideTo` or `WithHiddenOffset`) of a
  snapshot of the observable state.

Where the component's documented behaviour and the code disagree, the model follows the code:
- **Dependencies from inset edges.** A child depends on another through inset edges only
  when every inset edge of the other is among the edges it dodges. Overlapping edges are not
  enough (`SubsetMatchesBits`).
- **Bottom inset.** A child with a BOTTOM inset edge contributes the container height minus
  its draw rectangle's **top**, not its bottom (`BottomInsetExample`).
- **A child anchored with anchor gravity TOP and gravity TOP.** Such a child ends above its
  anchor: its bottom, not its top, is the anchor's top (`AnchoredAboveAnchor`).
- **When re-anchoring notifies.** `offsetChildToAnchor` notifies the behavior when the
  *unclamped* position differs from where the child is. It does so even when the clamp then
  leaves the child where it was (`ChangedWithoutMoving`).
- **Anchor errors in edit mode.** In edit mode a failed resolution is not treated as "no
  anchor": both anchor fields are cleared but the anchor id is kept. So `checkAnchorChanged`
  then holds, and the next `onLayoutChild` of that child fails (`FirstResolutionInEditMode`).

## Model

Source paths are relative to the repository root.

| member | source | states |
|---|---|---|
| Common.Reverse | src/main/java/androidx/coordinatorlayout/widget/CoordinatorLayout.java:77-78 | the reversed list has the same length, and element k is element n-1-k of the original |
| Geometry.Rect.Offset | src/main/java/androidx/coordinatorlayout/widget/CoordinatorLayout.java:489-504 | an offset moves the left and top edges by exactly dx and dy and keeps the width and height |
| Geometry.Div | src/main/java/androidx/coordinatorlayout/widget/CoordinatorLayout.java:211-245 | Java division by a positive divisor truncates toward zero: the remainder takes the sign of the dividend and is smaller than the divisor |
| Geometry.DivIsOdd | src/main/java/androidx/coordinatorlayout/widget/CoordinatorLayout.java:211-245 | halving a negative size rounds toward zero: Div(-a, b) == -Div(a, b) |
| Geometry.Clamp | src/main/java/androidx/coordinatorlayout/widget/CoordinatorLayout.java:253-254 | max(lo, min(x, hi)) is at least lo, at most hi when lo <= hi, x itself inside the range, and lo when x is below it; an empty range yields lo |
| Geometry.ClampIdempotent | src/main/java/androidx/coordinatorlayout/widget/CoordinatorLayout.java:253-254 | clamping twice gives the same value as clamping once |
| Gravity.Absolute | src/main/java/androidx/coordinatorlayout/widget/CoordinatorLayout.java:194-195 | absolute gravity has no START or END, keeps the vertical part, and keeps any horizontal gravity that was already absolute |
| Gravity.AbsoluteMirrors | src/main/java/androidx/coordinatorlayout/widget/CoordinatorLayout.java:194-195 | START and END resolve to LEFT or RIGHT, and to opposite sides under LTR and RTL |
| Gravity.ResolveGravity | src/main/java/androidx/coordinatorlayout/widget/CoordinatorLayout.java:333-341 | each axis left at NO_GRAVITY defaults on its own (START horizontally, TOP vertically); an axis that was set is kept |
| Gravity.ResolveKeylineGravity | src/main/java/androidx/coordinatorlayout/widget/CoordinatorLayout.java:342-344 | only a gravity unset on both axes becomes END and TOP; any other gravity is returned unchanged |
| Gravity.ResolveAnchoredChildGravity | src/main/java/androidx/coordinatorlayout/widget/CoordinatorLayout.java:345-347 | only a gravity unset on both axes becomes CENTER; any other gravity is returned unchanged |
| Gravity.ResolveGravityIdempotent | src/main/java/androidx/coordinatorlayout/widget/CoordinatorLayout.java:333-341 | resolving an already resolved gravity changes nothing |
| Gravity.NoGravityMatchesBits | src/main/java/androidx/coordinatorlayout/widget/CoordinatorLayout.java:333-347 | the masked NO_GRAVITY tests on the Android bit constants hold exactly when the enumeration axis (or the whole gravity) is unset |
| Gravity.SubsetMatchesBits | src/main/java/androidx/coordinatorlayout/widget/CoordinatorLayout.java:736-740 | the `shouldDodge` bit test holds exactly when the other child's inset edges are non-empty and all of them are dodged |
| Gravity.InsetSwitchMatchesBits | src/main/java/androidx/coordinatorlayout/widget/CoordinatorLayout.java:367-384 | the TOP/BOTTOM and LEFT/RIGHT switch cases of inset accumulation fire exactly when that edge, and not the opposite one, is in the mask |
| Gravity.DodgeTestMatchesBits | src/main/java/androidx/coordinatorlayout/widget/CoordinatorLayout.java:450-483 | each `(absDodge & EDGE) == EDGE` test is membership of that edge in the dodge mask |
| Placement.GetKeyline | src/main/java/androidx/coordinatorlayout/widget/CoordinatorLayout.java:45-55 | the keyline at an index in range; 0 when no keylines are set or the index is out of range |
| Placement.KeylineWidthUsed | src/main/java/androidx/coordinatorlayout/widget/CoordinatorLayout.java:112-122 | the width a keyline child reserves is never negative; it is 0 without a keyline or when the width is unspecified; otherwise it is the space beyond the keyline on the side away from the child, according to the child's gravity and the layout direction |
| Placement.ConstrainChildRect | src/main/java/androidx/coordinatorlayout/widget/CoordinatorLayout.java:250-256 | the clamped child keeps its size; its left and top are at least padding plus margin; when the range is non-empty its right and bottom stay inside too; a position inside the range is kept; a position before it moves to the lower bound; a position past the far bound moves to the far bound, or to the lower bound when that is larger |
| Placement.ConstrainIdempotent | src/main/java/androidx/coordinatorlayout/widget/CoordinatorLayout.java:250-256 | clamping an already clamped rectangle leaves it unchanged |
| Placement.AnchorLineX | src/main/java/androidx/coordinatorlayout/widget/CoordinatorLayout.java:202-213 | the anchor's right for RIGHT, its left for LEFT and every other value, and a point between them for CENTER_HORIZONTAL |
| Placement.AnchorLineY | src/main/java/androidx/coordinatorlayout/widget/CoordinatorLayout.java:214-225 | the anchor's bottom for BOTTOM, its top for TOP and every other value, and a point between them for CENTER_VERTICAL |
| Placement.DesiredAnchoredRect | src/main/java/androidx/coordinatorlayout/widget/CoordinatorLayout.java:193-249 | the unconstrained anchored rectangle has the child's measured size; on each axis the child starts on the anchor line (RIGHT/BOTTOM), is centred on it with truncating halving, or ends on it (every other gravity) |
| Placement.AnchoredChildRect | src/main/java/androidx/coordinatorlayout/widget/CoordinatorLayout.java:257-263 | the anchored rectangle after the clamp has the measured size and is a fixed point of the clamp |
| Placement.AnchoredAboveAnchor | src/main/java/androidx/coordinatorlayout/widget/CoordinatorLayout.java:214-247 | with anchor gravity TOP and gravity TOP the child's bottom is the anchor's top |
| Placement.KeylineLeft | src/main/java/androidx/coordinatorlayout/widget/CoordinatorLayout.java:286-301 | a keyline child starts on the keyline (RIGHT), straddles it (CENTER_HORIZONTAL) or ends on it (every other gravity) |
| Placement.KeylineTop | src/main/java/androidx/coordinatorlayout/widget/CoordinatorLayout.java:290-312 | a keyline child's unclamped top is its height for BOTTOM, half of it for CENTER_VERTICAL, and 0 otherwise |
| Placement.KeylineChildRect | src/main/java/androidx/coordinatorlayout/widget/CoordinatorLayout.java:277-316 | the keyline frame has the measured size and is the clamp of `constrainChildRect` applied to the unclamped keyline position |
| Placement.RtlKeylineMirrorsIndex | src/main/java/androidx/coordinatorlayout/widget/CoordinatorLayout.java:286-289 | under RTL the keyline index (not the position) is mirrored, so an index whose mirror is out of range aligns to 0 where LTR would use the keyline |
| Params.NewLayoutParams | src/main/java/androidx/coordinatorlayout/widget/CoordinatorLayout.java:601-622 | fresh params have no behavior, no keyline, NO_ID, NO_GRAVITY, no inset or dodge edges, zero offsets, an empty recorded rectangle and no anchor change pending |
| Params.SetAnchorId | src/main/java/androidx/coordinatorlayout/widget/CoordinatorLayout.java:632-635 | the id is stored and the resolved anchor dropped, so `checkAnchorChanged` holds exactly when the id is not NO_ID |
| Params.SetBehavior | src/main/java/androidx/coordinatorlayout/widget/CoordinatorLayout.java:639-651 | the same behavior changes nothing and makes no call; a new one detaches the old (if any), clears the tag, marks the behavior resolved and attaches the new (if any), in that order |
| Params.SetBehaviorIdempotent | src/main/java/androidx/coordinatorlayout/widget/CoordinatorLayout.java:639-651 | setting the same behavior a second time makes no calls and changes nothing |
| Params.SetChangedAfterNestedScroll | src/main/java/androidx/coordinatorlayout/widget/CoordinatorLayout.java:661-669 | the flag takes the given value and nothing else in the params changes |
| Params.BaseDependsOn | src/main/java/androidx/coordinatorlayout/widget/CoordinatorLayout.java:670-672 | without a behavior dependency, a child depends on another exactly when that is its anchor's direct child or it must dodge the other's inset edges |
| Params.ChildRect | src/main/java/androidx/coordinatorlayout/widget/CoordinatorLayout.java:181-192 | a child waiting for layout, or GONE, has an empty rectangle; any other child has its frame |
| Params.LayOut | src/main/java/androidx/coordinatorlayout/widget/CoordinatorLayout.java:315 | laying a child out sets its frame, marks it laid out and clears its layout request, and changes nothing else |
| Anchors.ClimbFollowsChain | src/main/java/androidx/coordinatorlayout/widget/CoordinatorLayout.java:696-708 | the ancestor walk meets the anchored child exactly when it is on the anchor's ancestor chain; otherwise the direct child reported is the last view before the container (or before null), is an ancestor-or-self of the anchor, and the walk reaches the container exactly when the chain does |
| Anchors.ResolveAnchor | src/main/java/androidx/coordinatorlayout/widget/CoordinatorLayout.java:686-718 | resolution changes only the two anchor fields of the params |
| Anchors.VerifyAnchor | src/main/java/androidx/coordinatorlayout/widget/CoordinatorLayout.java:719-735 | verification changes only the two anchor fields of the params |
| Anchors.FindAnchor | src/main/java/androidx/coordinatorlayout/widget/CoordinatorLayout.java:676-685 | only the anchor fields change; NO_ID clears both and succeeds; in edit mode nothing ever throws |
| Anchors.FindAnchorSuccess | src/main/java/androidx/coordinatorlayout/widget/CoordinatorLayout.java:676-735 | after a successful resolution with an anchor, the anchor is not the container, the anchored child is not among its ancestors, and the direct child is an ancestor-or-self of the anchor whose parent is the container or null |
| Anchors.ResolveSuccess | src/main/java/androidx/coordinatorlayout/widget/CoordinatorLayout.java:686-718 | the same guarantees for `resolveAnchorView` on its own |
| Anchors.FirstResolutionErrors | src/main/java/androidx/coordinatorlayout/widget/CoordinatorLayout.java:686-718 | outside edit mode a first resolution fails with not-found exactly when the id is not found, with anchored-to-parent exactly when it names the container, and with is-descendant exactly when the anchored child is an ancestor of the anchor; otherwise the found view becomes the anchor |
| Anchors.FirstResolutionInEditMode | src/main/java/androidx/coordinatorlayout/widget/CoordinatorLayout.java:686-718 | in edit mode each of the three failures of a first resolution is swallowed: no error, both anchor fields cleared, the id kept, so `checkAnchorChanged` holds afterwards; without a failure the result is the one outside edit mode |
| Anchors.ResolutionIsStable | src/main/java/androidx/coordinatorlayout/widget/CoordinatorLayout.java:676-735 | a resolution whose direct child hangs off the container verifies on the next call and is kept unchanged |
| Anchors.ClimbFrom | src/main/java/androidx/coordinatorlayout/widget/CoordinatorLayout.java:696-708 | the parent-walking loop computes the walk `Climb` specifies |
| Anchors.ResolveAnchorView | src/main/java/androidx/coordinatorlayout/widget/CoordinatorLayout.java:686-718 | the method leaves the params and the error `ResolveAnchor` specifies |
| Anchors.VerifyAnchorView | src/main/java/androidx/coordinatorlayout/widget/CoordinatorLayout.java:719-735 | the method leaves the params and the verdict `VerifyAnchor` specifies |
| Anchors.FindAnchorView | src/main/java/androidx/coordinatorlayout/widget/CoordinatorLayout.java:676-685 | the method leaves the params and the error `FindAnchor` specifies |
| Propagation.AccumulateInset | src/main/java/androidx/coordinatorlayout/widget/CoordinatorLayout.java:367-385 | no inset component decreases; an empty mask or an empty draw rectangle contributes nothing; TOP raises the top inset to at least the draw rectangle's bottom, BOTTOM raises the bottom inset to height minus its top, LEFT raises the left inset to its right, RIGHT raises the right inset to width minus its left, each only when the opposite edge is absent; every other component is kept |
| Propagation.InsetOfGrows | src/main/java/androidx/coordinatorlayout/widget/CoordinatorLayout.java:351-385 | over a pass the inset starts at zero and never shrinks: the final inset covers the inset after every prefix of visits, and zero |
| Propagation.InsetOfCoversEveryContributor | src/main/java/androidx/coordinatorlayout/widget/CoordinatorLayout.java:367-385 | the final inset covers the contribution of every child that had an inset edge and a non-empty draw rectangle |
| Propagation.BottomInsetExample | src/main/java/androidx/coordinatorlayout/widget/CoordinatorLayout.java:373-375 | a BOTTOM child whose draw rectangle starts at 500 in an 800-high container leaves a bottom inset of 300 |
| Propagation.NearShift | src/main/java/androidx/coordinatorlayout/widget/CoordinatorLayout.java:452-458 | a TOP (LEFT) shift is asked for exactly when the edge is dodged and the distance is below the inset; the new offset places the dodge edge exactly on the inset and is positive |
| Propagation.FarShift | src/main/java/androidx/coordinatorlayout/widget/CoordinatorLayout.java:459-465 | a BOTTOM (RIGHT) shift is asked for exactly when the edge is dodged and the distance from the far side is below the inset; it places the edge exactly on the inset and is negative |
| Propagation.DodgeAxis | src/main/java/androidx/coordinatorlayout/widget/CoordinatorLayout.java:450-486 | the offset on an axis is 0 when no shift was needed, the near shift when only it applied, and the far shift (computed after the near one was stored) whenever that applies |
| Propagation.DodgeClearsInset | src/main/java/androidx/coordinatorlayout/widget/CoordinatorLayout.java:450-486 | dodging a single edge leaves the dodge rectangle clear of the inset, and exactly on it when the child had to move |
| Propagation.DodgeExample | src/main/java/androidx/coordinatorlayout/widget/CoordinatorLayout.java:459-465 | a BOTTOM-dodging child ending at 750 in an 800-high container with a 300 bottom inset moves up by 250 |
| Propagation.RecordChildRect | src/main/java/androidx/coordinatorlayout/widget/CoordinatorLayout.java:389-395 | a removal always notifies and keeps the record; any other event notifies exactly when the draw rectangle differs from the record, and the record then holds the draw rectangle |
| Propagation.NotifyDependent | src/main/java/androidx/coordinatorlayout/widget/CoordinatorLayout.java:401-417 | a pre-draw with the flag set clears it and skips; a pre-draw without it notifies; a nested scroll notifies and stores the handled answer as the flag; a removal calls the removal hook and keeps the flag |
| Propagation.AtMostOneSkipPerHandledScroll | src/main/java/androidx/coordinatorlayout/widget/CoordinatorLayout.java:401-417 | over any sequence of events a dependent skips at most one pre-draw notification per nested scroll it reported as handled, plus one for a flag set at the start |
| Coordinator.IndexOfSameViews | src/main/java/androidx/coordinatorlayout/widget/CoordinatorLayout.java:355-362 | two child lists with the same views give the same index for every view |
| Coordinator.DescendantRectOfOther | src/main/java/androidx/coordinatorlayout/widget/CoordinatorLayout.java:768-771 | changing the frame of one child does not change the rectangle of another view |
| Coordinator.IndexOfView | src/main/java/androidx/coordinatorlayout/widget/CoordinatorLayout.java:355-362 | the index found holds the view; no index is found only when no child holds it |
| Coordinator.DescendantRect | src/main/java/androidx/coordinatorlayout/widget/CoordinatorLayout.java:768-771 | a direct child's rectangle is its current frame; any other view's is its frame in the tree |
| Coordinator.ReversedOrderPutsDependenciesFirst | src/main/java/androidx/coordinatorlayout/widget/CoordinatorLayout.java:77-78 | reversing a list that puts every dependent before its dependencies puts every dependency before its dependents |
| Coordinator.OffsetToAnchor | src/main/java/androidx/coordinatorlayout/widget/CoordinatorLayout.java:544-575 | `changed` holds exactly when the unclamped desired position differs from the child rectangle; the child keeps its size; a laid-out child of its measured size lands on the clamped anchored rectangle |
| Coordinator.ChangedWithoutMoving | src/main/java/androidx/coordinatorlayout/widget/CoordinatorLayout.java:554-565 | a child already at its clamped position whose unclamped position differs is reported changed yet does not move |
| Coordinator.CenteredOnCorner | src/main/java/androidx/coordinatorlayout/widget/CoordinatorLayout.java:193-249 | a 10x10 child centred on a 10x10 anchor at the origin wants (-5, -5), outside a padding-free container, so such a child exists |
| Coordinator.OffsetToAnchorSettles | src/main/java/androidx/coordinatorlayout/widget/CoordinatorLayout.java:544-575 | re-offsetting a child that was just moved to its anchor leaves it where it is |
| Coordinator.WithInsetOffsets | src/main/java/androidx/coordinatorlayout/widget/CoordinatorLayout.java:489-504 | new inset offsets are stored and the frame moves by exactly the difference, so the position without offsets and the size are kept |
| Coordinator.WithSameInsetOffsets | src/main/java/androidx/coordinatorlayout/widget/CoordinatorLayout.java:491-499 | setting the offsets a child already has changes nothing |
| Coordinator.ComposeInsetOffsets | src/main/java/androidx/coordinatorlayout/widget/CoordinatorLayout.java:489-504 | setting offsets twice is the same as setting the second pair once |
| Coordinator.DodgeRectOf | src/main/java/androidx/coordinatorlayout/widget/CoordinatorLayout.java:436-444 | the error happens exactly when the behavior supplies a dodge rectangle outside the child's bounds; any rectangle used lies inside the bounds of a non-empty child |
| Coordinator.Notify | src/main/java/androidx/coordinatorlayout/widget/CoordinatorLayout.java:396-418 | a child whose behavior does not depend on the changed view is untouched and not called; one that does follows `NotifyDependent` and receives exactly the call its reaction names; only the nested-scroll flag ever changes |
| Coordinator.NotifyRunShape | src/main/java/androidx/coordinatorlayout/widget/CoordinatorLayout.java:396-419 | notifying dependents changes nothing but their nested-scroll flags |
| Coordinator.NotifyRunEffect | src/main/java/androidx/coordinatorlayout/widget/CoordinatorLayout.java:396-419 | each dependent in the range reacts once, to its own original state; all other children are untouched; the calls are those of `Notifications` in order |
| Coordinator.NotificationsConcernLaterDependents | src/main/java/androidx/coordinatorlayout/widget/CoordinatorLayout.java:396-419 | every call concerns the changed view and a child at a later position with that behavior; on removal every later dependent is called |
| Coordinator.MoveThenVisit | src/main/java/androidx/coordinatorlayout/widget/CoordinatorLayout.java:360-395 | a move that keeps all records, followed by a visit, has the effect of the visit |
| Coordinator.PassSkip | src/main/java/androidx/coordinatorlayout/widget/CoordinatorLayout.java:357-359 | a GONE child on pre-draw is skipped, changes nothing and contributes nothing |
| Coordinator.PassKeep | src/main/java/androidx/coordinatorlayout/widget/CoordinatorLayout.java:386-388 | a visit aborted by a dodge error changes no record |
| Coordinator.PassVisit | src/main/java/androidx/coordinatorlayout/widget/CoordinatorLayout.java:354-420 | a completed visit records the draw rectangle (except on removal), adds the child's contribution, and grows the inset by exactly `AccumulateInset` |
| Coordinator.PassStateMeans | src/main/java/androidx/coordinatorlayout/widget/CoordinatorLayout.java:348-424 | after a pass the children keep their views, visibility and inset edges; every visited child's record is its draw rectangle unless the event is a removal; a skipped child contributes no edges; removal, unreached and unsorted children keep their records |
| Coordinator.CoordinatorLayout.constructor | src/main/java/androidx/coordinatorlayout/widget/CoordinatorLayout.java:37-44 | a new container has an empty sorted list and graph and no keylines |
| Coordinator.CoordinatorLayout.SetKeylines | src/main/java/androidx/coordinatorlayout/widget/CoordinatorLayout.java:742-744 | the keylines are replaced |
| Coordinator.CoordinatorLayout.PrepareChildren | src/main/java/androidx/coordinatorlayout/widget/CoordinatorLayout.java:56-79 | on success every child's params are resolved, every child is a node, an edge (d, e) exists exactly when d != e and child e depends on child d, and the sorted list is the reverse of the graph's list; a failing resolution aborts with the children up to it resolved, the rest untouched, the sorted list empty, and the graph holding exactly the nodes and edges the children before it added (`GraphOver`) |
| Coordinator.CoordinatorLayout.AddChild | src/main/java/androidx/coordinatorlayout/widget/CoordinatorLayout.java:59-76 | one turn of the loop: child i's params become resolved and the error is the resolution's; the graph then holds exactly the nodes and edges the children up to i add (`GraphOver`), or, after an error, those the children before i added |
| Coordinator.CoordinatorLayout.ResolveChild | src/main/java/androidx/coordinatorlayout/widget/CoordinatorLayout.java:60-62 | only child i changes: its params become the resolved params, and the error is the resolution's |
| Coordinator.CoordinatorLayout.AddDependencies | src/main/java/androidx/coordinatorlayout/widget/CoordinatorLayout.java:64-75 | exactly the edges (j, i) with j != i and child i depending on child j are added, and the nodes only grow |
| Coordinator.CoordinatorLayout.MeasureRequests | src/main/java/androidx/coordinatorlayout/widget/CoordinatorLayout.java:106-133 | at most one request per position of the sorted list |
| Coordinator.CoordinatorLayout.MeasureRequestsMembers | src/main/java/androidx/coordinatorlayout/widget/CoordinatorLayout.java:106-133 | every non-GONE child's request is made, and every request made is one of them |
| Coordinator.CoordinatorLayout.MeasureRequestsInOrder | src/main/java/androidx/coordinatorlayout/widget/CoordinatorLayout.java:106-133 | when no child is GONE, request j is the one for the child at sorted position j |
| Coordinator.CoordinatorLayout.WidthUsedOverBounds | src/main/java/androidx/coordinatorlayout/widget/CoordinatorLayout.java:102-135 | the width reached is at least the minimum and every non-GONE child's need, and equals the minimum or one such child's need |
| Coordinator.CoordinatorLayout.HeightUsedOverBounds | src/main/java/androidx/coordinatorlayout/widget/CoordinatorLayout.java:103-136 | the same for the height |
| Coordinator.CoordinatorLayout.MeasurePass | src/main/java/androidx/coordinatorlayout/widget/CoordinatorLayout.java:101-138 | the requests are one per non-GONE child, in sorted order (`MeasureRequests`); the width and height used are the loop's running maxima (`WidthUsedOver`, `HeightUsedOver`): each at least the minimum and every non-GONE child's need, and equal to the minimum or one such child's need |
| Coordinator.CoordinatorLayout.OnMeasure | src/main/java/androidx/coordinatorlayout/widget/CoordinatorLayout.java:86-142 | on success the children are resolved, the graph has every child as a node and exactly the dependency edges, the sorted list is the reverse of the graph's, and the sizes and requests are those `MeasurePass` states; a failing resolution leaves the children up to it resolved, the rest untouched, the graph as the children before it built it, no requests and the minimum sizes |
| Coordinator.CoordinatorLayout.ContentRect | src/main/java/androidx/coordinatorlayout/widget/CoordinatorLayout.java:320 | the area `layoutChild` uses lies inside the padding, with the child's margins taken off each side |
| Coordinator.CoordinatorLayout.PlacedFrame | src/main/java/androidx/coordinatorlayout/widget/CoordinatorLayout.java:143-157 | anchored and keyline children get their measured size, clamped into the content area; any other child gets the gravity placement within the content area |
| Coordinator.CoordinatorLayout.OnLayoutChild | src/main/java/androidx/coordinatorlayout/widget/CoordinatorLayout.java:143-157 | an anchor changed since measurement is an error that leaves the children unchanged; otherwise only that child changes, laid out at its placed frame |
| Coordinator.CoordinatorLayout.OnLayout | src/main/java/androidx/coordinatorlayout/widget/CoordinatorLayout.java:158-172 | the pass fails exactly when a child it lays out itself has a changed anchor; on success every such child is laid out, an unanchored one at its placed frame; GONE and behavior-laid children and unsorted ones are untouched |
| Coordinator.CoordinatorLayout.LaySkip | src/main/java/androidx/coordinatorlayout/widget/CoordinatorLayout.java:163-168 | passing over a GONE or behavior-laid child keeps the layout invariant |
| Coordinator.CoordinatorLayout.LayStep | src/main/java/androidx/coordinatorlayout/widget/CoordinatorLayout.java:168-170 | laying one more child out keeps the layout invariant |
| Coordinator.CoordinatorLayout.SetInsetOffsetX | src/main/java/androidx/coordinatorlayout/widget/CoordinatorLayout.java:489-496 | the child moves across by exactly new minus old offset and stores the new offset; an equal offset changes nothing |
| Coordinator.CoordinatorLayout.SetInsetOffsetY | src/main/java/androidx/coordinatorlayout/widget/CoordinatorLayout.java:497-504 | the same, vertically |
| Coordinator.CoordinatorLayout.OffsetChildByInset | src/main/java/androidx/coordinatorlayout/widget/CoordinatorLayout.java:425-488 | a child that is not laid out, has no area or has an empty dodge rectangle is untouched; a behavior dodge rectangle outside the bounds is an error; otherwise each axis's offset becomes the one `DodgeAxis` computes and the child moves with it |
| Coordinator.CoordinatorLayout.DodgeVertically | src/main/java/androidx/coordinatorlayout/widget/CoordinatorLayout.java:451-468 | the vertical offset becomes `DodgeAxis` of the TOP and BOTTOM rules, and the frame moves with it |
| Coordinator.CoordinatorLayout.DodgeHorizontally | src/main/java/androidx/coordinatorlayout/widget/CoordinatorLayout.java:469-486 | the horizontal offset becomes `DodgeAxis` of the LEFT and RIGHT rules, and the frame moves with it |
| Coordinator.CoordinatorLayout.OffsetChildToAnchor | src/main/java/androidx/coordinatorlayout/widget/CoordinatorLayout.java:544-575 | a child without an anchor is untouched; otherwise it takes the frame `OffsetToAnchor` computes against the anchor's current frame, and its behavior is told exactly when `changed` holds |
| Coordinator.CoordinatorLayout.AnchorStep | src/main/java/androidx/coordinatorlayout/widget/CoordinatorLayout.java:544-575 | re-anchoring child k changes only its frame and keeps its size; without an anchor nothing changes; with one its frame is what `OffsetToAnchor` computes against the anchor's current rectangle; any call is its behavior told about the anchor |
| Coordinator.CoordinatorLayout.ReanchorRun | src/main/java/androidx/coordinatorlayout/widget/CoordinatorLayout.java:360-365 | the first inner loop as a value keeps the number of children |
| Coordinator.CoordinatorLayout.ReanchorRunShape | src/main/java/androidx/coordinatorlayout/widget/CoordinatorLayout.java:360-365 | re-anchoring changes only the visited child's frame, keeps its size, makes only calls to its behavior about its anchor, and does nothing when no earlier position holds its anchor's direct child |
| Coordinator.CoordinatorLayout.AnchorStepSettled | src/main/java/androidx/coordinatorlayout/widget/CoordinatorLayout.java:544-575 | re-anchoring a child that already sits at its anchored position leaves it there |
| Coordinator.CoordinatorLayout.ReanchorRunSettles | src/main/java/androidx/coordinatorlayout/widget/CoordinatorLayout.java:360-365 | a laid-out, measured-size child not its own anchor, with an earlier anchor direct child, ends at the position computed from the anchor's rectangle before the loop, however often it is re-anchored |
| Coordinator.CoordinatorLayout.SettledStaysSettled | src/main/java/androidx/coordinatorlayout/widget/CoordinatorLayout.java:360-365 | once at its anchored position, a further position of the loop keeps the child there |
| Coordinator.CoordinatorLayout.SettledOnFirstAnchor | src/main/java/androidx/coordinatorlayout/widget/CoordinatorLayout.java:360-365 | the first position holding the anchor's direct child moves the child to its anchored position |
| Coordinator.CoordinatorLayout.InsetStep | src/main/java/androidx/coordinatorlayout/widget/CoordinatorLayout.java:425-488 | `offsetChildByInset` as a value changes only child k and nothing a pass records; the position without inset offsets and the size are kept; the error happens exactly when a laid-out child with area has a behavior dodge rectangle outside its bounds, and then nothing changes |
| Coordinator.CoordinatorLayout.RecordStep | src/main/java/androidx/coordinatorlayout/widget/CoordinatorLayout.java:389-419 | recording as a value keeps the number of children, and an unchanged record on an event other than removal changes nothing and makes no call |
| Coordinator.CoordinatorLayout.RecordStepShape | src/main/java/androidx/coordinatorlayout/widget/CoordinatorLayout.java:389-419 | recording changes the other children only in their nested-scroll flags and the visited one also in its record, which becomes the draw rectangle unless the event is a removal |
| Coordinator.CoordinatorLayout.RecordStepVisited | src/main/java/androidx/coordinatorlayout/widget/CoordinatorLayout.java:389-419 | recording is a completed visit in the sense of `Visited` |
| Coordinator.CoordinatorLayout.RestOfVisit | src/main/java/androidx/coordinatorlayout/widget/CoordinatorLayout.java:386-419 | dodging, recording and notifying as a value keeps the number of children; its only error is a dodge rectangle outside the bounds, with no calls |
| Coordinator.CoordinatorLayout.RestOfVisitShape | src/main/java/androidx/coordinatorlayout/widget/CoordinatorLayout.java:386-419 | the rest of a visit changes the other children only in their nested-scroll flags |
| Coordinator.CoordinatorLayout.RestOfVisitVisited | src/main/java/androidx/coordinatorlayout/widget/CoordinatorLayout.java:386-419 | the rest of a visit has the effect `Visited` describes |
| Coordinator.CoordinatorLayout.VisitOf | src/main/java/androidx/coordinatorlayout/widget/CoordinatorLayout.java:360-419 | a visit as a value: its draw rectangle is the child rectangle after `ReanchorRun`, and its inset is `AccumulateInset` of that rectangle with the child's inset edges |
| Coordinator.CoordinatorLayout.VisitOfShape | src/main/java/androidx/coordinatorlayout/widget/CoordinatorLayout.java:360-419 | a visit changes the other children only in their nested-scroll flags |
| Coordinator.CoordinatorLayout.VisitOfVisited | src/main/java/androidx/coordinatorlayout/widget/CoordinatorLayout.java:360-419 | a visit has the effect `Visited` describes: only the visited child's record changes, to its draw rectangle, when the visit completes and the event is not a removal |
| Coordinator.CoordinatorLayout.VisitOfUntouched | src/main/java/androidx/coordinatorlayout/widget/CoordinatorLayout.java:354-420 | a visit at a position keeps the children at later positions as they were before the pass, but for their flags |
| Coordinator.CoordinatorLayout.PassStep | src/main/java/androidx/coordinatorlayout/widget/CoordinatorLayout.java:354-420 | one position of the outer loop as a value: a failed pass is unchanged, and a child GONE on pre-draw adds an empty visit and changes nothing else |
| Coordinator.CoordinatorLayout.PassRun | src/main/java/androidx/coordinatorlayout/widget/CoordinatorLayout.java:354-420 | the outer loop as a value over the first n positions keeps the number of children |
| Coordinator.CoordinatorLayout.PassRunNext | src/main/java/androidx/coordinatorlayout/widget/CoordinatorLayout.java:354-420 | a pass over n positions is the pass over n - 1 followed by position n - 1 |
| Coordinator.CoordinatorLayout.PassRunState | src/main/java/androidx/coordinatorlayout/widget/CoordinatorLayout.java:348-424 | a pass keeps the invariant `PassState`; on success it records one visit per position and the inset is their accumulation; on failure fewer visits than positions |
| Coordinator.CoordinatorLayout.PassStepState | src/main/java/androidx/coordinatorlayout/widget/CoordinatorLayout.java:354-420 | one position of the loop keeps that invariant |
| Coordinator.CoordinatorLayout.SkipKeepsState | src/main/java/androidx/coordinatorlayout/widget/CoordinatorLayout.java:357-359 | a skipped position keeps that invariant |
| Coordinator.CoordinatorLayout.VisitKeepsState | src/main/java/androidx/coordinatorlayout/widget/CoordinatorLayout.java:360-419 | a visited position keeps that invariant, whether or not the visit fails |
| Coordinator.CoordinatorLayout.PassRunHalts | src/main/java/androidx/coordinatorlayout/widget/CoordinatorLayout.java:386-388 | once a visit fails, the positions after it change nothing |
| Coordinator.CoordinatorLayout.PassRunShape | src/main/java/androidx/coordinatorlayout/widget/CoordinatorLayout.java:354-420 | over distinct positions a pass keeps what it never touches, and children at positions not yet reached are as before but for their flags |
| Coordinator.CoordinatorLayout.PassStepShape | src/main/java/androidx/coordinatorlayout/widget/CoordinatorLayout.java:354-420 | one position keeps that for the positions after it |
| Coordinator.CoordinatorLayout.PassRunVisit | src/main/java/androidx/coordinatorlayout/widget/CoordinatorLayout.java:354-420 | the visit recorded at position j is the one `Contributed` names: nothing for a child GONE on pre-draw, otherwise its inset edges and its child rectangle after re-anchoring in the children as the pass left them |
| Coordinator.CoordinatorLayout.PassRunKeepsVisit | src/main/java/androidx/coordinatorlayout/widget/CoordinatorLayout.java:354-420 | a visit recorded over n - 1 positions stays recorded, unchanged, over n |
| Coordinator.CoordinatorLayout.PassRunAddsVisit | src/main/java/androidx/coordinatorlayout/widget/CoordinatorLayout.java:354-420 | a visit recorded over n positions but not over n - 1 is that of position n - 1 |
| Coordinator.CoordinatorLayout.PassRunGrows | src/main/java/androidx/coordinatorlayout/widget/CoordinatorLayout.java:354-420 | a pass that records more visits over n positions than over n - 1 had recorded exactly n - 1 |
| Coordinator.CoordinatorLayout.PassRunNewVisit | src/main/java/androidx/coordinatorlayout/widget/CoordinatorLayout.java:354-420 | the visit position n - 1 adds is the one `Contributed` names |
| Coordinator.CoordinatorLayout.PassStepKeepsVisits | src/main/java/androidx/coordinatorlayout/widget/CoordinatorLayout.java:354-420 | one position keeps the visits recorded before it and adds at most one, exactly one when it ends without error, and none to a failed pass |
| Coordinator.CoordinatorLayout.PassStepNewVisit | src/main/java/androidx/coordinatorlayout/widget/CoordinatorLayout.java:354-420 | the visit a position adds to a pass that has not failed is the one `Contributed` names |
| Coordinator.CoordinatorLayout.PassRunLength | src/main/java/androidx/coordinatorlayout/widget/CoordinatorLayout.java:354-420 | a pass over n positions records at most n visits, and exactly n when no visit fails |
| Coordinator.CoordinatorLayout.PassStepLength | src/main/java/androidx/coordinatorlayout/widget/CoordinatorLayout.java:354-420 | one position keeps at most one visit per position, and exactly one per position while no visit fails |
| Coordinator.CoordinatorLayout.PassDrawOfUnanchoredChild | src/main/java/androidx/coordinatorlayout/widget/CoordinatorLayout.java:360-366 | a child with no earlier anchor direct child is not moved: the pass records its inset edges and its child rectangle from before the pass |
| Coordinator.CoordinatorLayout.PassDrawOfAnchoredChild | src/main/java/androidx/coordinatorlayout/widget/CoordinatorLayout.java:360-366 | a laid-out, measured-size child with an earlier anchor direct child is recorded at the anchored position computed from its anchor's rectangle as the pass left it on reaching the child |
| Coordinator.CoordinatorLayout.NotifyDependents | src/main/java/androidx/coordinatorlayout/widget/CoordinatorLayout.java:396-419 | the loop over the later children leaves the children and calls of `NotifyRun`, and changes nothing but nested-scroll flags |
| Coordinator.CoordinatorLayout.OffsetToEarlierAnchors | src/main/java/androidx/coordinatorlayout/widget/CoordinatorLayout.java:360-365 | only the frame of the visited child changes, and its size is kept; the children and calls are `ReanchorRun`'s; every call is that child's behavior told about its anchor; with no earlier anchor direct child nothing happens |
| Coordinator.CoordinatorLayout.VisitChild | src/main/java/androidx/coordinatorlayout/widget/CoordinatorLayout.java:360-419 | the outcome is the visit as a value, `VisitOf`: the draw rectangle is the child rectangle after re-anchoring, the inset grows by `AccumulateInset` of it, only the visited child's record changes (to the draw rectangle when the visit completes and the event is not a removal); the draw rectangle is empty for a GONE or unlaid child and otherwise has the child's size |
| Coordinator.CoordinatorLayout.DodgeRecordNotify | src/main/java/androidx/coordinatorlayout/widget/CoordinatorLayout.java:386-419 | the children, error and calls are those of `RestOfVisit`: the dodge of `InsetStep` for a VISIBLE dodging child, then, if it did not fail, the recording and notification of `RecordStep`; only the visited child's record changes, as `Visited` says |
| Coordinator.CoordinatorLayout.RecordAndNotify | src/main/java/androidx/coordinatorlayout/widget/CoordinatorLayout.java:389-419 | the children and calls are those of `RecordStep`: except on removal the draw rectangle becomes the record, an unchanged rectangle notifies no one, and a changed one (or any removal) runs `NotifyRun` over the later children |
| Coordinator.CoordinatorLayout.PassStepAt | src/main/java/androidx/coordinatorlayout/widget/CoordinatorLayout.java:354-420 | one position of the outer loop has the outcome `PassStep` gives, so the pass as a value advances by one position |
| Coordinator.CoordinatorLayout.VisitAll | src/main/java/androidx/coordinatorlayout/widget/CoordinatorLayout.java:354-420 | the outer loop stops at the first failure; its outcome is `PassRun` over the positions reached, which are all of them on success |
| Coordinator.CoordinatorLayout.OnChildViewsChanged | src/main/java/androidx/coordinatorlayout/widget/CoordinatorLayout.java:348-424 | the whole outcome (children, error, calls, inset, visits) is the pass as a value, `PassRun`, over every sorted position; it keeps the invariant `PassState` (spelled out by `PassStateMeans`); on success every position was visited and the inset is the accumulation of the visits |
| HideBottom.Notices | src/main/java/com/google/android/material/behavior/HideBottomViewOnScrollBehavior.java:123-128 | one call per listener, in registration order, each with the new state |
| HideBottom.NoticesOncePerListener | src/main/java/com/google/android/material/behavior/HideBottomViewOnScrollBehavior.java:39 | with distinct listeners (a `LinkedHashSet`), each registered listener is told exactly once and no other listener is told |
| HideBottom.Cancellation | src/main/java/com/google/android/material/behavior/HideBottomViewOnScrollBehavior.java:87-90 | one cancellation event exactly when an animator is running, none otherwise |
| HideBottom.SlideTo | src/main/java/com/google/android/material/behavior/HideBottomViewOnScrollBehavior.java:83-122 | a slide to the current state changes nothing; otherwise the state becomes the target, the events gain the cancellation of a running animator followed by one notice per listener in order, and the child either starts a new animation to its resting place (translation untouched) or jumps to 0 (up) or height + hidden offset (down) with no animator left |
| HideBottom.CancelBeforeNotices | src/main/java/com/google/android/material/behavior/HideBottomViewOnScrollBehavior.java:83-128 | when a slide changes the state and an animator is running, its cancellation is the slide's first event and every later event is a listener told the new state, one per listener in order |
| HideBottom.SlideIdempotent | src/main/java/com/google/android/material/behavior/HideBottomViewOnScrollBehavior.java:84-86 | a second slide to the same state, animated or not, changes nothing |
| HideBottom.DownThenUp | src/main/java/com/google/android/material/behavior/HideBottomViewOnScrollBehavior.java:83-122 | from SCROLLED_UP with no animator, sliding down then up without animation returns the child to 0 in SCROLLED_UP, and the events are DOWN told to every listener, then UP told to every listener |
| HideBottom.WithHiddenOffset | src/main/java/com/google/android/material/behavior/HideBottomViewOnScrollBehavior.java:60-65 | the offset is always stored; a hidden child moves to height + offset; when up nothing else changes |
| HideBottom.OffsetThenHide | src/main/java/com/google/android/material/behavior/HideBottomViewOnScrollBehavior.java:60-65 | whatever the state, setting the offset and hiding without animation puts the child at height + offset |
| HideBottom.BottomView.constructor | src/main/java/com/google/android/material/behavior/HideBottomViewOnScrollBehavior.java:51-53 | a child has its measured height, bottom margin and no translation |
| HideBottom.HideBottomViewOnScrollBehavior.constructor | src/main/java/com/google/android/material/behavior/HideBottomViewOnScrollBehavior.java:39-50 | a new behavior is SCROLLED_UP, with height and hidden offset 0, no animator and nothing told |
| HideBottom.HideBottomViewOnScrollBehavior.OnLayoutChild | src/main/java/com/google/android/material/behavior/HideBottomViewOnScrollBehavior.java:51-59 | height becomes measured height plus bottom margin, the durations become 225 and 175, and the answer is false, so the engine lays the child out |
| HideBottom.HideBottomViewOnScrollBehavior.SetAdditionalHiddenOffsetY | src/main/java/com/google/android/material/behavior/HideBottomViewOnScrollBehavior.java:60-65 | the new state is `WithHiddenOffset` of the old |
| HideBottom.HideBottomViewOnScrollBehavior.OnStartNestedScroll | src/main/java/com/google/android/material/behavior/HideBottomViewOnScrollBehavior.java:66-68 | only a purely vertical nested scroll is accepted: horizontal, and horizontal plus vertical, are refused |
| HideBottom.HideBottomViewOnScrollBehavior.OnNestedScroll | src/main/java/com/google/android/material/behavior/HideBottomViewOnScrollBehavior.java:69-76 | dy > 0 is an animated slide down, dy < 0 an animated slide up, and dy == 0 changes nothing |
| HideBottom.HideBottomViewOnScrollBehavior.IsScrolledUp | src/main/java/com/google/android/material/behavior/HideBottomViewOnScrollBehavior.java:77-79 | holds exactly in SCROLLED_UP |
| HideBottom.HideBottomViewOnScrollBehavior.IsScrolledDown | src/main/java/com/google/android/material/behavior/HideBottomViewOnScrollBehavior.java:100-102 | holds exactly in SCROLLED_DOWN |
| HideBottom.HideBottomViewOnScrollBehavior.ExactlyOneState | src/main/java/com/google/android/material/behavior/HideBottomViewOnScrollBehavior.java:46-49 | in a valid behavior exactly one of `isScrolledUp` and `isScrolledDown` holds |
| HideBottom.HideBottomViewOnScrollBehavior.SlideUp | src/main/java/com/google/android/material/behavior/HideBottomViewOnScrollBehavior.java:80-82 | an animated `SlideTo` SCROLLED_UP |
| HideBottom.HideBottomViewOnScrollBehavior.SlideUpWith | src/main/java/com/google/android/material/behavior/HideBottomViewOnScrollBehavior.java:83-99 | the new state is `SlideTo` SCROLLED_UP of the old, and the behavior stays valid |
| HideBottom.HideBottomViewOnScrollBehavior.SlideDown | src/main/java/com/google/android/material/behavior/HideBottomViewOnScrollBehavior.java:103-105 | an animated `SlideTo` SCROLLED_DOWN |
| HideBottom.HideBottomViewOnScrollBehavior.SlideDownWith | src/main/java/com/google/android/material/behavior/HideBottomViewOnScrollBehavior.java:106-122 | the new state is `SlideTo` SCROLLED_DOWN of the old, and the behavior stays valid |
| HideBottom.HideBottomViewOnScrollBehavior.CancelAnimator | src/main/java/com/google/android/material/behavior/HideBottomViewOnScrollBehavior.java:87-90 | a running animator is cancelled, which is recorded as one event, and cleared; with none running the events are unchanged |
| HideBottom.HideBottomViewOnScrollBehavior.UpdateCurrentState | src/main/java/com/google/android/material/behavior/HideBottomViewOnScrollBehavior.java:123-128 | the state is set, then the events gain, in order, exactly the notices `Notices` lists |
| HideBottom.HideBottomViewOnScrollBehavior.AnimateChildTo | src/main/java/com/google/android/material/behavior/HideBottomViewOnScrollBehavior.java:130-141 | the current animator becomes a new tween of translationY from 0 to the target, with the given duration and interpolator |

## Left out

- **The graph's topological sort.** `DirectedAcyclicGraph` is not part of this model.
  `PrepareChildren` and `OnMeasure` take the graph's `getSortedList` result as a parameter,
  required to be a permutation of the children. Also left out are cycle detection,
  `getDependencies`, `dispatchDependentViewsChanged`, `hasDependencies` and
  `ensurePreDrawListener`.
- **Framework calls whose bodies are not shown:**
  - `GravityCompat.apply` is the constructor parameter `applyGravity`, so plain gravity
    placement is modelled only up to that call.
  - `GravityCompat.getAbsoluteGravity` is modelled by its documented START/END mapping.
  - `findViewById` is the `byId` map of the view tree.
  - `measureChildWithMargins`, `MeasureSpec`, `resolveSizeAndState` and
    `combineMeasuredStates` are out: `OnMeasure` returns the sizes it would hand to
    `resolveSizeAndState`, and which children are measured with what reserved width.
  - `getDescendantRect` is the child's own frame (the source's helper ignores transforms).
- **Behaviors.** The behavior hooks are pure functions of the behavior, the child and the
  dependency. What a hook does to other views is not modelled; the model only records which
  hooks were called, and in what order. Touch and nested-scroll dispatch of the container are
  not modelled.
- **Window insets.** `mLastInsets` is never assigned, so the window-inset branches of
  `onMeasure` and `layoutChild` are dead and left out.
- **Relative inset edges.** Inset and dodge edge masks are taken as already absolute (four edge
  flags). START and END inset edges are not represented.
- **Other engine details not modelled:** the rect pool, logging, and the pre-draw listener stubs.
- **Integer width.** Integers are unbounded; Java's 32-bit overflow of coordinates is not
  modelled.
- **Animation.** An animator is a record of its start value, target, duration and
  interpolator. The float tween, its frames and its timing are not modelled: an animated
  slide leaves translationY unchanged. `CancelAnimator` assumes Android's `cancel()` ends the
  animator, whose end listener then clears `currentAnimator`.
- **Listeners.** Registering listeners is not part of the source. The listener set is given
  at construction.
- Coordinator.CoordinatorLayout.OnLayout: for anchored children it promises that they are laid
  out, but not where. Their frame depends on an anchor that may itself move earlier in the same
  pass. `OnLayoutChild` states the frame of each single step.
