/**
 * The per-child rules of `onChildViewsChanged` and `offsetChildByInset`, as
 * functions: how a child widens the accumulated insets, how far a dodging child
 * shifts on one axis, when a child's dependents are notified, and the one-shot
 * "changed after nested scroll" protocol of a dependent.
 */
module Propagation {
  import opened Common
  import opened Geometry
  import opened Gravity

  /** `EVENT_PRE_DRAW`, `EVENT_NESTED_SCROLL`, `EVENT_VIEW_REMOVED`. */
  datatype Event = PreDraw | NestedScroll | ViewRemoved

  // ---------------------------------------------------------------------
  // Accumulated insets

  /**
   * One child's contribution to the inset rectangle: a TOP inset edge pushes the
   * top inset to the child's bottom, BOTTOM pushes the bottom inset to the
   * distance from the child's top to the container's bottom, and LEFT and RIGHT
   * likewise; a mask holding both edges of an axis, an empty mask or an empty
   * draw rectangle contributes nothing. No component ever decreases.
   */
  function AccumulateInset(inset: Rect, edges: Edges, draw: Rect, width: int, height: int): (r: Rect)
    ensures r.top >= inset.top && r.bottom >= inset.bottom && r.left >= inset.left && r.right >= inset.right
    ensures edges.IsNone() || draw.IsEmpty() ==> r == inset
    ensures var on := !edges.IsNone() && !draw.IsEmpty();
      && (on && edges.top && !edges.bottom ==> r.top >= draw.bottom && (r.top == inset.top || r.top == draw.bottom))
      && (!(on && edges.top && !edges.bottom) ==> r.top == inset.top)
      && (on && edges.bottom && !edges.top ==>
            r.bottom >= height - draw.top && (r.bottom == inset.bottom || r.bottom == height - draw.top))
      && (!(on && edges.bottom && !edges.top) ==> r.bottom == inset.bottom)
      && (on && edges.left && !edges.right ==> r.left >= draw.right && (r.left == inset.left || r.left == draw.right))
      && (!(on && edges.left && !edges.right) ==> r.left == inset.left)
      && (on && edges.right && !edges.left ==>
            r.right >= width - draw.left && (r.right == inset.right || r.right == width - draw.left))
      && (!(on && edges.right && !edges.left) ==> r.right == inset.right)
  {
    if edges.IsNone() || draw.IsEmpty() then inset
    else
      var top := if edges.top && !edges.bottom then Max(inset.top, draw.bottom) else inset.top;
      var bottom := if edges.bottom && !edges.top then Max(inset.bottom, height - draw.top) else inset.bottom;
      var left := if edges.left && !edges.right then Max(inset.left, draw.right) else inset.left;
      var right := if edges.right && !edges.left then Max(inset.right, width - draw.left) else inset.right;
      Rect(left, top, right, bottom)
  }

  /** A child's inset edges together with its draw rectangle at the time it was visited. */
  datatype Contribution = Contribution(edges: Edges, draw: Rect)

  /** The inset rectangle after a pass has visited `cs`, starting from zero. */
  function InsetOf(cs: seq<Contribution>, width: int, height: int): Rect
  {
    if cs == [] then EmptyRect
    else AccumulateInset(InsetOf(cs[..|cs| - 1], width, height), cs[|cs| - 1].edges, cs[|cs| - 1].draw,
                         width, height)
  }

  /** `inset` is component-wise at least `lo`. */
  predicate Covers(inset: Rect, lo: Rect) {
    inset.left >= lo.left && inset.top >= lo.top && inset.right >= lo.right && inset.bottom >= lo.bottom
  }

  /**
   * Over a whole pass the inset starts at zero and never shrinks: the inset after
   * any prefix of the visits is covered by the inset after all of them, and
   * every component is non-negative.
   */
  lemma {:induction false} InsetOfGrows(cs: seq<Contribution>, k: nat, width: int, height: int)
    requires k <= |cs|
    ensures Covers(InsetOf(cs, width, height), InsetOf(cs[..k], width, height))
    ensures Covers(InsetOf(cs, width, height), EmptyRect)
    decreases |cs|
  {
    if cs != [] {
      var init := cs[..|cs| - 1];
      if k < |cs| {
        assert cs[..k] == init[..k];
        InsetOfGrows(init, k, width, height);
      } else {
        assert cs[..k] == cs;
      }
      InsetOfGrows(init, 0, width, height);
    }
  }

  /**
   * The bottom inset after a pass covers every child that contributed a BOTTOM
   * inset edge: it is at least the distance from that child's top to the
   * container's bottom (and likewise on the other three edges).
   */
  lemma {:induction false} InsetOfCoversEveryContributor(cs: seq<Contribution>, k: nat, width: int, height: int)
    requires k < |cs|
    requires !cs[k].edges.IsNone() && !cs[k].draw.IsEmpty()
    ensures var r := InsetOf(cs, width, height);
            var c := cs[k];
            && (c.edges.top && !c.edges.bottom ==> r.top >= c.draw.bottom)
            && (c.edges.bottom && !c.edges.top ==> r.bottom >= height - c.draw.top)
            && (c.edges.left && !c.edges.right ==> r.left >= c.draw.right)
            && (c.edges.right && !c.edges.left ==> r.right >= width - c.draw.left)
    decreases |cs|
  {
    var init := cs[..|cs| - 1];
    if k < |cs| - 1 {
      assert init[k] == cs[k];
      InsetOfCoversEveryContributor(init, k, width, height);
    }
  }

  /**
   * A child with a BOTTOM inset edge whose draw rectangle starts 500 pixels down
   * an 800-pixel container leaves a 300-pixel bottom inset.
   */
  lemma BottomInsetExample()
    ensures InsetOf([Contribution(Edges(false, true, false, false), Rect(0, 500, 100, 800))], 100, 800)
         == Rect(0, 0, 0, 300)
  {
  }

  // ---------------------------------------------------------------------
  // Dodging on one axis

  /**
   * The near-edge (TOP or LEFT) rule of `offsetChildByInset`: when the edge is
   * dodged and the child, with its current offset undone, would sit closer to the
   * near side than the inset, the new offset moves it exactly clear of the inset.
   */
  function NearShift(near: bool, nearPos: int, nearMargin: int, offset: int, nearInset: int): (r: Option<int>)
    ensures r.Some? <==> near && nearPos - nearMargin - offset < nearInset
    ensures r.Some? ==> nearPos - offset + r.value - nearMargin == nearInset && r.value > 0
  {
    var distance := nearPos - nearMargin - offset;
    if near && distance < nearInset then Some(nearInset - distance) else None
  }

  /**
   * The far-edge (BOTTOM or RIGHT) rule: the same, measured from the far side of
   * a container `extent` long; the offset it asks for is negative.
   */
  function FarShift(far: bool, farPos: int, farMargin: int, offset: int, farInset: int, extent: int): (r: Option<int>)
    ensures r.Some? <==> far && extent - farPos - farMargin + offset < farInset
    ensures r.Some? ==> extent - (farPos - offset + r.value) - farMargin == farInset && r.value < 0
  {
    var distance := extent - farPos - farMargin + offset;
    if far && distance < farInset then Some(distance - farInset) else None
  }

  /**
   * The inset offset an axis ends with: reset to 0 when neither edge needs a
   * shift; otherwise the far-edge shift, computed after the near-edge shift has
   * already been stored as the offset, wins over the near-edge one.
   */
  function DodgeAxis(near: bool, far: bool, nearPos: int, farPos: int, nearMargin: int, farMargin: int,
                     offset: int, nearInset: int, farInset: int, extent: int): (r: int)
    ensures var n := NearShift(near, nearPos, nearMargin, offset, nearInset);
            var f := FarShift(far, farPos, farMargin, if n.Some? then n.value else offset, farInset, extent);
            && (n.None? && f.None? ==> r == 0)
            && (n.Some? && f.None? ==> r == n.value)
            && (f.Some? ==> r == f.value)
  {
    var n := NearShift(near, nearPos, nearMargin, offset, nearInset);
    var offset1 := if n.Some? then n.value else offset;
    var f := FarShift(far, farPos, farMargin, offset1, farInset, extent);
    if f.Some? then f.value else if n.Some? then n.value else 0
  }

  /**
   * When the child dodges only one edge of an axis, its dodge rectangle ends up
   * with that edge clear of the inset (at or beyond it), and exactly on it when
   * it had to move.
   */
  lemma DodgeClearsInset(near: bool, far: bool, nearPos: int, farPos: int, nearMargin: int, farMargin: int,
                         offset: int, nearInset: int, farInset: int, extent: int)
    requires near != far
    ensures var r := DodgeAxis(near, far, nearPos, farPos, nearMargin, farMargin, offset, nearInset, farInset, extent);
            && (near ==> nearPos - offset + r - nearMargin >= nearInset)
            && (near && r != 0 ==> nearPos - offset + r - nearMargin == nearInset)
            && (far ==> extent - (farPos - offset + r) - farMargin >= farInset)
            && (far && r != 0 ==> extent - (farPos - offset + r) - farMargin == farInset)
  {
  }

  /**
   * A child dodging BOTTOM whose dodge rectangle ends at 750 in an 800-pixel
   * container with a 300-pixel bottom inset is moved up by 250.
   */
  lemma DodgeExample()
    ensures DodgeAxis(false, true, 700, 750, 0, 0, 0, 0, 300, 800) == -250
  {
  }

  // ---------------------------------------------------------------------
  // Change notification

  /** Whether a child's dependents are notified, and its recorded rectangle afterwards. */
  datatype Recorded = Recorded(notify: bool, last: Rect)

  /**
   * A removal always notifies and leaves the record alone; any other event
   * notifies exactly when the draw rectangle differs from the recorded one, and
   * the record then holds the draw rectangle.
   */
  function RecordChildRect(kind: Event, last: Rect, draw: Rect): (r: Recorded)
    ensures kind == ViewRemoved ==> r.notify && r.last == last
    ensures kind != ViewRemoved ==> (r.notify <==> last != draw) && r.last == draw
  {
    if kind == ViewRemoved then Recorded(true, last)
    else if last == draw then Recorded(false, last)
    else Recorded(true, draw)
  }

  /** What the engine does to one dependent of a changed child. */
  datatype Reaction = Skipped | Changed | Removed

  /** The reaction and the dependent's "changed after nested scroll" flag afterwards. */
  datatype Notified = Notified(reaction: Reaction, flag: bool)

  /**
   * The dependent protocol: a pre-draw that finds the flag set clears it and
   * skips this one notification; a removal calls the removal hook whatever the
   * flag; otherwise the change hook is called, and on a nested scroll its
   * "handled" answer becomes the flag.
   */
  function NotifyDependent(kind: Event, flag: bool, handled: bool): (r: Notified)
    ensures kind == PreDraw && flag ==> r == Notified(Skipped, false)
    ensures kind == PreDraw && !flag ==> r == Notified(Changed, false)
    ensures kind == NestedScroll ==> r == Notified(Changed, handled)
    ensures kind == ViewRemoved ==> r == Notified(Removed, flag)
  {
    if kind == PreDraw && flag then Notified(Skipped, false)
    else if kind == ViewRemoved then Notified(Removed, flag)
    else Notified(Changed, if kind == NestedScroll then handled else flag)
  }

  /** Skipped pre-draws, and nested scrolls whose change hook reported "handled". */
  datatype Tally = Tally(flag: bool, skipped: nat, handledScrolls: nat)

  /** One dependent seeing `events` in turn, the change hook answering `handled[k]`. */
  function Replay(events: seq<Event>, handled: seq<bool>, flag: bool): Tally
    requires |handled| == |events|
  {
    if events == [] then Tally(flag, 0, 0)
    else
      var n := NotifyDependent(events[0], flag, handled[0]);
      var rest := Replay(events[1..], handled[1..], n.flag);
      Tally(rest.flag,
            rest.skipped + (if n.reaction == Skipped then 1 else 0),
            rest.handledScrolls + (if events[0] == NestedScroll && handled[0] then 1 else 0))
  }

  /**
   * The flag is consumed exactly once: a dependent skips at most one pre-draw
   * notification per nested scroll it reported as handled (plus one if the flag
   * was already set).
   */
  lemma {:induction false} AtMostOneSkipPerHandledScroll(events: seq<Event>, handled: seq<bool>, flag: bool)
    requires |handled| == |events|
    ensures var t := Replay(events, handled, flag);
            t.skipped + (if t.flag then 1 else 0) <= t.handledScrolls + (if flag then 1 else 0)
  {
    if events != [] {
      var n := NotifyDependent(events[0], flag, handled[0]);
      AtMostOneSkipPerHandledScroll(events[1..], handled[1..], n.flag);
    }
  }
}
