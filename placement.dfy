/**
 * The placement arithmetic of CoordinatorLayout: keyline lookup, the width a
 * keyline reserves during measurement, the desired rectangle of an anchored child
 * and the clamp into the padded, margin-adjusted content area.
 */
module Placement {
  import opened Common
  import opened Geometry
  import opened Gravity

  /** The container's own size (`getWidth`, `getHeight`) and padding. */
  datatype Box = Box(width: int, height: int,
                     paddingLeft: int, paddingTop: int, paddingRight: int, paddingBottom: int)

  /** A child's `MarginLayoutParams` margins. */
  datatype Margins = Margins(left: int, top: int, right: int, bottom: int)

  /** `MeasureSpec` modes. */
  datatype MeasureMode = Unspecified | Exactly | AtMost

  // ---------------------------------------------------------------------
  // Keylines

  /** True when `getKeyline(index)` finds a defined keyline. */
  predicate HasKeyline(keylines: Option<seq<int>>, index: int) {
    keylines.Some? && 0 <= index < |keylines.value|
  }

  /**
   * `getKeyline`: the keyline position, or 0 (after logging) when no keylines are
   * set or the index is out of range.
   */
  function GetKeyline(keylines: Option<seq<int>>, index: int): (r: int)
    ensures HasKeyline(keylines, index) ==> r == keylines.value[index]
    ensures !HasKeyline(keylines, index) ==> r == 0
  {
    match keylines
    case None => 0
    case Some(lines) => if 0 <= index < |lines| then lines[index] else 0
  }

  /** The horizontal gravity a keyline child is measured and laid out with. */
  function KeylineHGravity(gravity: Gravity, rtl: bool): HGravity {
    Absolute(ResolveKeylineGravity(gravity), rtl).h
  }

  /**
   * The `widthUsed` that `onMeasure` passes when measuring a keyline child: the
   * space on the far side of the keyline from the child, never negative, and
   * nothing when there is no keyline, the width is unconstrained, or the child
   * is centred on its keyline.
   */
  function KeylineWidthUsed(keylines: Option<seq<int>>, keyline: int, gravity: Gravity, rtl: bool,
                            widthMode: MeasureMode, widthSize: int, box: Box): (r: int)
    ensures r >= 0
    ensures keyline < 0 || widthMode == Unspecified ==> r == 0
    ensures keyline >= 0 && widthMode != Unspecified ==>
      var pos := GetKeyline(keylines, keyline);
      var h := KeylineHGravity(gravity, rtl);
      && ((h == Left && !rtl) || (h == Right && rtl) ==> r == Max(0, widthSize - box.paddingRight - pos))
      && ((h == Right && !rtl) || (h == Left && rtl) ==> r == Max(0, pos - box.paddingLeft))
      && (h != Left && h != Right ==> r == 0)
  {
    if keyline >= 0 && widthMode != Unspecified then
      var pos := GetKeyline(keylines, keyline);
      var h := KeylineHGravity(gravity, rtl);
      if (h == Left && !rtl) || (h == Right && rtl) then Max(0, widthSize - box.paddingRight - pos)
      else if (h == Right && !rtl) || (h == Left && rtl) then Max(0, pos - box.paddingLeft)
      else 0
    else 0
  }

  // ---------------------------------------------------------------------
  // The clamp shared by anchored and keyline placement

  /**
   * `constrainChildRect`: keep a `w` by `h` child inside the padded content area,
   * respecting its margins. The lower (left, top) bound wins when the area is too
   * small for the child.
   */
  function ConstrainChildRect(box: Box, m: Margins, r: Rect, w: int, h: int): (c: Rect)
    ensures c.Width() == w && c.Height() == h
    ensures c.left >= box.paddingLeft + m.left
    ensures c.top >= box.paddingTop + m.top
    ensures box.paddingLeft + m.left <= box.width - box.paddingRight - w - m.right ==>
              c.right <= box.width - box.paddingRight - m.right
    ensures box.paddingTop + m.top <= box.height - box.paddingBottom - h - m.bottom ==>
              c.bottom <= box.height - box.paddingBottom - m.bottom
    ensures box.paddingLeft + m.left <= r.left <= box.width - box.paddingRight - w - m.right ==>
              c.left == r.left
    ensures box.paddingTop + m.top <= r.top <= box.height - box.paddingBottom - h - m.bottom ==>
              c.top == r.top
    ensures r.left < box.paddingLeft + m.left ==> c.left == box.paddingLeft + m.left
    ensures r.top < box.paddingTop + m.top ==> c.top == box.paddingTop + m.top
    ensures r.left > box.width - box.paddingRight - w - m.right ==>
              c.left == Max(box.paddingLeft + m.left, box.width - box.paddingRight - w - m.right)
    ensures r.top > box.height - box.paddingBottom - h - m.bottom ==>
              c.top == Max(box.paddingTop + m.top, box.height - box.paddingBottom - h - m.bottom)
  {
    var left := Clamp(r.left, box.paddingLeft + m.left, box.width - box.paddingRight - w - m.right);
    var top := Clamp(r.top, box.paddingTop + m.top, box.height - box.paddingBottom - h - m.bottom);
    Rect(left, top, left + w, top + h)
  }

  /** A rectangle that has already been constrained is left where it is. */
  lemma ConstrainIdempotent(box: Box, m: Margins, r: Rect, w: int, h: int)
    ensures ConstrainChildRect(box, m, ConstrainChildRect(box, m, r, w, h), w, h)
         == ConstrainChildRect(box, m, r, w, h)
  {
    ClampIdempotent(r.left, box.paddingLeft + m.left, box.width - box.paddingRight - w - m.right);
    ClampIdempotent(r.top, box.paddingTop + m.top, box.height - box.paddingBottom - h - m.bottom);
  }

  // ---------------------------------------------------------------------
  // Anchored placement

  /** The absolute gravity of an anchored child (`resolveAnchoredChildGravity`). */
  function AnchoredChildGravity(gravity: Gravity, rtl: bool): Gravity {
    Absolute(ResolveAnchoredChildGravity(gravity), rtl)
  }

  /** The absolute anchor gravity (`resolveGravity` of `anchorGravity`). */
  function AnchorSideGravity(anchorGravity: Gravity, rtl: bool): Gravity {
    Absolute(ResolveGravity(anchorGravity), rtl)
  }

  /** The vertical line of the anchor the child is aligned to. */
  function AnchorLineX(anchor: Rect, h: HGravity): (x: int)
    ensures h == Right ==> x == anchor.right
    ensures h != Right && h != CenterHorizontal ==> x == anchor.left
    ensures h == CenterHorizontal && anchor.left <= anchor.right ==> anchor.left <= x <= anchor.right
  {
    match h
    case Right => anchor.right
    case CenterHorizontal => anchor.left + Div(anchor.Width(), 2)
    case _ => anchor.left
  }

  /** The horizontal line of the anchor the child is aligned to. */
  function AnchorLineY(anchor: Rect, v: VGravity): (y: int)
    ensures v == Bottom ==> y == anchor.bottom
    ensures v != Bottom && v != CenterVertical ==> y == anchor.top
    ensures v == CenterVertical && anchor.top <= anchor.bottom ==> anchor.top <= y <= anchor.bottom
  {
    match v
    case Bottom => anchor.bottom
    case CenterVertical => anchor.top + Div(anchor.Height(), 2)
    case _ => anchor.top
  }

  /**
   * `getDesiredAnchoredChildRectWithoutConstraints`: the anchor gravity picks a line
   * on the anchor (its left, right or centre; its top, bottom or centre) and the
   * child gravity puts the child before it (LEFT, TOP, and any other value),
   * after it (RIGHT, BOTTOM) or centred on it.
   */
  function DesiredAnchoredRect(anchor: Rect, gravity: Gravity, anchorGravity: Gravity, rtl: bool,
                               w: int, h: int): (r: Rect)
    ensures r.Width() == w && r.Height() == h
    ensures var g := AnchoredChildGravity(gravity, rtl).h;
            var x := AnchorLineX(anchor, AnchorSideGravity(anchorGravity, rtl).h);
            && (g == Right ==> r.left == x)
            && (g == CenterHorizontal ==> r.left + Div(w, 2) == x)
            && (g != Right && g != CenterHorizontal ==> r.right == x)
    ensures var g := AnchoredChildGravity(gravity, rtl).v;
            var y := AnchorLineY(anchor, AnchorSideGravity(anchorGravity, rtl).v);
            && (g == Bottom ==> r.top == y)
            && (g == CenterVertical ==> r.top + Div(h, 2) == y)
            && (g != Bottom && g != CenterVertical ==> r.bottom == y)
  {
    var childG := AnchoredChildGravity(gravity, rtl);
    var anchorG := AnchorSideGravity(anchorGravity, rtl);
    var left := AnchorLineX(anchor, anchorG.h);
    var top := AnchorLineY(anchor, anchorG.v);
    var left' := match childG.h
      case Right => left
      case CenterHorizontal => left - Div(w, 2)
      case _ => left - w;
    var top' := match childG.v
      case Bottom => top
      case CenterVertical => top - Div(h, 2)
      case _ => top - h;
    Rect(left', top', left' + w, top' + h)
  }

  /** `getDesiredAnchoredChildRect`: the desired rectangle, then the clamp. */
  function AnchoredChildRect(box: Box, m: Margins, anchor: Rect, gravity: Gravity, anchorGravity: Gravity,
                             rtl: bool, w: int, h: int): (r: Rect)
    ensures r.Width() == w && r.Height() == h
    ensures r == ConstrainChildRect(box, m, r, w, h)
  {
    ConstrainIdempotent(box, m, DesiredAnchoredRect(anchor, gravity, anchorGravity, rtl, w, h), w, h);
    ConstrainChildRect(box, m, DesiredAnchoredRect(anchor, gravity, anchorGravity, rtl, w, h), w, h)
  }

  /**
   * A child anchored with anchor gravity TOP and gravity TOP sits directly above
   * its anchor: its bottom is the anchor's top.
   */
  lemma AnchoredAboveAnchor(anchor: Rect, rtl: bool, w: int, h: int)
    ensures var g := Gravity(NoHorizontal, Top);
            var r := DesiredAnchoredRect(anchor, g, g, rtl, w, h);
            r.bottom == anchor.top && r.Height() == h
  {
  }

  // ---------------------------------------------------------------------
  // Keyline placement

  /**
   * The keyline `layoutChildWithKeyline` aligns to. Under RTL it mirrors the
   * keyline INDEX (`width - keyline`) before the lookup, not the position.
   */
  function KeylineLine(keylines: Option<seq<int>>, keyline: int, rtl: bool, box: Box): int {
    GetKeyline(keylines, if rtl then box.width - keyline else keyline)
  }

  /**
   * The unclamped left edge of a keyline child: it ends on the keyline (LEFT and
   * any other value), starts on it (RIGHT) or straddles it (CENTER_HORIZONTAL).
   */
  function KeylineLeft(keylines: Option<seq<int>>, keyline: int, gravity: Gravity, rtl: bool,
                       box: Box, w: int): (x: int)
    ensures var line := KeylineLine(keylines, keyline, rtl, box);
            var g := KeylineHGravity(gravity, rtl);
            && (g == Right ==> x == line)
            && (g == CenterHorizontal ==> x + w - Div(w, 2) == line)
            && (g != Right && g != CenterHorizontal ==> x + w == line)
  {
    var left := KeylineLine(keylines, keyline, rtl, box) - w;
    match KeylineHGravity(gravity, rtl)
    case Right => left + w
    case CenterHorizontal => left + Div(w, 2)
    case _ => left
  }

  /**
   * The unclamped top of a keyline child: keylines are horizontal only, so the
   * child starts at 0 and is pushed down by its height (BOTTOM) or half of it.
   */
  function KeylineTop(gravity: Gravity, rtl: bool, h: int): (y: int)
    ensures var v := Absolute(ResolveKeylineGravity(gravity), rtl).v;
            && (v == Bottom ==> y == h)
            && (v == CenterVertical ==> y == Div(h, 2))
            && (v != Bottom && v != CenterVertical ==> y == 0)
  {
    match Absolute(ResolveKeylineGravity(gravity), rtl).v
    case Bottom => h
    case CenterVertical => Div(h, 2)
    case _ => 0
  }

  /**
   * The frame `layoutChildWithKeyline` gives its child: the inline clamp of that
   * method is the clamp of `constrainChildRect`.
   */
  function KeylineChildRect(keylines: Option<seq<int>>, keyline: int, gravity: Gravity, rtl: bool,
                            box: Box, m: Margins, w: int, h: int): (r: Rect)
    ensures r.Width() == w && r.Height() == h
    ensures var x := KeylineLeft(keylines, keyline, gravity, rtl, box, w);
            var y := KeylineTop(gravity, rtl, h);
            r == ConstrainChildRect(box, m, Rect(x, y, x + w, y + h), w, h)
  {
    var left := Max(box.paddingLeft + m.left,
                    Min(KeylineLeft(keylines, keyline, gravity, rtl, box, w),
                        box.width - box.paddingRight - w - m.right));
    var top := Max(box.paddingTop + m.top,
                   Min(KeylineTop(gravity, rtl, h), box.height - box.paddingBottom - h - m.bottom));
    Rect(left, top, left + w, top + h)
  }

  /**
   * Under RTL a keyline index whose mirror `width - keyline` falls outside the
   * keyline array aligns the child to position 0, whatever the keyline values.
   */
  lemma RtlKeylineMirrorsIndex(keylines: Option<seq<int>>, keyline: int, box: Box)
    requires HasKeyline(keylines, keyline)
    requires box.width - keyline >= |keylines.value|
    ensures KeylineLine(keylines, keyline, true, box) == 0
    ensures KeylineLine(keylines, keyline, false, box) == keylines.value[keyline]
  {
  }
}
