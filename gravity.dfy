/**
 * Gravity values of the layout engine, one enumeration per axis.
 *
 * Android packs gravity into an `int`; the model keeps the two axes apart and
 * proves, for the edge masks, that the set view agrees with the bit arithmetic
 * the engine performs on the real constants.
 */
module Gravity {

  datatype HGravity = NoHorizontal | Left | Right | CenterHorizontal | Start | End
  datatype VGravity = NoVertical | Top | Bottom | CenterVertical

  datatype Gravity = Gravity(h: HGravity, v: VGravity)

  /** `Gravity.NO_GRAVITY`, the default of `LayoutParams.gravity` and `anchorGravity`. */
  const NoGravity := Gravity(NoHorizontal, NoVertical)
  /** `Gravity.CENTER`. */
  const Center := Gravity(CenterHorizontal, CenterVertical)

  /**
   * `GravityCompat.getAbsoluteGravity`: START and END become LEFT or RIGHT for the
   * layout direction; everything else is already absolute.
   */
  function Absolute(g: Gravity, rtl: bool): (r: Gravity)
    ensures r.v == g.v
    ensures r.h != Start && r.h != End
    ensures g.h != Start && g.h != End ==> r.h == g.h
  {
    match g.h
    case Start => g.(h := if rtl then Right else Left)
    case End => g.(h := if rtl then Left else Right)
    case _ => g
  }

  /** START and END swap sides between the two layout directions. */
  lemma AbsoluteMirrors(g: Gravity)
    requires g.h == Start || g.h == End
    ensures Absolute(g, false).h != Absolute(g, true).h
    ensures Absolute(g, false).h == Left || Absolute(g, false).h == Right
    ensures Absolute(g, true).h == Left || Absolute(g, true).h == Right
  {
  }

  /**
   * `resolveGravity`: an axis left at NO_GRAVITY defaults to START (horizontal)
   * or TOP (vertical); an axis that was set is kept.
   */
  function ResolveGravity(g: Gravity): (r: Gravity)
    ensures r.h != NoHorizontal && r.v != NoVertical
    ensures g.h != NoHorizontal ==> r.h == g.h
    ensures g.v != NoVertical ==> r.v == g.v
    ensures g.h == NoHorizontal ==> r.h == Start
    ensures g.v == NoVertical ==> r.v == Top
  {
    Gravity(if g.h == NoHorizontal then Start else g.h,
            if g.v == NoVertical then Top else g.v)
  }

  /** `resolveKeylineGravity`: only a gravity unset on BOTH axes becomes END|TOP. */
  function ResolveKeylineGravity(g: Gravity): (r: Gravity)
    ensures g != NoGravity ==> r == g
    ensures g == NoGravity ==> r.h == End && r.v == Top
  {
    if g == NoGravity then Gravity(End, Top) else g
  }

  /** `resolveAnchoredChildGravity`: only a gravity unset on BOTH axes becomes CENTER. */
  function ResolveAnchoredChildGravity(g: Gravity): (r: Gravity)
    ensures g != NoGravity ==> r == g
    ensures g == NoGravity ==> r.h == CenterHorizontal && r.v == CenterVertical
  {
    if g == NoGravity then Center else g
  }

  /** Resolving a resolved gravity changes nothing. */
  lemma ResolveGravityIdempotent(g: Gravity)
    ensures ResolveGravity(ResolveGravity(g)) == ResolveGravity(g)
  {
  }

  // ---------------------------------------------------------------------
  // The integer encoding, kept only to show the model agrees with it.

  const HorizontalMask: bv32 := 0x07
  const VerticalMask: bv32 := 0x70
  const TopBits: bv32 := 0x30
  const BottomBits: bv32 := 0x50
  const LeftBits: bv32 := 0x03
  const RightBits: bv32 := 0x05

  function HBits(h: HGravity): bv32 {
    match h
    case NoHorizontal => 0
    case Left => LeftBits
    case Right => RightBits
    case CenterHorizontal => 0x01
    case Start => 0x0080_0003
    case End => 0x0080_0005
  }

  function VBits(v: VGravity): bv32 {
    match v
    case NoVertical => 0
    case Top => TopBits
    case Bottom => BottomBits
    case CenterVertical => 0x10
  }

  function GravityBits(g: Gravity): bv32 { HBits(g.h) | VBits(g.v) }

  /**
   * The per-axis NO_GRAVITY tests of `resolveGravity` and the whole-value test of
   * the other two resolvers read the same on the enumerations as on the bits.
   */
  lemma NoGravityMatchesBits(g: Gravity)
    ensures (GravityBits(g) & HorizontalMask == 0) <==> g.h == NoHorizontal
    ensures (GravityBits(g) & VerticalMask == 0) <==> g.v == NoVertical
    ensures (GravityBits(g) == 0) <==> g == NoGravity
  {
  }

  /**
   * An inset or dodge edge mask: any combination of the four absolute edges
   * (`LayoutParams.insetEdge`, `LayoutParams.dodgeInsetEdges`).
   */
  datatype Edges = Edges(top: bool, bottom: bool, left: bool, right: bool) {
    predicate IsNone() { !top && !bottom && !left && !right }
    predicate SubsetOf(e: Edges) {
      (top ==> e.top) && (bottom ==> e.bottom) && (left ==> e.left) && (right ==> e.right)
    }
  }

  const NoEdges := Edges(false, false, false, false)

  function EdgeBits(e: Edges): bv32 {
    (if e.top then TopBits else 0) | (if e.bottom then BottomBits else 0) |
    (if e.left then LeftBits else 0) | (if e.right then RightBits else 0)
  }

  /**
   * `shouldDodge` tests `absInset != NO_GRAVITY && (absInset & absDodge) == absInset`;
   * on masks built from the four edges that is exactly non-empty set inclusion.
   */
  lemma SubsetMatchesBits(inset: Edges, dodge: Edges)
    ensures (!inset.IsNone() && inset.SubsetOf(dodge)) <==>
            (EdgeBits(inset) != 0 && EdgeBits(inset) & EdgeBits(dodge) == EdgeBits(inset))
  {
  }

  /**
   * The inset-accumulation switches match TOP/BOTTOM (LEFT/RIGHT) after masking,
   * so a mask holding both edges of an axis contributes on neither.
   */
  lemma InsetSwitchMatchesBits(e: Edges)
    ensures (EdgeBits(e) & VerticalMask == TopBits) <==> e.top && !e.bottom
    ensures (EdgeBits(e) & VerticalMask == BottomBits) <==> e.bottom && !e.top
    ensures (EdgeBits(e) & HorizontalMask == LeftBits) <==> e.left && !e.right
    ensures (EdgeBits(e) & HorizontalMask == RightBits) <==> e.right && !e.left
  {
  }

  /** The dodge tests `(absDodge & TOP) == TOP` and so on are membership tests. */
  lemma DodgeTestMatchesBits(e: Edges)
    ensures (EdgeBits(e) & TopBits == TopBits) <==> e.top
    ensures (EdgeBits(e) & BottomBits == BottomBits) <==> e.bottom
    ensures (EdgeBits(e) & LeftBits == LeftBits) <==> e.left
    ensures (EdgeBits(e) & RightBits == RightBits) <==> e.right
  {
  }
}
