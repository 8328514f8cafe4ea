/**
 * The skip-or-resize decision for one texture: whether a texture that is
 * already small is copied as it is, and otherwise which size it is resized to.
 */
module ScalePolicy {

  /** A scale factor as a fraction num/den. */
  datatype Ratio = Ratio(num: nat, den: nat)

  /** A usable scale factor is positive. */
  type Scale = r: Ratio | r.num > 0 && r.den > 0 witness Ratio(1, 1)

  /** The three choices of the scale radio buttons: "0.5", "0.25" and "2.0". */
  datatype Preset = ShrinkTwo | ShrinkFour | StretchTwo

  function Factor(p: Preset): Scale {
    match p
    case ShrinkTwo => Ratio(1, 2)
    case ShrinkFour => Ratio(1, 4)
    case StretchTwo => Ratio(2, 1)
  }

  /** Sides up to this many pixels count as "4K or smaller". */
  const SmallSide: nat := 4096

  function Max(a: nat, b: nat): nat {
    if a < b then b else a
  }

  /** scale_factor < 1.0 */
  predicate Shrinks(s: Scale) {
    s.num < s.den
  }

  /** The skip test: the option is on, the scale shrinks and neither side exceeds 4096. */
  predicate SkipsSmall(width: nat, height: nat, s: Scale, skipIfSmall: bool) {
    skipIfSmall && Shrinks(s) && Max(width, height) <= SmallSide
  }

  /** int(x * scale): the product truncated towards zero, which for x >= 0 is its floor. */
  function Scaled(x: nat, s: Scale): nat {
    x * s.num / s.den
  }

  datatype Decision = SkipCopy | Resize(width: nat, height: nat)

  /** What happens to a decoded width x height texture. */
  function Decide(width: nat, height: nat, s: Scale, skipIfSmall: bool): (d: Decision)
    ensures d.SkipCopy? <==> SkipsSmall(width, height, s, skipIfSmall)
    ensures d.Resize? ==> d.width == Scaled(width, s) && d.height == Scaled(height, s)
  {
    if SkipsSmall(width, height, s, skipIfSmall) then SkipCopy
    else Resize(Scaled(width, s), Scaled(height, s))
  }

  // ---- properties ----

  /** The scaled side is the whole part of x * scale: the largest r with r <= x * num / den. */
  lemma ScaledIsFloor(x: nat, s: Scale)
    ensures Scaled(x, s) * s.den <= x * s.num < (Scaled(x, s) + 1) * s.den
  {
  }

  /** A scale of 1 or more (the "2.0" preset among them) always resizes, whatever the option says. */
  lemma NoSkipWithoutShrinking(width: nat, height: nat, s: Scale, skipIfSmall: bool)
    requires !Shrinks(s)
    ensures Decide(width, height, s, skipIfSmall).Resize?
  {
  }

  /** A skipped texture is one whose sides are both at most 4096. */
  lemma SkipOnlySmall(width: nat, height: nat, s: Scale, skipIfSmall: bool)
    requires Decide(width, height, s, skipIfSmall) == SkipCopy
    ensures width <= SmallSide && height <= SmallSide
  {
  }

  lemma MulLe(x: nat, a: nat, b: nat)
    requires a <= b
    ensures x * a <= x * b
  {
    assert x * b == x * a + x * (b - a);
  }

  /** A product that is smaller with the same positive factor has the smaller other factor. */
  lemma CancelFactor(a: nat, b: nat, c: nat)
    requires c > 0
    ensures a * c <= b * c ==> a <= b
    ensures a * c < b * c ==> a < b
  {
    if b < a {
      MulLe(c, b + 1, a);
      assert c * (b + 1) == c * b + c;
    }
    if b <= a {
      MulLe(c, b, a);
    }
  }

  /** Shrinking never enlarges a side and strictly shortens every non-empty one. */
  lemma ShrinkShortens(x: nat, s: Scale)
    requires Shrinks(s)
    ensures Scaled(x, s) <= x
    ensures x > 0 ==> Scaled(x, s) < x
  {
    var r := Scaled(x, s);
    ScaledIsFloor(x, s);
    MulLe(x, s.num, s.den);
    CancelFactor(r, x, s.den);
    if x > 0 {
      MulLe(x, s.num + 1, s.den);
      assert x * (s.num + 1) == x * s.num + x;
    }
  }

  /** Growing by a whole factor k multiplies every side by exactly k. */
  lemma WholeGrowth(x: nat, k: nat)
    requires k > 0
    ensures Scaled(x, Ratio(k, 1)) == k * x
  {
  }

  /** The preset sides: half and quarter round down, doubling is exact. */
  lemma PresetSides(x: nat)
    ensures Scaled(x, Factor(ShrinkTwo)) == x / 2
    ensures Scaled(x, Factor(ShrinkFour)) == x / 4
    ensures Scaled(x, Factor(StretchTwo)) == 2 * x
  {
  }

  /** There is no lower bound of one pixel: a thin or tiny texture can be given a side of 0. */
  lemma ZeroSidesPossible()
    ensures Decide(1, 1, Factor(ShrinkTwo), false) == Resize(0, 0)
    ensures Decide(8192, 3, Factor(ShrinkFour), true) == Resize(2048, 0)
  {
  }

  /** An 8192 x 8192 texture at 0.5 with skipping on is resized to 4096 x 4096. */
  lemma LargeTextureHalved()
    ensures Decide(8192, 8192, Factor(ShrinkTwo), true) == Resize(4096, 4096)
  {
  }

  /** A 2048 x 2048 texture at 0.5 with skipping on is copied as it is. */
  lemma SmallTextureSkipped()
    ensures Decide(2048, 2048, Factor(ShrinkTwo), true) == SkipCopy
  {
  }
}
