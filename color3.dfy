/**
 * An RGB colour whose three channels are numbers, usually in [0, 1].
 *
 * Channels are exact reals: the rounding of IEEE doubles is not modelled.
 * JavaScript's integer operators used by `setHex` (ToInt32, `>>`, `& 255`)
 * and its truncating `%` on numbers are written out explicitly.
 */
module Colors {
  import opened Wrappers

  const TWO_31: int := 0x8000_0000
  const TWO_32: int := 0x1_0000_0000

  /** JavaScript's ToInt32: wrap an integer into the signed 32-bit range. */
  function ToInt32(x: int): (r: int)
    ensures -TWO_31 <= r < TWO_31
    ensures (r - x) % TWO_32 == 0
  {
    var m := x % TWO_32;
    if m >= TWO_31 then m - TWO_32 else m
  }

  /** `x >> n` on a signed 32-bit value is floor division by 2^n (Dafny's `/` floors for a positive divisor). */
  function ShiftRight(x: int, divisor: int): int
    requires divisor > 0
  {
    x / divisor
  }

  /** `x & 255` on a two's-complement value is its remainder modulo 256. */
  function LowByte(x: int): (r: int)
    ensures 0 <= r < 256
  {
    x % 256
  }

  /** The byte `setHex` extracts: `(hex >> shift) & 255` after `Math.floor`, as an integer in [0, 255]. */
  function HexByte(hex: real, divisor: int): (r: int)
    requires divisor > 0
    ensures 0 <= r <= 255
  {
    LowByte(ShiftRight(ToInt32(hex.Floor), divisor))
  }

  /**
   * The three bytes of a 24-bit colour number are exactly its red, green and
   * blue digits in base 256.
   */
  lemma HexBytesDecompose(hex: int)
    requires 0 <= hex < 0x100_0000
    ensures HexByte(hex as real, 0x1_0000) * 0x1_0000 + HexByte(hex as real, 0x100) * 0x100 + HexByte(hex as real, 1) == hex
  {
    assert (hex as real).Floor == hex;
    assert ToInt32(hex) == hex;
    var r, g, b := hex / 0x1_0000, (hex / 0x100) % 0x100, hex % 0x100;
    assert HexByte(hex as real, 0x1_0000) == r;
    assert HexByte(hex as real, 0x100) == g;
    assert HexByte(hex as real, 1) == b;
    assert hex == (hex / 0x100) * 0x100 + b;
    assert hex / 0x100 == r * 0x100 + g;
  }

  /** JavaScript's `n % m` on numbers: the remainder of division truncated toward zero. */
  function JsRem(n: real, m: real): (r: real)
    requires m != 0.0
  {
    n - m * Trunc(n / m) as real
  }

  /** Truncation toward zero. */
  function Trunc(x: real): (r: int)
    ensures 0.0 <= x ==> r == x.Floor
    ensures x < 0.0 ==> r == -((-x).Floor)
  {
    if x >= 0.0 then x.Floor else -((-x).Floor)
  }

  /** `((n % m) + m) % m`: the remainder of `n` modulo `m` that lies in [0, m). */
  function EuclideanModulo(n: real, m: real): real
    requires m != 0.0
  {
    JsRem(JsRem(n, m) + m, m)
  }

  lemma MulNonneg(a: real, b: real)
    requires 0.0 <= a && 0.0 <= b
    ensures 0.0 <= a * b
  {
  }

  /** A fraction `a` in [0, 1] of `d` lies between 0 and `d`. */
  lemma ScaledBetween(d: real, a: real)
    requires 0.0 <= a <= 1.0
    ensures 0.0 <= d ==> 0.0 <= d * a <= d
    ensures d < 0.0 ==> d <= d * a <= 0.0
  {
    if 0.0 <= d {
      MulNonneg(d, a);
      MulNonneg(d, 1.0 - a);
      assert d * (1.0 - a) == d - d * a;
    } else {
      MulNonneg(-d, a);
      MulNonneg(-d, 1.0 - a);
      assert (-d) * (1.0 - a) == d * a - d;
      assert (-d) * a == -(d * a);
    }
  }

  /** A remainder by 1 keeps the sign of the dividend, is smaller than 1 in magnitude, and is the dividend minus its integer part. */
  lemma JsRemByOne(n: real)
    ensures 0.0 <= n ==> 0.0 <= JsRem(n, 1.0) < 1.0
    ensures n < 0.0 ==> -1.0 < JsRem(n, 1.0) <= 0.0
    ensures JsRem(n, 1.0) == n - Trunc(n) as real
  {
    assert n / 1.0 == n;
  }

  /** `x` is a whole number. */
  predicate IsWhole(x: real)
  {
    x.Floor as real == x
  }

  /** For the modulus 1 that `setHSL` uses, the result lies in [0, 1) and differs from `n` by a whole number. */
  lemma EuclideanModuloByOne(n: real)
    ensures 0.0 <= EuclideanModulo(n, 1.0) < 1.0
    ensures IsWhole(n - EuclideanModulo(n, 1.0))
  {
    JsRemByOne(n);
    var r1 := JsRem(n, 1.0);
    JsRemByOne(r1 + 1.0);
    var k := Trunc(n) + Trunc(r1 + 1.0) - 1;
    assert n - EuclideanModulo(n, 1.0) == k as real;
  }

  /** One channel of an HSL colour, from the two ramp ends `p`, `q` and the shifted hue `t`. */
  function Hue2rgb(p: real, q: real, t: real): real
  {
    var t1 := if t < 0.0 then t + 1.0 else t;
    var t2 := if t1 > 1.0 then t1 - 1.0 else t1;
    if t2 < 1.0 / 6.0 then p + (q - p) * 6.0 * t2
    else if t2 < 1.0 / 2.0 then q
    else if t2 < 2.0 / 3.0 then p + (q - p) * 6.0 * (2.0 / 3.0 - t2)
    else p
  }

  function Min(a: real, b: real): real { if a <= b then a else b }
  function Max(a: real, b: real): real { if a <= b then b else a }

  /** For a hue shift in [-1, 2] a channel always lies between the two ramp ends. */
  lemma Hue2rgbBetween(p: real, q: real, t: real)
    requires -1.0 <= t <= 2.0
    ensures Min(p, q) <= Hue2rgb(p, q, t) <= Max(p, q)
  {
    var t1 := if t < 0.0 then t + 1.0 else t;
    var t2 := if t1 > 1.0 then t1 - 1.0 else t1;
    assert 0.0 <= t2 <= 1.0;
    if t2 < 1.0 / 6.0 {
      BetweenOnRamp(p, q, 6.0 * t2);
      assert p + (q - p) * 6.0 * t2 == p + (q - p) * (6.0 * t2);
    } else if t2 < 1.0 / 2.0 {
    } else if t2 < 2.0 / 3.0 {
      BetweenOnRamp(p, q, 6.0 * (2.0 / 3.0 - t2));
      assert p + (q - p) * 6.0 * (2.0 / 3.0 - t2) == p + (q - p) * (6.0 * (2.0 / 3.0 - t2));
    }
  }

  /** A point `p + (q - p) * a` with `a` in [0, 1] lies between `p` and `q`. */
  lemma BetweenOnRamp(p: real, q: real, a: real)
    requires 0.0 <= a <= 1.0
    ensures Min(p, q) <= p + (q - p) * a <= Max(p, q)
  {
    if p <= q {
      MulNonneg(q - p, a);
      MulNonneg(q - p, 1.0 - a);
      assert (q - p) * (1.0 - a) == (q - p) - (q - p) * a;
    } else {
      MulNonneg(p - q, a);
      MulNonneg(p - q, 1.0 - a);
      assert (p - q) * a == -((q - p) * a);
      assert (p - q) * (1.0 - a) == (p - q) + (q - p) * a;
    }
  }

  /** `Math.max(0, Math.min(1, x))`. */
  function Clamp01(x: real): (r: real)
    ensures 0.0 <= r <= 1.0
    ensures 0.0 <= x <= 1.0 ==> r == x
  {
    Max(0.0, Min(1.0, x))
  }

  /** The RGB channels `setHSL` assigns for hue `h`, saturation `s` and lightness `l`. */
  function HslToRgb(h: real, s: real, l: real): seq<real>
  {
    var h' := EuclideanModulo(h, 1.0);
    var s' := Clamp01(s);
    var l' := Clamp01(l);
    if s' == 0.0 then [l', l', l']
    else
      var p := RampHigh(s', l');
      var q := (2.0 * l') - p;
      [Hue2rgb(q, p, h' + 1.0 / 3.0), Hue2rgb(q, p, h'), Hue2rgb(q, p, h' - 1.0 / 3.0)]
  }

  /** The upper end `p` of the lightness ramp `setHSL` interpolates along; the lower end is `2l - p`. */
  function RampHigh(s: real, l: real): real
  {
    if l <= 0.5 then l * (1.0 + s) else l + s - (l * s)
  }

  /** The two ramp ends of `setHSL` lie in [0, 1] for a clamped saturation and lightness. */
  lemma RampEndsInRange(s: real, l: real)
    requires 0.0 <= s <= 1.0 && 0.0 <= l <= 1.0
    ensures 0.0 <= RampHigh(s, l) <= 1.0 && 0.0 <= 2.0 * l - RampHigh(s, l) <= 1.0
  {
    if l <= 0.5 {
      DarkRampInRange(s, l);
    } else {
      LightRampInRange(s, l);
    }
  }

  /** Lightness up to 1/2: p = l + l·s, where 0 <= l·s <= l <= 1/2. */
  lemma DarkRampInRange(s: real, l: real)
    requires 0.0 <= s <= 1.0 && 0.0 <= l <= 0.5
    ensures 0.0 <= RampHigh(s, l) <= 1.0 && 0.0 <= 2.0 * l - RampHigh(s, l) <= 1.0
  {
    ScaledBetween(l, s);
    var k := l * s;
    assert RampHigh(s, l) == l + k;
  }

  /** Lightness above 1/2: p = l + (1 - l)·s, where 0 <= (1 - l)·s <= 1 - l < 1/2. */
  lemma LightRampInRange(s: real, l: real)
    requires 0.0 <= s <= 1.0 && 0.5 < l <= 1.0
    ensures 0.0 <= RampHigh(s, l) <= 1.0 && 0.0 <= 2.0 * l - RampHigh(s, l) <= 1.0
  {
    var d := 1.0 - l;
    ScaledBetween(d, s);
    var k := d * s;
    assert 0.0 <= k <= d;
    assert l + s - (l * s) == l + k;
    assert RampHigh(s, l) == l + k;
  }

  /** Whatever the arguments, every channel `setHSL` produces lies in [0, 1]. */
  lemma HslToRgbInRange(h: real, s: real, l: real)
    ensures |HslToRgb(h, s, l)| == 3
    ensures forall i :: 0 <= i < 3 ==> 0.0 <= HslToRgb(h, s, l)[i] <= 1.0
  {
    var h' := EuclideanModulo(h, 1.0);
    var s' := Clamp01(s);
    var l' := Clamp01(l);
    if s' != 0.0 {
      EuclideanModuloByOne(h);
      RampEndsInRange(s', l');
      var p := RampHigh(s', l');
      var q := (2.0 * l') - p;
      Hue2rgbBetween(q, p, h' + 1.0 / 3.0);
      Hue2rgbBetween(q, p, h');
      Hue2rgbBetween(q, p, h' - 1.0 / 3.0);
      assert HslToRgb(h, s, l) == [Hue2rgb(q, p, h' + 1.0 / 3.0), Hue2rgb(q, p, h'), Hue2rgb(q, p, h' - 1.0 / 3.0)];
    }
  }

  /** A saturation of zero or below gives a grey whose level is the clamped lightness. */
  lemma HslGreyWhenUnsaturated(h: real, s: real, l: real)
    requires s <= 0.0
    ensures HslToRgb(h, s, l) == [Clamp01(l), Clamp01(l), Clamp01(l)]
  {
  }

  /** Linear interpolation from `a` (ratio 0) to `b` (ratio 1). */
  function Lerp(a: real, b: real, ratio: real): real
  {
    ratio * (b - a) + a
  }

  /** Interpolation returns its ends at 0 and 1 and stays between them in between. */
  lemma LerpEnds(a: real, b: real, ratio: real)
    ensures Lerp(a, b, 0.0) == a && Lerp(a, b, 1.0) == b
    ensures 0.0 <= ratio <= 1.0 ==> Min(a, b) <= Lerp(a, b, ratio) <= Max(a, b)
  {
    if 0.0 <= ratio <= 1.0 {
      BetweenOnRamp(a, b, ratio);
    }
  }

  class Color3 {
    var r: real
    var g: real
    var b: real

    function Components(): seq<real>
      reads this
    {
      [r, g, b]
    }

    /**
     * A colour from a hex number when only `r` is given (none at all: black),
     * otherwise from the three channels.
     */
    constructor (r: Option<real>, g: Option<real>, b: Option<real>)
      requires g.Some? || b.Some? ==> r.Some? && g.Some? && b.Some?
      ensures g.None? && b.None? ==> Components() == HexComponents(r.GetOr(0.0))
      ensures g.Some? ==> Components() == [r.value, g.value, b.value]
    {
      this.r := 0.0;
      this.g := 0.0;
      this.b := 0.0;
      new;
      if g.None? && b.None? {
        // An absent argument floors to NaN, which ToInt32 turns into 0.
        var _ := SetHex(r.GetOr(0.0));
      } else {
        var _ := SetRGB(r.value, g.value, b.value);
      }
    }

    /** Sets each channel to `ratio` of the way from `c1`'s to `c2`'s; either may be this colour. */
    method LerpColors(c1: Color3, c2: Color3, ratio: real)
      modifies this
      ensures r == Lerp(old(c1.r), old(c2.r), ratio)
      ensures g == Lerp(old(c1.g), old(c2.g), ratio)
      ensures b == Lerp(old(c1.b), old(c2.b), ratio)
    {
      r := ratio * (c2.r - c1.r) + c1.r;
      g := ratio * (c2.g - c1.g) + c1.g;
      b := ratio * (c2.b - c1.b) + c1.b;
    }

    /** Moves this colour `ratio` of the way towards `c`. */
    method LerpTo(c: Color3, ratio: real)
      modifies this
      ensures Components() == [Lerp(old(r), old(c.r), ratio), Lerp(old(g), old(c.g), ratio), Lerp(old(b), old(c.b), ratio)]
    {
      LerpColors(this, c, ratio);
    }

    method Copy(v: Color3) returns (self: Color3)
      modifies this
      ensures self == this
      ensures Components() == old(v.Components())
    {
      r := v.r;
      g := v.g;
      b := v.b;
      return this;
    }

    /** Sets the channels from a hex number such as 0xff8000: each byte over 255. */
    method SetHex(hex: real) returns (self: Color3)
      modifies this
      ensures self == this
      ensures Components() == HexComponents(hex)
    {
      r := HexByte(hex, 0x1_0000) as real / 255.0;
      g := HexByte(hex, 0x100) as real / 255.0;
      b := HexByte(hex, 1) as real / 255.0;
      return this;
    }

    method SetRGB(r: real, g: real, b: real) returns (self: Color3)
      modifies this
      ensures self == this
      ensures Components() == [r, g, b]
    {
      this.r := r;
      this.g := g;
      this.b := b;
      return this;
    }

    method SetHSL(h: real, s: real, l: real) returns (self: Color3)
      modifies this
      ensures self == this
      ensures Components() == HslToRgb(h, s, l)
    {
      var h' := EuclideanModulo(h, 1.0);
      var s' := Clamp01(s);
      var l' := Clamp01(l);
      if s' == 0.0 {
        r, g, b := l', l', l';
      } else {
        var p := RampHigh(s', l');
        var q := (2.0 * l') - p;
        r := Hue2rgb(q, p, h' + 1.0 / 3.0);
        g := Hue2rgb(q, p, h');
        b := Hue2rgb(q, p, h' - 1.0 / 3.0);
      }
      return this;
    }

    /** Reads the channels from `array` at `offset` (absent: 0). */
    method FromArray(arr: array<real>, offset: Option<nat>) returns (self: Color3)
      requires offset.GetOr(0) + 3 <= arr.Length
      modifies this
      ensures self == this
      ensures Components() == arr[offset.GetOr(0)..offset.GetOr(0) + 3]
    {
      var off := offset.GetOr(0);
      r := arr[off];
      g := arr[off + 1];
      b := arr[off + 2];
      return this;
    }

    /**
     * Writes the channels into `array` (absent: a new array) at `offset`
     * (absent: 0) and returns that array; no other entry changes.
     */
    method ToArray(arr: Option<array<real>>, offset: Option<nat>) returns (a: array<real>)
      requires arr.Some? ==> offset.GetOr(0) + 3 <= arr.value.Length
      modifies if arr.Some? then {arr.value} else {}
      ensures arr.Some? ==> a == arr.value
      ensures arr.None? ==> fresh(a) && a.Length == offset.GetOr(0) + 3
      ensures a[offset.GetOr(0)..offset.GetOr(0) + 3] == Components()
      ensures arr.Some? ==> forall p :: 0 <= p < a.Length && !(offset.GetOr(0) <= p < offset.GetOr(0) + 3) ==> a[p] == old(a[p])
    {
      var off := offset.GetOr(0);
      if arr.Some? {
        a := arr.value;
      } else {
        a := new real[off + 3](_ => 0.0);
      }
      a[off] := r;
      a[off + 1] := g;
      a[off + 2] := b;
    }
  }

  /** The channels `setHex` assigns: the bytes of the floored number, each over 255. */
  function HexComponents(hex: real): (c: seq<real>)
    ensures |c| == 3 && forall i :: 0 <= i < 3 ==> 0.0 <= c[i] <= 1.0
  {
    [HexByte(hex, 0x1_0000) as real / 255.0, HexByte(hex, 0x100) as real / 255.0, HexByte(hex, 1) as real / 255.0]
  }

  /** Writing a colour into an array and reading it back gives the same colour, and leaves the array as it was written. */
  method ArrayRoundTrip(c: Color3, arr: array<real>, offset: nat)
    requires offset + 3 <= arr.Length
    modifies c, arr
    ensures c.Components() == old(c.Components())
    ensures arr[offset..offset + 3] == old(c.Components())
  {
    var a := c.ToArray(Some(arr), Some(offset));
    var self := c.FromArray(a, Some(offset));
  }
}
