/** Colour parsing, the smoothstep easing curve and the canvas resize check. */
module Helpers {

  datatype Option<T> = None | Some(value: T)

  /** A colour with channels scaled to [0, 1]. */
  datatype Rgb = Rgb(r: real, g: real, b: real)

  // ---------------------------------------------------------------------
  // hexToRgb: `/^#?([a-f\d]{2})([a-f\d]{2})([a-f\d]{2})$/i`, then each pair
  // parsed base 16 and divided by 255; `null` when the pattern fails.
  // ---------------------------------------------------------------------

  /** `[a-f\d]` under the `i` flag. */
  predicate IsHexDigit(c: char) {
    ('0' <= c <= '9') || ('a' <= c <= 'f') || ('A' <= c <= 'F')
  }

  function HexValue(c: char): (v: nat)
    requires IsHexDigit(c)
    ensures v < 16
  {
    if '0' <= c <= '9' then (c as int - '0' as int)
    else if 'a' <= c <= 'f' then (c as int - 'a' as int) + 10
    else (c as int - 'A' as int) + 10
  }

  /** `parseInt(pair, 16)` for a two-digit pair. */
  function PairValue(hi: char, lo: char): (v: nat)
    requires IsHexDigit(hi) && IsHexDigit(lo)
    ensures v < 256
  {
    16 * HexValue(hi) + HexValue(lo)
  }

  predicate AllHex(d: string) {
    forall k :: 0 <= k < |d| ==> IsHexDigit(d[k])
  }

  /** The three captured groups, read from six hex digits. */
  function ParseDigits(d: string): (c: Option<Rgb>)
    requires |d| == 6
    ensures c.Some? <==> AllHex(d)
  {
    if AllHex(d) then
      Some(Rgb(PairValue(d[0], d[1]) as real / 255.0,
               PairValue(d[2], d[3]) as real / 255.0,
               PairValue(d[4], d[5]) as real / 255.0))
    else None
  }

  predicate InUnit(x: real) {
    0.0 <= x <= 1.0
  }

  /** The shape the pattern accepts: an optional '#' then exactly six hex digits. */
  predicate HexColourShape(s: string) {
    (|s| == 7 && s[0] == '#' && AllHex(s[1..])) || (|s| == 6 && AllHex(s))
  }

  function HexToRgb(s: string): (c: Option<Rgb>)
    ensures c.Some? <==> HexColourShape(s)
    ensures c.Some? ==> InUnit(c.value.r) && InUnit(c.value.g) && InUnit(c.value.b)
  {
    if |s| == 7 && s[0] == '#' then ParseDigits(s[1..])
    else if |s| == 6 then ParseDigits(s)
    else None
  }

  /** An independent encoder: the digit for a value below 16. */
  function HexChar(v: nat, upper: bool): (c: char)
    requires v < 16
    ensures IsHexDigit(c) && HexValue(c) == v
  {
    if v < 10 then ('0' as int + v) as char
    else if upper then ('A' as int + v - 10) as char
    else ('a' as int + v - 10) as char
  }

  function EncodeByte(v: nat, upper: bool): (s: string)
    requires v < 256
    ensures |s| == 2 && IsHexDigit(s[0]) && IsHexDigit(s[1])
    ensures PairValue(s[0], s[1]) == v
  {
    [HexChar(v / 16, upper), HexChar(v % 16, upper)]
  }

  /** `#rrggbb` (or `rrggbb` without the hash), in upper or lower case. */
  function EncodeColour(r: nat, g: nat, b: nat, upper: bool, hash: bool): (s: string)
    requires r < 256 && g < 256 && b < 256
  {
    (if hash then "#" else "") + EncodeByte(r, upper) + EncodeByte(g, upper) + EncodeByte(b, upper)
  }

  /** Every encoded colour decodes to its channels divided by 255. */
  lemma HexToRgbRoundTrip(r: nat, g: nat, b: nat, upper: bool, hash: bool)
    requires r < 256 && g < 256 && b < 256
    ensures HexToRgb(EncodeColour(r, g, b, upper, hash))
            == Some(Rgb(r as real / 255.0, g as real / 255.0, b as real / 255.0))
  {
    var d := EncodeByte(r, upper) + EncodeByte(g, upper) + EncodeByte(b, upper);
    assert d[0..2] == EncodeByte(r, upper) && d[2..4] == EncodeByte(g, upper) && d[4..6] == EncodeByte(b, upper);
    assert AllHex(d);
    if hash {
      assert EncodeColour(r, g, b, upper, hash) == "#" + d;
      assert ("#" + d)[1..] == d;
    } else {
      assert EncodeColour(r, g, b, upper, hash) == d;
    }
  }

  /** The '#' prefix is optional and changes nothing. */
  lemma HexPrefixOptional(d: string)
    requires |d| == 6
    ensures HexToRgb("#" + d) == HexToRgb(d)
  {
    assert ("#" + d)[1..] == d;
  }

  /** ASCII lower-casing of one character. */
  function LowerChar(c: char): (l: char)
    ensures IsHexDigit(l) <==> IsHexDigit(c)
    ensures IsHexDigit(c) ==> HexValue(l) == HexValue(c)
  {
    if 'A' <= c <= 'Z' then (c as int - 'A' as int + 'a' as int) as char else c
  }

  function Lower(s: string): (l: string)
    ensures |l| == |s|
    ensures forall k :: 0 <= k < |s| ==> l[k] == LowerChar(s[k])
  {
    if s == [] then [] else [LowerChar(s[0])] + Lower(s[1..])
  }

  /** Lower-casing six characters changes neither whether they are all hex
      digits nor the colour they give. */
  lemma ParseDigitsLower(d: string)
    requires |d| == 6
    ensures ParseDigits(Lower(d)) == ParseDigits(d)
  {
    var l := Lower(d);
    assert AllHex(l) <==> AllHex(d) by {
      forall k | 0 <= k < 6 ensures IsHexDigit(l[k]) <==> IsHexDigit(d[k]) {
        assert l[k] == LowerChar(d[k]);
      }
    }
  }

  /** The `i` flag: upper- and lower-case spellings give the same colour. */
  lemma HexCaseInsensitive(s: string)
    ensures HexToRgb(Lower(s)) == HexToRgb(s)
  {
    var l := Lower(s);
    if |s| == 7 && s[0] == '#' {
      assert l[0] == '#' && l[1..] == Lower(s[1..]);
      ParseDigitsLower(s[1..]);
    } else if |s| == 6 {
      ParseDigitsLower(s);
    } else if |s| == 7 {
      assert l[0] != '#';
    }
  }

  // ---------------------------------------------------------------------
  // smoothstep(min, max, value)
  // ---------------------------------------------------------------------

  function Clamp01(t: real): (x: real)
    ensures InUnit(x)
    ensures 0.0 <= t <= 1.0 ==> x == t
  {
    if t < 0.0 then 0.0 else if t > 1.0 then 1.0 else t
  }

  lemma MulStrictMono(a: real, b: real, c: real)
    requires a < b && c > 0.0
    ensures a * c < b * c
  {
    assert b * c - a * c == (b - a) * c;
  }

  lemma QuotientBounds(num: real, den: real)
    requires den != 0.0
    ensures den > 0.0 && num <= 0.0 ==> num / den <= 0.0
    ensures den > 0.0 && num >= den ==> num / den >= 1.0
  {
    var q := num / den;
    assert q * den == num;
    if den < 0.0 {
    } else if q > 0.0 {
      MulStrictMono(0.0, q, den);
    }
    if den > 0.0 && num >= den && q < 1.0 {
      MulStrictMono(q, 1.0, den);
    }
  }

  /** The easing polynomial `x*x*(3 - 2*x)`. */
  function Ease(x: real): (y: real)
    requires InUnit(x)
    ensures InUnit(y)
  {
    EaseInUnit(x);
    x * x * (3.0 - 2.0 * x)
  }

  lemma NonNegProduct(p: real, q: real)
    requires 0.0 <= p && 0.0 <= q
    ensures 0.0 <= p * q
  {
  }

  /** `x*x*(3 - 2*x)` is non-negative, and `1` minus it is
      `(1 - x)^2 * (1 + 2x)`, also non-negative. */
  lemma EaseInUnit(x: real)
    requires InUnit(x)
    ensures InUnit(x * x * (3.0 - 2.0 * x))
  {
    var a := x * x;
    var b := 3.0 - 2.0 * x;
    var c := (1.0 - x) * (1.0 - x);
    NonNegProduct(x, x);
    NonNegProduct(a, b);
    NonNegProduct(1.0 - x, 1.0 - x);
    NonNegProduct(c, 1.0 + 2.0 * x);
    assert 1.0 - a * b == c * (1.0 + 2.0 * x);
  }

  /** `None` stands for the NaN that JavaScript computes when `min == max == value`
      (0/0); when only `min == max`, the quotient is an infinity and clamps to 0 or 1. */
  function Smoothstep(min: real, max: real, value: real): (r: Option<real>)
    ensures r.None? <==> (min == max && value == min)
    ensures r.Some? ==> InUnit(r.value)
    ensures min < max && value <= min ==> r == Some(0.0)
    ensures min < max && value >= max ==> r == Some(1.0)
  {
    if min == max then
      (if value > min then Some(Ease(1.0)) else if value < min then Some(Ease(0.0)) else None)
    else
      var t := (value - min) / (max - min);
      QuotientBounds(value - min, max - min);
      Some(Ease(Clamp01(t)))
  }

  // ---------------------------------------------------------------------
  // resizeCanvasToDisplaySize(canvas, multiplier)
  // ---------------------------------------------------------------------

  const TwoTo31: int := 0x8000_0000
  const TwoTo32: int := 0x1_0000_0000

  /** Truncation toward zero. */
  function Trunc(v: real): (t: int)
    ensures v >= 0.0 ==> t as real <= v < t as real + 1.0
    ensures v < 0.0 ==> t as real - 1.0 < v <= t as real
  {
    if v >= 0.0 then v.Floor else -((-v).Floor)
  }

  /** `v | 0`: truncation toward zero, then wrap-around to a signed 32-bit integer. */
  function ToInt32(v: real): (r: int)
    ensures -TwoTo31 <= r < TwoTo31
    ensures -TwoTo31 <= Trunc(v) < TwoTo31 ==> r == Trunc(v)
  {
    var m := Trunc(v) % TwoTo32;
    if m >= TwoTo31 then m - TwoTo32 else m
  }

  /** `multiplier || 1`: an absent or zero multiplier means 1. */
  function EffectiveMultiplier(multiplier: Option<real>): (m: real)
    ensures multiplier.None? ==> m == 1.0
    ensures multiplier.Some? && multiplier.value == 0.0 ==> m == 1.0
    ensures multiplier.Some? && multiplier.value != 0.0 ==> m == multiplier.value
  {
    if multiplier.None? || multiplier.value == 0.0 then 1.0 else multiplier.value
  }

  class Canvas {
    var width: int
    var height: int
    const clientWidth: real
    const clientHeight: real

    constructor (w: int, h: int, cw: real, ch: real)
      ensures width == w && height == h && clientWidth == cw && clientHeight == ch
    {
      width, height := w, h;
      clientWidth, clientHeight := cw, ch;
    }
  }

  /** The drawing-buffer size wanted for a client size: `(client * multiplier) | 0`. */
  function DisplaySize(client: real, multiplier: Option<real>): (n: int)
    ensures -TwoTo31 <= n < TwoTo31
    ensures multiplier.None? ==> n == ToInt32(client)
  {
    ToInt32(client * EffectiveMultiplier(multiplier))
  }

  method ResizeCanvasToDisplaySize(canvas: Canvas, multiplier: Option<real>) returns (resized: bool)
    modifies canvas
    ensures canvas.width == DisplaySize(canvas.clientWidth, multiplier)
    ensures canvas.height == DisplaySize(canvas.clientHeight, multiplier)
    ensures resized <==> (old(canvas.width) != canvas.width || old(canvas.height) != canvas.height)
  {
    var w := DisplaySize(canvas.clientWidth, multiplier);
    var h := DisplaySize(canvas.clientHeight, multiplier);
    resized := canvas.width != w || canvas.height != h;
    if resized {
      canvas.width := w;
      canvas.height := h;
    }
  }
}
