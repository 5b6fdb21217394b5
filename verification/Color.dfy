/**
 The conversion from RGB to HSL, over the reals, against the conversion back that section 7 of
 CSS Color Module Level 4 gives. Channels are in 0..1; hue is in turns, as in the source before
 it scales to degrees.
 */
module Color {

  datatype Rgb = Rgb(r: real, g: real, b: real)
  datatype Hsl = Hsl(h: real, s: real, l: real)
  datatype Degrees = Degrees(h: int, s: int, l: int)

  predicate InUnit(x: real) {
    0.0 <= x <= 1.0
  }

  predicate IsColor(c: Rgb) {
    InUnit(c.r) && InUnit(c.g) && InUnit(c.b)
  }

  function Abs(x: real): (a: real)
    ensures a >= 0.0 && (a == x || a == -x)
  {
    if x < 0.0 then -x else x
  }

  function Min(x: real, y: real): real {
    if x <= y then x else y
  }

  function Max(x: real, y: real): real {
    if x >= y then x else y
  }

  // ---- the conversion

  function MaxChannel(c: Rgb): (m: real)
    ensures m >= c.r && m >= c.g && m >= c.b && (m == c.r || m == c.g || m == c.b)
  {
    var m := if c.g > c.r then c.g else c.r;
    if c.b > m then c.b else m
  }

  function MinChannel(c: Rgb): (m: real)
    ensures m <= c.r && m <= c.g && m <= c.b && (m == c.r || m == c.g || m == c.b)
  {
    var m := if c.g < c.r then c.g else c.r;
    if c.b < m then c.b else m
  }

  /** What the saturation divides by. */
  function Divisor(max: real, min: real): real {
    1.0 - Abs(2.0 * ((max + min) / 2.0) - 1.0)
  }

  /** The hue in sixths of a turn; the first channel that is the largest decides, red before green before blue. */
  function Sixths(c: Rgb, max: real, d: real): real
    requires d != 0.0
  {
    if max == c.r then (c.g - c.b) / d + (if c.g < c.b then 6.0 else 0.0)
    else if max == c.g then (c.b - c.r) / d + 2.0
    else (c.r - c.g) / d + 4.0
  }

  lemma DivisorPositive(max: real, min: real)
    requires 0.0 <= min < max <= 1.0
    ensures 0.0 < max - min <= Divisor(max, min)
    ensures Divisor(max, min) == 2.0 * Min((max + min) / 2.0, 1.0 - (max + min) / 2.0)
  {
  }

  /** The conversion before it truncates; the divisor is never zero, so no colour is outside its domain. */
  function ToHsl(c: Rgb): Hsl
    requires IsColor(c)
  {
    var max, min := MaxChannel(c), MinChannel(c);
    var l := (max + min) / 2.0;
    if max == min then Hsl(0.0, 0.0, l) else
      DivisorPositive(max, min);
      var d := max - min;
      Hsl(Sixths(c, max, d) / 6.0, d / Divisor(max, min), l)
  }

  /** What the source returns: degrees and percent, truncated towards zero. */
  function ToDegrees(c: Rgb): Degrees
    requires IsColor(c)
  {
    var x := ToHsl(c);
    Degrees((x.h * 360.0).Floor, (x.s * 100.0).Floor, (x.l * 100.0).Floor)
  }

  // ---- the conversion back

  /** The remainder modulo twelve. */
  function Mod12(x: real): real {
    x - 12.0 * (x / 12.0).Floor as real
  }

  function Ramp(k: real): real {
    Max(-1.0, Min(Min(k - 3.0, 9.0 - k), 1.0))
  }

  function Toned(x: Hsl, t: real): real {
    x.l - x.s * Min(x.l, 1.0 - x.l) * t
  }

  function Channel(n: real, x: Hsl): real {
    Toned(x, Ramp(Mod12(n + 12.0 * x.h)))
  }

  function ToRgb(x: Hsl): Rgb {
    Rgb(Channel(0.0, x), Channel(8.0, x), Channel(4.0, x))
  }

  /** The colour that the returned integers stand for. */
  function FromIntegers(x: Degrees): Hsl {
    Hsl(x.h as real / 360.0, x.s as real / 100.0, x.l as real / 100.0)
  }

  // ---- ranges

  lemma LessByFactor(x: real, y: real, d: real)
    requires d > 0.0 && x * d <= y * d
    ensures x <= y
  {
    assert (x - y) * d <= 0.0;
  }

  lemma Quotient(x: real, d: real, lo: real, hi: real)
    requires d > 0.0 && lo * d <= x <= hi * d
    ensures lo <= x / d <= hi && (x / d) * d == x
  {
    assert (x / d) * d == x;
    LessByFactor(lo, x / d, d);
    LessByFactor(x / d, hi, d);
  }

  lemma NegativeQuotient(x: real, d: real)
    requires d > 0.0 && x < 0.0
    ensures x / d < 0.0
  {
    assert (x / d) * d == x;
    LessByFactor(x / d, 0.0, d);
  }

  /** Where the hue lies, and the quotient it was made from. */
  ghost predicate HueFits(c: Rgb, max: real, d: real, q: real) {
    if max == c.r && c.g >= c.b then 0.0 <= q <= 1.0 && q * d == c.g - c.b
    else if max == c.r then 5.0 <= q < 6.0 && (6.0 - q) * d == c.b - c.g
    else if max == c.g then 1.0 <= q <= 3.0 && (q - 2.0) * d == c.b - c.r
    else 3.0 <= q <= 5.0 && (q - 4.0) * d == c.r - c.g
  }

  lemma RedSixths(c: Rgb, max: real, d: real)
    requires d > 0.0 && max == c.r && -d <= c.g - c.b <= d
    ensures HueFits(c, max, d, Sixths(c, max, d))
  {
    Quotient(c.g - c.b, d, -1.0, 1.0);
    if c.g < c.b {
      NegativeQuotient(c.g - c.b, d);
      SplitProduct(c.g - c.b, d);
    } else {
      Quotient(c.g - c.b, d, 0.0, 1.0);
    }
  }

  lemma Centered(x: real, d: real, k: real)
    requires d > 0.0 && -d <= x <= d
    ensures k - 1.0 <= x / d + k <= k + 1.0 && (x / d + k - k) * d == x
  {
    Quotient(x, d, -1.0, 1.0);
    assert x / d + k - k == x / d;
  }

  lemma SixthsParts(c: Rgb, max: real, min: real)
    requires IsColor(c) && max == MaxChannel(c) && min == MinChannel(c) && min < max
    ensures HueFits(c, max, max - min, Sixths(c, max, max - min))
  {
    var d := max - min;
    if max == c.r {
      RedSixths(c, max, d);
    } else if max == c.g {
      Centered(c.b - c.r, d, 2.0);
    } else {
      Centered(c.r - c.g, d, 4.0);
    }
  }

  lemma SplitProduct(x: real, d: real)
    requires d > 0.0
    ensures (6.0 - (x / d + 6.0)) * d == -x
  {
    assert (x / d) * d == x;
    assert 6.0 - (x / d + 6.0) == -(x / d);
    assert (-(x / d)) * d == -((x / d) * d);
  }

  /** Hue in [0, 1), saturation and lightness in [0, 1]. */
  lemma Ranges(c: Rgb)
    requires IsColor(c)
    ensures var x := ToHsl(c); 0.0 <= x.h < 1.0 && InUnit(x.s) && InUnit(x.l)
  {
    var max, min := MaxChannel(c), MinChannel(c);
    if min < max {
      SixthsParts(c, max, min);
      DivisorPositive(max, min);
      Quotient(max - min, Divisor(max, min), 0.0, 1.0);
    }
  }

  /** The integers are in the ranges of CSS, hue never 360. */
  lemma DegreesInRange(c: Rgb)
    requires IsColor(c)
    ensures var x := ToDegrees(c); 0 <= x.h < 360 && 0 <= x.s <= 100 && 0 <= x.l <= 100
  {
    Ranges(c);
  }

  /** Hue and saturation are zero for a grey; and only a grey has saturation zero. */
  lemma Greys(c: Rgb)
    requires IsColor(c)
    ensures var x := ToHsl(c);
            && (c.r == c.g == c.b ==> x == Hsl(0.0, 0.0, c.r))
            && (x.s == 0.0 <==> c.r == c.g == c.b)
  {
    var max, min := MaxChannel(c), MinChannel(c);
    if min < max {
      DivisorPositive(max, min);
      TimesQuotient(max - min, Divisor(max, min));
    }
  }

  // ---- the exact inverse

  lemma Mod12Value(x: real)
    requires 0.0 <= x < 24.0
    ensures Mod12(x) == if x < 12.0 then x else x - 12.0
  {
    var q := x / 12.0;
    assert 0.0 <= q < 2.0;
    if x < 12.0 {
      assert 0.0 <= q < 1.0;
      assert q.Floor == 0;
    } else {
      assert 1.0 <= q < 2.0;
      assert q.Floor == 1;
    }
  }

  /** What the conversion promises, without a division. */
  ghost predicate Describes(x: Hsl, max: real, min: real, q: real) {
    && 0.0 <= min < max <= 1.0 && 0.0 <= q < 6.0
    && x.l == (max + min) / 2.0
    && x.s * Divisor(max, min) == max - min
    && 6.0 * x.h == q
  }

  lemma ToHslDescribes(c: Rgb, max: real, min: real, q: real)
    requires IsColor(c) && max == MaxChannel(c) && min == MinChannel(c) && min < max
    requires q == Sixths(c, max, max - min) && 0.0 <= q < 6.0
    ensures Describes(ToHsl(c), max, min, q)
  {
    DivisorPositive(max, min);
    TimesQuotient(max - min, Divisor(max, min));
  }

  lemma TimesQuotient(d: real, w: real)
    requires w > 0.0
    ensures d / w * w == d
  {
  }

  /** The amplitude is half the difference of the extreme channels. */
  lemma Amplitude(x: Hsl, max: real, min: real, q: real)
    requires Describes(x, max, min, q)
    ensures x.s * Min(x.l, 1.0 - x.l) == (max - min) / 2.0
  {
    DivisorPositive(max, min);
    var m := Min(x.l, 1.0 - x.l);
    assert x.s * (2.0 * m) == 2.0 * (x.s * m);
  }

  /** A channel of the conversion back, from the extreme channels and the ramp. */
  function Value(max: real, min: real, t: real): real {
    (max + min) / 2.0 - (max - min) / 2.0 * t
  }

  /** Where the ramp of a channel is read, for a hue of q sixths. */
  function Place(n: real, q: real): real {
    if n + 2.0 * q < 12.0 then n + 2.0 * q else n + 2.0 * q - 12.0
  }

  lemma Position(x: Hsl, n: real, q: real)
    requires 6.0 * x.h == q && 0.0 <= q < 6.0 && 0.0 <= n <= 8.0
    ensures Mod12(n + 12.0 * x.h) == Place(n, q)
  {
    assert 12.0 * x.h == 2.0 * q;
    Mod12Value(n + 2.0 * q);
  }

  lemma ChannelIsValue(x: Hsl, n: real, max: real, min: real, q: real)
    requires Describes(x, max, min, q) && 0.0 <= n <= 8.0
    ensures Channel(n, x) == Value(max, min, Ramp(Place(n, q)))
  {
    Amplitude(x, max, min, q);
    Position(x, n, q);
  }

  lemma Ends(max: real, min: real)
    ensures Value(max, min, -1.0) == max && Value(max, min, 1.0) == min
  {
  }

  lemma Between(max: real, min: real, u: real)
    ensures Value(max, min, 1.0 - 2.0 * u) == min + u * (max - min)
    ensures Value(max, min, 2.0 * u - 1.0) == max - u * (max - min)
  {
    var d := max - min;
    assert d / 2.0 * (2.0 * u) == u * d;
    assert d / 2.0 * (1.0 - 2.0 * u) == d / 2.0 - d / 2.0 * (2.0 * u);
    assert d / 2.0 * (2.0 * u - 1.0) == d / 2.0 * (2.0 * u) - d / 2.0;
  }

  /** In each sixth one ramp is at the top, one at the bottom, and one runs between them. */
  lemma Ramps(q: real)
    requires 0.0 <= q < 6.0
    ensures var r, g, b := Ramp(Place(0.0, q)), Ramp(Place(8.0, q)), Ramp(Place(4.0, q));
            if q <= 1.0 then r == -1.0 && g == 1.0 - 2.0 * q && b == 1.0
            else if q <= 2.0 then g == -1.0 && r == 1.0 - 2.0 * (2.0 - q) && b == 1.0
            else if q <= 3.0 then g == -1.0 && r == 1.0 && b == 1.0 - 2.0 * (q - 2.0)
            else if q <= 4.0 then b == -1.0 && r == 1.0 && g == 1.0 - 2.0 * (4.0 - q)
            else if q <= 5.0 then b == -1.0 && r == 1.0 - 2.0 * (q - 4.0) && g == 1.0
            else r == -1.0 && g == 1.0 && b == 1.0 - 2.0 * (6.0 - q)
  {
  }

  lemma Opposite(x: real, y: real, d: real)
    ensures (x - y) * d == -((y - x) * d)
  {
  }

  lemma SignOfProduct(x: real, d: real)
    requires d > 0.0
    ensures x * d >= 0.0 <==> x >= 0.0
    ensures x * d > 0.0 <==> x > 0.0
  {
  }

  lemma RedIsLargest(c: Rgb, max: real, min: real, q: real)
    requires IsColor(c) && max == MaxChannel(c) && min == MinChannel(c) && min < max && max == c.r
    requires 0.0 <= q < 6.0 && HueFits(c, max, max - min, q)
    ensures Value(max, min, Ramp(Place(0.0, q))) == c.r
    ensures Value(max, min, Ramp(Place(8.0, q))) == c.g
    ensures Value(max, min, Ramp(Place(4.0, q))) == c.b
  {
    Ramps(q);
    Ends(max, min);
    Between(max, min, q);
    Between(max, min, 6.0 - q);
  }

  lemma GreenIsLargest(c: Rgb, max: real, min: real, q: real)
    requires IsColor(c) && max == MaxChannel(c) && min == MinChannel(c) && min < max
    requires max != c.r && max == c.g
    requires 0.0 <= q < 6.0 && HueFits(c, max, max - min, q)
    ensures Value(max, min, Ramp(Place(0.0, q))) == c.r
    ensures Value(max, min, Ramp(Place(8.0, q))) == c.g
    ensures Value(max, min, Ramp(Place(4.0, q))) == c.b
  {
    Ramps(q);
    Ends(max, min);
    Between(max, min, q - 2.0);
    Between(max, min, 2.0 - q);
    Opposite(2.0, q, max - min);
    SignOfProduct(q - 2.0, max - min);
  }

  lemma BlueIsLargest(c: Rgb, max: real, min: real, q: real)
    requires IsColor(c) && max == MaxChannel(c) && min == MinChannel(c) && min < max
    requires max != c.r && max != c.g
    requires 0.0 <= q < 6.0 && HueFits(c, max, max - min, q)
    ensures Value(max, min, Ramp(Place(0.0, q))) == c.r
    ensures Value(max, min, Ramp(Place(8.0, q))) == c.g
    ensures Value(max, min, Ramp(Place(4.0, q))) == c.b
  {
    Ramps(q);
    Ends(max, min);
    Between(max, min, q - 4.0);
    Between(max, min, 4.0 - q);
    Opposite(4.0, q, max - min);
    SignOfProduct(q - 4.0, max - min);
  }

  /** Nothing is lost before the truncation: the conversion back returns the very channels. */
  lemma RoundTrip(c: Rgb)
    requires IsColor(c)
    ensures ToRgb(ToHsl(c)) == c
  {
    var max, min := MaxChannel(c), MinChannel(c);
    if min < max {
      var q, x := Sixths(c, max, max - min), ToHsl(c);
      SixthsParts(c, max, min);
      ToHslDescribes(c, max, min, q);
      ChannelIsValue(x, 0.0, max, min, q);
      ChannelIsValue(x, 8.0, max, min, q);
      ChannelIsValue(x, 4.0, max, min, q);
      if max == c.r {
        RedIsLargest(c, max, min, q);
      } else if max == c.g {
        GreenIsLargest(c, max, min, q);
      } else {
        BlueIsLargest(c, max, min, q);
      }
    }
  }

  // ---- the error of the truncation

  lemma ProductOfPositives(x: real, y: real, a: real, b: real)
    requires 0.0 <= x <= a && 0.0 <= y <= b
    ensures 0.0 <= x * y <= a * b
  {
    assert x * y <= a * y;
    assert a * y <= a * b;
  }

  lemma ProductBound(x: real, y: real, a: real, b: real)
    requires -a <= x <= a && -b <= y <= b
    ensures -(a * b) <= x * y <= a * b
  {
    ProductOfPositives(Abs(x), Abs(y), a, b);
    assert x * y == Abs(x) * Abs(y) || x * y == -(Abs(x) * Abs(y));
  }

  lemma DifferenceOfProducts(a: real, x: real, b: real, y: real)
    ensures a * x - b * y == (a - b) * x + b * (x - y)
  {
  }

  /** The ramps have slope at most one, also where the position wraps around at twelve. */
  lemma RampLipschitz(x: real, y: real)
    requires 0.0 <= x <= y < 24.0 && y - x <= 1.0
    ensures Abs(Ramp(Mod12(x)) - Ramp(Mod12(y))) <= y - x
    ensures Abs(Ramp(Mod12(y))) <= 1.0
  {
    Mod12Value(x);
    Mod12Value(y);
  }

  lemma AmplitudeError(s: real, m: real, s': real, m': real)
    requires InUnit(s) && InUnit(s') && 0.0 <= m <= 0.5 && 0.0 <= m' <= 0.5
    requires -0.01 <= s - s' <= 0.01 && -0.01 <= m - m' <= 0.01
    ensures -0.015 <= s * m - s' * m' <= 0.015
    ensures 0.0 <= s' * m' <= 0.5
  {
    DifferenceOfProducts(m, s, m', s');
    ProductBound(m - m', s, 0.01, 1.0);
    ProductBound(m', s - s', 0.5, 0.01);
    ProductOfPositives(m', s', 0.5, 1.0);
  }

  lemma ChannelError(l: real, a: real, t: real, l': real, a': real, t': real)
    requires -0.01 <= l - l' <= 0.01 && -0.015 <= a - a' <= 0.015 && 0.0 <= a' <= 0.5
    requires -0.0334 <= t - t' <= 0.0334 && -1.0 <= t <= 1.0
    ensures -0.0417 <= (l - a * t) - (l' - a' * t') <= 0.0417
  {
    var p, q := (a - a') * t, a' * (t - t');
    assert -0.015 <= p <= 0.015 by { ProductBound(a - a', t, 0.015, 1.0); }
    assert -0.0167 <= q <= 0.0167 by { ProductBound(a', t - t', 0.5, 0.0334); }
    assert a * t - a' * t' == p + q by { DifferenceOfProducts(a, t, a', t'); }
  }

  /** Two colours whose components differ by less than the truncation may take away. */
  ghost predicate Near(x: Hsl, y: Hsl) {
    && InUnit(x.s) && InUnit(x.l) && InUnit(y.s) && InUnit(y.l)
    && 0.0 <= y.h <= x.h < 1.0 && 360.0 * (x.h - y.h) <= 1.0
    && -0.01 <= x.s - y.s <= 0.01 && -0.01 <= x.l - y.l <= 0.01
  }

  lemma NearRamps(x: Hsl, y: Hsl, n: real)
    requires Near(x, y) && 0.0 <= n <= 8.0
    ensures var t, t' := Ramp(Mod12(n + 12.0 * x.h)), Ramp(Mod12(n + 12.0 * y.h));
            -0.0334 <= t - t' <= 0.0334 && -1.0 <= t <= 1.0
  {
    RampLipschitz(n + 12.0 * y.h, n + 12.0 * x.h);
  }

  lemma NearChannels(x: Hsl, y: Hsl, n: real)
    requires Near(x, y) && 0.0 <= n <= 8.0
    ensures -0.0417 <= Channel(n, x) - Channel(n, y) <= 0.0417
  {
    NearRamps(x, y, n);
    NearValues(x, y, Ramp(Mod12(n + 12.0 * x.h)), Ramp(Mod12(n + 12.0 * y.h)));
  }

  lemma NearValues(x: Hsl, y: Hsl, t: real, t': real)
    requires Near(x, y) && -0.0334 <= t - t' <= 0.0334 && -1.0 <= t <= 1.0
    ensures -0.0417 <= Toned(x, t) - Toned(y, t') <= 0.0417
  {
    var m, m' := Min(x.l, 1.0 - x.l), Min(y.l, 1.0 - y.l);
    AmplitudeError(x.s, m, y.s, m');
    ChannelError(x.l, x.s * m, t, y.l, y.s * m', t');
  }

  lemma Truncation(x: real, scale: real)
    requires InUnit(x) && scale > 0.0
    ensures var y := (x * scale).Floor as real / scale; 0.0 <= y <= x && scale * (x - y) <= 1.0
  {
    var f := (x * scale).Floor as real;
    var y := f / scale;
    assert x * scale >= 0.0;
    assert f >= 0.0;
    assert y * scale == f;
    LessByFactor(y, x, scale);
    LessByFactor(0.0, y, scale);
    assert scale * (x - y) == x * scale - f;
  }

  lemma TruncatedIsNear(c: Rgb)
    requires IsColor(c)
    ensures Near(ToHsl(c), FromIntegers(ToDegrees(c)))
  {
    var x := ToHsl(c);
    Ranges(c);
    Truncation(x.h, 360.0);
    Truncation(x.s, 100.0);
    Truncation(x.l, 100.0);
  }

  /** From the returned integers each channel is recovered to within 11/255. */
  lemma TruncatedRoundTrip(c: Rgb)
    requires IsColor(c)
    ensures var d := ToRgb(FromIntegers(ToDegrees(c)));
            Abs(d.r - c.r) <= 11.0 / 255.0 && Abs(d.g - c.g) <= 11.0 / 255.0 && Abs(d.b - c.b) <= 11.0 / 255.0
  {
    var x, y := ToHsl(c), FromIntegers(ToDegrees(c));
    RoundTrip(c);
    TruncatedIsNear(c);
    NearChannels(x, y, 0.0);
    NearChannels(x, y, 8.0);
    NearChannels(x, y, 4.0);
  }

  /** And 10/255 would not do for real channels: here all three truncations push red the same way. */
  lemma RealChannelsNeedEleven() returns (c: Rgb)
    ensures IsColor(c)
    ensures Abs(ToRgb(FromIntegers(ToDegrees(c))).r - c.r) > 10.0 / 255.0
  {
    c := Rgb(0.999550069996, 0.00004999, 0.99975001);
    var x := ToHsl(c);
    assert (c.r - c.g) / 0.99970002 == 0.9998;
    assert x.h == 4.9998 / 6.0;
    assert Divisor(0.99975001, 0.00004999) == 0.9998;
    assert x.s == 0.9999 && x.l == 0.4999;
    assert (x.h * 360.0).Floor == 299 && (x.s * 100.0).Floor == 99 && (x.l * 100.0).Floor == 49;
    Mod12Value(12.0 * (299.0 / 360.0));
  }
}
