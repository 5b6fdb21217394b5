/**
 The conversion on the colours that reach it, whose channels are integers from 0 to 255. Their
 lightness is a multiple of 1/510, which makes the truncation lose less than it may lose of a real
 colour: each channel is recovered to within 10/255, and not always to within 9/255.
 */
module ColorIntegers {
  import opened Color

  predicate IsByte(x: int) {
    0 <= x <= 255
  }

  function OfBytes(r: int, g: int, b: int): Rgb {
    Rgb(r as real / 255.0, g as real / 255.0, b as real / 255.0)
  }

  function Decoded(c: Rgb): Rgb
    requires IsColor(c)
  {
    ToRgb(FromIntegers(ToDegrees(c)))
  }

  // ---- how much lightness is lost

  lemma MaxOfBytes(r: int, g: int, b: int) returns (max: int)
    requires IsByte(r) && IsByte(g) && IsByte(b)
    ensures IsByte(max) && MaxChannel(OfBytes(r, g, b)) == max as real / 255.0
  {
    max := if r >= g && r >= b then r else if g >= b then g else b;
  }

  lemma MinOfBytes(r: int, g: int, b: int) returns (min: int)
    requires IsByte(r) && IsByte(g) && IsByte(b)
    ensures IsByte(min) && MinChannel(OfBytes(r, g, b)) == min as real / 255.0
  {
    min := if r <= g && r <= b then r else if g <= b then g else b;
  }

  lemma LightnessOf(r: int, g: int, b: int) returns (n: int)
    requires IsByte(r) && IsByte(g) && IsByte(b)
    ensures 0 <= n <= 510 && IsColor(OfBytes(r, g, b)) && ToHsl(OfBytes(r, g, b)).l == n as real / 510.0
  {
    var max := MaxOfBytes(r, g, b);
    var min := MinOfBytes(r, g, b);
    n := max + min;
    assert (max as real / 255.0 + min as real / 255.0) / 2.0 == n as real / 510.0;
  }

  /** In fifty-firsts of a percent, the loss is an integer below 51. */
  lemma LossIsWhole(n: int, percent: int)
    requires 0 <= n <= 510 && percent == (n as real / 510.0 * 100.0).Floor
    ensures 0 <= 10 * n - 51 * percent <= 50 && 0 <= percent
    ensures n as real / 510.0 - percent as real / 100.0 == (10 * n - 51 * percent) as real / 5100.0
  {
    var v := n as real / 510.0 * 100.0;
    assert 51.0 * v == (10 * n) as real;
    assert percent as real <= v < percent as real + 1.0;
    assert (51 * percent) as real <= (10 * n) as real < (51 * percent + 51) as real;
  }

  /** What the loss of lightness and the other two together may come to, below the middle. */
  lemma Budget(n: int, percent: int)
    requires 0 <= 10 * n - 51 * percent <= 50 && 0 <= percent < 50
    ensures 2.0 * ((10 * n - 51 * percent) as real / 5100.0) + 0.0434 * (percent as real / 100.0) <= 10.0 / 255.0
  {
    var loss := 10 * n - 51 * percent;
    if percent >= 46 {
      assert percent == 46 || percent == 47 || percent == 48 || percent == 49;
      assert loss <= 44;
    }
    assert 2.0 * loss as real + 2.2134 * percent as real <= 200.0;
  }

  // ---- the error of a channel, with its signs

  /** Truncation takes away, and never adds. */
  ghost predicate Below(x: Hsl, y: Hsl) {
    Near(x, y) && y.s <= x.s && y.l <= x.l
  }

  lemma TruncatedIsBelow(c: Rgb)
    requires IsColor(c)
    ensures Below(ToHsl(c), FromIntegers(ToDegrees(c)))
  {
    var x := ToHsl(c);
    Ranges(c);
    TruncatedIsNear(c);
    Truncation(x.s, 100.0);
    Truncation(x.l, 100.0);
  }

  /** The difference of two products of three, one factor at a time. */
  lemma Split(m: real, s: real, t: real, m': real, s': real, t': real)
    ensures s * m * t - s' * m' * t' == (s * t) * (m - m') + m' * ((s - s') * t) + m' * (s' * (t - t'))
  {
    assert s * m * t == (s * t) * m;
    assert s' * m' * t' == m' * (s' * t');
    assert (s * t) * (m - m') == (s * t) * m - (s * t) * m';
    assert m' * ((s - s') * t) == m' * (s * t) - m' * (s' * t);
    assert m' * (s' * (t - t')) == m' * (s' * t) - m' * (s' * t');
  }

  lemma Parts(s: real, t: real, s': real, t': real)
    requires InUnit(s) && InUnit(s') && 0.0 <= s - s' <= 0.01 && -1.0 <= t <= 1.0 && -0.0334 <= t - t' <= 0.0334
    ensures -1.0 <= s * t <= 1.0 && -0.01 <= (s - s') * t <= 0.01 && -0.0334 <= s' * (t - t') <= 0.0334
    ensures t >= 0.0 ==> (s - s') * t >= 0.0
    ensures t < 0.0 ==> s * t <= 0.0
  {
    ProductBound(s, t, 1.0, 1.0);
    ProductBound(s - s', t, 0.01, 1.0);
    ProductBound(s', t - t', 1.0, 0.0334);
    if t >= 0.0 {
      ProductOfPositives(s - s', t, 0.01, 1.0);
    } else {
      ProductOfPositives(s, -t, 1.0, 1.0);
      assert s * (-t) == -(s * t);
    }
  }

  /** The three parts of the error in a tone, by lightness, saturation and hue. */
  lemma ThreeParts(m: real, s: real, t: real, m': real, s': real, t': real) returns (p: real, q: real, r: real)
    requires InUnit(s) && InUnit(s') && 0.0 <= s - s' <= 0.01 && -1.0 <= t <= 1.0 && -0.0334 <= t - t' <= 0.0334
    requires 0.0 <= m' <= 0.5
    ensures s * m * t - s' * m' * t' == p + q + r
    ensures -Abs(m - m') <= p <= Abs(m - m') && -(0.01 * m') <= q <= 0.01 * m' && -(0.0334 * m') <= r <= 0.0334 * m'
    ensures t >= 0.0 ==> q >= 0.0
    ensures t < 0.0 && m <= m' ==> p >= 0.0
  {
    var a, b, c := s * t, (s - s') * t, s' * (t - t');
    Split(m, s, t, m', s', t');
    Parts(s, t, s', t');
    p := Times(a, m - m', 1.0);
    q := Times(b, m', 0.01);
    r := Times(c, m', 0.0334);
  }

  lemma Times(x: real, y: real, bound: real) returns (p: real)
    requires -bound <= x <= bound
    ensures p == x * y == y * x && -(bound * Abs(y)) <= p <= bound * Abs(y)
    ensures x >= 0.0 && y >= 0.0 ==> p >= 0.0
    ensures x <= 0.0 && y <= 0.0 ==> p >= 0.0
  {
    p := x * y;
    ProductBound(x, y, bound, Abs(y));
    if x >= 0.0 && y >= 0.0 { ProductOfPositives(x, y, x, y); }
    if x <= 0.0 && y <= 0.0 { NonPositives(x, y); }
  }

  lemma NonPositives(x: real, y: real)
    requires x <= 0.0 && y <= 0.0
    ensures x * y >= 0.0
  {
  }

  lemma LowerHalf(x: Hsl, y: Hsl, t: real, t': real)
    requires Below(x, y) && x.l <= 0.5 && -0.0334 <= t - t' <= 0.0334 && -1.0 <= t <= 1.0
    ensures Abs(Toned(x, t) - Toned(y, t')) <= 2.0 * (x.l - y.l) + 0.0434 * y.l
  {
    var p, q, r := ThreeParts(x.l, x.s, t, y.l, y.s, t');
    assert Toned(x, t) - Toned(y, t') == x.l - y.l - (p + q + r);
  }

  lemma UpperHalf(x: Hsl, y: Hsl, t: real, t': real)
    requires Below(x, y) && y.l >= 0.5 && x.l - y.l <= 50.0 / 5100.0
    requires -0.0334 <= t - t' <= 0.0334 && -1.0 <= t <= 1.0
    ensures Abs(Toned(x, t) - Toned(y, t')) <= 10.0 / 255.0
  {
    var p, q, r := ThreeParts(1.0 - x.l, x.s, t, 1.0 - y.l, y.s, t');
    assert Min(x.l, 1.0 - x.l) == 1.0 - x.l && Min(y.l, 1.0 - y.l) == 1.0 - y.l;
    assert Toned(x, t) - Toned(y, t') == x.l - y.l - (p + q + r);
  }

  lemma ChannelWithinTen(x: Hsl, y: Hsl, n: real, i: int, percent: int)
    requires Below(x, y) && 0.0 <= n <= 8.0
    requires 0 <= i <= 510 && x.l == i as real / 510.0
    requires percent == (x.l * 100.0).Floor && y.l == percent as real / 100.0
    ensures Abs(Channel(n, x) - Channel(n, y)) <= 10.0 / 255.0
  {
    var t, t' := Ramp(Mod12(n + 12.0 * x.h)), Ramp(Mod12(n + 12.0 * y.h));
    NearRamps(x, y, n);
    LossIsWhole(i, percent);
    if percent < 50 {
      Budget(i, percent);
      assert i <= 254;
      LowerHalf(x, y, t, t');
    } else {
      UpperHalf(x, y, t, t');
    }
  }

  /** From the returned integers every channel of every colour is recovered to within 10/255. */
  lemma RecoveredWithinTen(r: int, g: int, b: int)
    requires IsByte(r) && IsByte(g) && IsByte(b)
    ensures var c := OfBytes(r, g, b);
            && IsColor(c)
            && Abs(Decoded(c).r - c.r) <= 10.0 / 255.0
            && Abs(Decoded(c).g - c.g) <= 10.0 / 255.0
            && Abs(Decoded(c).b - c.b) <= 10.0 / 255.0
  {
    var i := LightnessOf(r, g, b);
    var c := OfBytes(r, g, b);
    var x, y := ToHsl(c), FromIntegers(ToDegrees(c));
    RoundTrip(c);
    TruncatedIsBelow(c);
    var percent := ToDegrees(c).l;
    ChannelWithinTen(x, y, 0.0, i, percent);
    ChannelWithinTen(x, y, 8.0, i, percent);
    ChannelWithinTen(x, y, 4.0, i, percent);
  }

  /** Nine would not do: blue comes back more than 9/255 too small. */
  lemma NotWithinNine()
    ensures var c := OfBytes(5, 244, 240);
            IsColor(c) && ToDegrees(c) == Degrees(178, 95, 48) && c.b - Decoded(c).b > 9.0 / 255.0
  {
    var c := OfBytes(5, 244, 240);
    var x := ToHsl(c);
    var max, min := 244.0 / 255.0, 5.0 / 255.0;
    assert MaxChannel(c) == max && MinChannel(c) == min;
    assert (c.b - c.r) / (max - min) == 235.0 / 239.0;
    assert x.h == (235.0 / 239.0 + 2.0) / 6.0;
    assert Divisor(max, min) == 249.0 / 255.0;
    assert x.s == 239.0 / 249.0 && x.l == 249.0 / 510.0;
    assert (x.h * 360.0).Floor == 178 && (x.s * 100.0).Floor == 95 && (x.l * 100.0).Floor == 48;
    Mod12Value(4.0 + 12.0 * (178.0 / 360.0));
  }
}
