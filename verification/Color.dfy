/**
  HSL and hex colours (apps/web/src/routes/settings.appearance.page.tsx), over the reals.

  The decimal text "H S% L%" is represented by its three numbers; hex text is modelled as text.

  Main results: without the roundings the two conversions undo each other in both directions
  (`RgbSurvivesExactly`, `HslSurvivesExactly`); with them every 24-bit colour comes back within
  5 of each channel (`HexSurvivesWithinFive`), which is the best bound (`FiveIsReached`). Each
  rounding is to the nearest, halves up (`PrintsNearestBytes`, `StoresNearestNumbers`).
 */
module Color {
  import opened Options

  datatype Rgb = Rgb(r: real, g: real, b: real)

  /** Hue in turns, saturation and lightness as fractions. */
  datatype Hsl = Hsl(h: real, s: real, l: real)

  function Min(x: real, y: real): real { if x <= y then x else y }

  function Max(x: real, y: real): real { if x >= y then x else y }

  function Abs(x: real): real { if x >= 0.0 then x else -x }

  /** Math.round: to the nearest integer, halves up. */
  function Round(x: real): int { (x + 0.5).Floor }

  predicate InUnit(x: real) { 0.0 <= x <= 1.0 }

  predicate Valid(c: Rgb) { InUnit(c.r) && InUnit(c.g) && InUnit(c.b) }

  // ---------- HSL to RGB ----------

  /** x % 12 of a non-negative number. */
  function Mod12(x: real): real { x - 12.0 * (x / 12.0).Floor as real }

  /** max(-1, min(k - 3, 9 - k, 1)) */
  function Wave(k: real): real { Max(-1.0, Min(Min(k - 3.0, 9.0 - k), 1.0)) }

  function Product(x: real, y: real): real { x * y }

  /** How far a channel can move from the lightness. */
  function Room(c: Hsl): real { Min(c.l, 1.0 - c.l) }

  function Chroma(c: Hsl): real { Product(c.s, Room(c)) }

  /** One channel as a fraction: the source's inner `f` before scaling and rounding. */
  function Channel(n: real, c: Hsl): real {
    c.l - Product(Chroma(c), Wave(Mod12(n + c.h * 12.0)))
  }

  function ToRgb(c: Hsl): Rgb {
    Rgb(Channel(0.0, c), Channel(8.0, c), Channel(4.0, c))
  }

  // ---------- RGB to HSL ----------

  function Top(c: Rgb): real { Max(c.r, Max(c.g, c.b)) }

  function Bottom(c: Rgb): real { Min(c.r, Min(c.g, c.b)) }

  /** The hue in sixths of a turn. */
  function Sixths(c: Rgb): real
    requires Top(c) != Bottom(c)
  {
    var d := Top(c) - Bottom(c);
    if Top(c) == c.r then (c.g - c.b) / d + (if c.g < c.b then 6.0 else 0.0)
    else if Top(c) == c.g then (c.b - c.r) / d + 2.0
    else (c.r - c.g) / d + 4.0
  }

  function ToHsl(c: Rgb): Hsl
    requires Valid(c)
  {
    var max, min := Top(c), Bottom(c);
    var l := (max + min) / 2.0;
    if max == min then Hsl(0.0, 0.0, l)
    else
      var d := max - min;
      Hsl(Sixths(c) / 6.0, if l > 0.5 then d / (2.0 - max - min) else d / (max + min), l)
  }

  // ---------- exact inverses ----------

  lemma ModBelow(x: real, turns: int)
    requires 12.0 * turns as real <= x < 12.0 * turns as real + 12.0
    ensures Mod12(x) == x - 12.0 * turns as real
  {
    assert turns as real <= x / 12.0 < turns as real + 1.0;
    assert (x / 12.0).Floor == turns;
  }

  lemma HalfQuotient(d: real, m: real)
    requires m > 0.0
    ensures Product(d / (2.0 * m), m) == d / 2.0
  {
    var q := d / (2.0 * m);
    assert q * (2.0 * m) == d;
    assert q * (2.0 * m) == 2.0 * (q * m);
  }

  /** Chroma is half the spread of the channels. */
  lemma ChromaIsHalfSpread(c: Rgb)
    requires Valid(c) && Top(c) != Bottom(c)
    ensures Chroma(ToHsl(c)) == (Top(c) - Bottom(c)) / 2.0
  {
    hide Product, Sixths, Top, Bottom, Valid;
    var max, min := Top(c), Bottom(c);
    var l := (max + min) / 2.0;
    BottomIsNotNegative(c);
    if l > 0.5 {
      HalfQuotient(max - min, 1.0 - l);
      assert 2.0 - max - min == 2.0 * (1.0 - l);
    } else {
      HalfQuotient(max - min, l);
      assert max + min == 2.0 * l;
    }
  }

  lemma BottomIsNotNegative(c: Rgb)
    requires Valid(c)
    ensures 0.0 <= Bottom(c) <= Top(c) <= 1.0
  {
  }

  /** A quotient by the spread, with the range the sectors need. */
  lemma Slope(y: real, d: real)
    requires d > 0.0 && -d <= y <= d
    ensures -1.0 <= y / d <= 1.0 && y / d * d == y
    ensures (y < 0.0 <==> y / d < 0.0) && (y == 0.0 <==> y / d == 0.0)
    ensures (y == d <==> y / d == 1.0) && (y == -d <==> y / d == -1.0)
  {
    var q := y / d;
    assert q * d == y;
    assert q > 1.0 ==> q * d > d;
    assert q < -1.0 ==> q * d < -d;
    assert q < 0.0 ==> q * d < 0.0;
    assert q >= 0.0 ==> q * d >= 0.0;
  }

  /** Where the wave stands for each channel when twelve times the hue is `x`. */
  function Waves(x: real): (real, real, real) {
    if x <= 2.0 then (-1.0, 1.0 - x, 1.0)
    else if x <= 4.0 then (x - 3.0, -1.0, 1.0)
    else if x <= 6.0 then (1.0, -1.0, 5.0 - x)
    else if x <= 8.0 then (1.0, x - 7.0, -1.0)
    else if x <= 10.0 then (9.0 - x, 1.0, -1.0)
    else (-1.0, 1.0, x - 11.0)
  }

  lemma WavesAreRight(x: real)
    requires 0.0 <= x < 12.0
    ensures Waves(x) == (Wave(Mod12(x)), Wave(Mod12(8.0 + x)), Wave(Mod12(4.0 + x)))
  {
    ModBelow(x, 0);
    ModBelow(8.0 + x, if x < 4.0 then 0 else 1);
    ModBelow(4.0 + x, if x < 8.0 then 0 else 1);
  }

  /** The channels, sector by sector. */
  lemma ToRgbBySector(c: Hsl, x: real, w: (real, real, real))
    requires 0.0 <= x < 12.0 && c.h * 12.0 == x && Waves(x) == w
    ensures ToRgb(c) == Rgb(c.l - Product(Chroma(c), w.0), c.l - Product(Chroma(c), w.1), c.l - Product(Chroma(c), w.2))
  {
    hide Wave, Mod12, Chroma, Waves, Product;
    WavesAreRight(x);
  }

  /** A channel on a slope of the wave. */
  lemma OnSlope(a: real, d: real, q: real, y: real)
    requires a == d / 2.0 && q * d == y
    ensures Product(a, 1.0 - 2.0 * q) == a - y && Product(a, 1.0 + 2.0 * q) == a + y
    ensures Product(a, 1.0) == a && Product(a, -1.0) == -a
  {
    assert q * d == 2.0 * (a * q);
  }

  /** With slope `q` and waves `w` the channels of the colour that comes back. */
  lemma Rebuilt(c: Rgb, x: real, q: real, y: real, w: (real, real, real))
    requires Valid(c) && Top(c) != Bottom(c)
    requires 0.0 <= x < 12.0 && 2.0 * Sixths(c) == x && Waves(x) == w && q * (Top(c) - Bottom(c)) == y
    ensures var a, l, out := Chroma(ToHsl(c)), ToHsl(c).l, ToRgb(ToHsl(c));
            && out == Rgb(l - Product(a, w.0), l - Product(a, w.1), l - Product(a, w.2))
            && Product(a, 1.0 - 2.0 * q) == a - y && Product(a, 1.0 + 2.0 * q) == a + y
            && Product(a, 1.0) == a && Product(a, -1.0) == -a
            && l - a == Bottom(c) && l + a == Top(c)
  {
    hide Waves, Chroma, ToRgb, Sixths, Product;
    ChromaIsHalfSpread(c);
    ToRgbBySector(ToHsl(c), x, w);
    OnSlope(Chroma(ToHsl(c)), Top(c) - Bottom(c), q, y);
  }

  lemma RedSector(c: Rgb)
    requires Valid(c) && Top(c) != Bottom(c) && Top(c) == c.r
    ensures ToRgb(ToHsl(c)) == c
  {
    hide Chroma, ToRgb, ToHsl, Product;
    var d := Top(c) - Bottom(c);
    Slope(c.g - c.b, d);
    var q := (c.g - c.b) / d;
    if c.g < c.b {
      Rebuilt(c, 12.0 + 2.0 * q, q, c.g - c.b, (-1.0, 1.0, 1.0 + 2.0 * q));
    } else {
      Rebuilt(c, 2.0 * q, q, c.g - c.b, (-1.0, 1.0 - 2.0 * q, 1.0));
    }
  }

  lemma GreenSector(c: Rgb)
    requires Valid(c) && Top(c) != Bottom(c) && Top(c) != c.r && Top(c) == c.g
    ensures ToRgb(ToHsl(c)) == c
  {
    hide Chroma, ToRgb, ToHsl, Product;
    var d := Top(c) - Bottom(c);
    Slope(c.b - c.r, d);
    var q := (c.b - c.r) / d;
    if c.b <= c.r {
      assert q > -1.0 && q <= 0.0;
      Rebuilt(c, 4.0 + 2.0 * q, q, c.b - c.r, (1.0 + 2.0 * q, -1.0, 1.0));
    } else {
      Rebuilt(c, 4.0 + 2.0 * q, q, c.b - c.r, (1.0, -1.0, 1.0 - 2.0 * q));
    }
  }

  lemma BlueSector(c: Rgb)
    requires Valid(c) && Top(c) != Bottom(c) && Top(c) != c.r && Top(c) != c.g
    ensures ToRgb(ToHsl(c)) == c
  {
    hide Chroma, ToRgb, ToHsl, Product;
    var d := Top(c) - Bottom(c);
    Slope(c.r - c.g, d);
    var q := (c.r - c.g) / d;
    if c.r <= c.g {
      assert q > -1.0 && q <= 0.0;
      Rebuilt(c, 8.0 + 2.0 * q, q, c.r - c.g, (1.0, 1.0 + 2.0 * q, -1.0));
    } else {
      assert q < 1.0;
      Rebuilt(c, 8.0 + 2.0 * q, q, c.r - c.g, (1.0 - 2.0 * q, 1.0, -1.0));
    }
  }

  /** Without rounding, converting a colour to HSL and back gives the same colour. */
  lemma RgbSurvivesExactly(c: Rgb)
    requires Valid(c)
    ensures ToRgb(ToHsl(c)) == c
  {
    if Top(c) == Bottom(c) {
      var hsl := ToHsl(c);
      assert Chroma(hsl) == 0.0;
    } else if Top(c) == c.r {
      RedSector(c);
    } else if Top(c) == c.g {
      GreenSector(c);
    } else {
      BlueSector(c);
    }
  }

  /** A colour that HSL describes uniquely. */
  predicate Chromatic(c: Hsl) {
    0.0 <= c.h < 1.0 && 0.0 < c.s <= 1.0 && 0.0 < c.l < 1.0
  }

  lemma ProductBounds(s: real, m: real)
    requires 0.0 <= s <= 1.0 && 0.0 <= m
    ensures 0.0 <= Product(s, m) <= m
    ensures s > 0.0 && m > 0.0 ==> Product(s, m) > 0.0
  {
    assert s * m <= 1.0 * m by { assert (1.0 - s) * m >= 0.0; assert (1.0 - s) * m == m - s * m; }
  }

  lemma HalfOf(a: real, t: real)
    requires a > 0.0
    ensures (a * t) / (2.0 * a) == t / 2.0
  {
    var q := (a * t) / (2.0 * a);
    assert q * (2.0 * a) == a * t;
    assert a * (2.0 * q - t) == 0.0;
  }

  /** Twice the chroma over twice the room it has is the saturation. */
  lemma SaturationIsBack(s: real, m: real)
    requires m > 0.0
    ensures (2.0 * (s * m)) / (2.0 * m) == s
  {
    var q := (2.0 * (s * m)) / (2.0 * m);
    assert q * (2.0 * m) == 2.0 * (s * m);
    assert m * (q - s) == 0.0;
  }

  /** A slope term, its size, and its quotient by the spread 2a. */
  lemma SlopeTerm(a: real, t: real, p: real)
    requires a > 0.0 && -2.0 <= t <= 2.0 && p == a * t
    ensures p / (2.0 * a) == t / 2.0 && (2.0 * a) / (2.0 * a) == 1.0 && (-2.0 * a) / (2.0 * a) == -1.0
    ensures -2.0 * a <= p <= 2.0 * a && (p < 0.0 <==> t < 0.0)
    ensures (p == 2.0 * a <==> t == 2.0) && (p == -2.0 * a <==> t == -2.0)
  {
    HalfOf(a, t);
    HalfOf(a, 2.0);
    HalfOf(a, -2.0);
    ProductSign(a, 2.0 - t);
    ProductSign(a, t + 2.0);
    ProductSign(a, t);
    assert a * (2.0 - t) == 2.0 * a - p && a * (t + 2.0) == p + 2.0 * a;
  }

  lemma ProductSign(a: real, t: real)
    requires a > 0.0
    ensures (a * t < 0.0 <==> t < 0.0) && (a * t == 0.0 <==> t == 0.0)
  {
  }

  // In each sector of the wheel one channel is at the top, one at the bottom, and the third
  // lies p above or below the bottom.

  lemma Sector0(out: Rgb, l: real, a: real, x: real, p: real)
    requires a > 0.0 && 0.0 <= x <= 2.0 && p == a * (x - 0.0)
    requires out == Rgb(l + a, l - a + p, l - a)
    ensures Top(out) == l + a && Bottom(out) == l - a && Sixths(out) == x / 2.0
  {
    SlopeTerm(a, x - 0.0, p);
  }

  lemma Sector1(out: Rgb, l: real, a: real, x: real, p: real)
    requires a > 0.0 && 2.0 <= x <= 4.0 && p == a * (x - 4.0)
    requires out == Rgb(l - a - p, l + a, l - a)
    ensures Top(out) == l + a && Bottom(out) == l - a && Sixths(out) == x / 2.0
  {
    SlopeTerm(a, x - 4.0, p);
  }

  lemma Sector2(out: Rgb, l: real, a: real, x: real, p: real)
    requires a > 0.0 && 4.0 <= x <= 6.0 && p == a * (x - 4.0)
    requires out == Rgb(l - a, l + a, l - a + p)
    ensures Top(out) == l + a && Bottom(out) == l - a && Sixths(out) == x / 2.0
  {
    SlopeTerm(a, x - 4.0, p);
  }

  lemma Sector3(out: Rgb, l: real, a: real, x: real, p: real)
    requires a > 0.0 && 6.0 <= x <= 8.0 && p == a * (x - 8.0)
    requires out == Rgb(l - a, l - a - p, l + a)
    ensures Top(out) == l + a && Bottom(out) == l - a && Sixths(out) == x / 2.0
  {
    SlopeTerm(a, x - 8.0, p);
  }

  lemma Sector4(out: Rgb, l: real, a: real, x: real, p: real)
    requires a > 0.0 && 8.0 <= x <= 10.0 && p == a * (x - 8.0)
    requires out == Rgb(l - a + p, l - a, l + a)
    ensures Top(out) == l + a && Bottom(out) == l - a && Sixths(out) == x / 2.0
  {
    SlopeTerm(a, x - 8.0, p);
  }

  lemma Sector5(out: Rgb, l: real, a: real, x: real, p: real)
    requires a > 0.0 && 10.0 <= x < 12.0 && p == a * (x - 12.0)
    requires out == Rgb(l + a, l - a, l - a - p)
    ensures Top(out) == l + a && Bottom(out) == l - a && Sixths(out) == x / 2.0
  {
    SlopeTerm(a, x - 12.0, p);
  }

  /** The hue comes back from channels l - a * w. */
  lemma SixthsAre(out: Rgb, l: real, a: real, x: real, w: (real, real, real))
    requires a > 0.0 && 0.0 <= x < 12.0 && Waves(x) == w
    requires out == Rgb(l - a * w.0, l - a * w.1, l - a * w.2)
    ensures Top(out) == l + a && Bottom(out) == l - a && Sixths(out) == x / 2.0
  {
    hide Top, Bottom, Sixths;
    if x <= 2.0 {
      Sector0(out, l, a, x, a * (x - 0.0));
    } else if x <= 4.0 {
      Sector1(out, l, a, x, a * (x - 4.0));
    } else if x <= 6.0 {
      Sector2(out, l, a, x, a * (x - 4.0));
    } else if x <= 8.0 {
      Sector3(out, l, a, x, a * (x - 8.0));
    } else if x <= 10.0 {
      Sector4(out, l, a, x, a * (x - 8.0));
    } else {
      Sector5(out, l, a, x, a * (x - 12.0));
    }
  }

  /** Without rounding, converting HSL to a colour and back gives the same hue, saturation and lightness. */
  lemma HslSurvivesExactly(c: Hsl)
    requires Chromatic(c)
    ensures Valid(ToRgb(c)) && ToHsl(ToRgb(c)) == c
  {
    hide Waves, ToRgb, Sixths, Top, Bottom, Chroma, Valid, ToHsl;
    var a, x, out := Chroma(c), c.h * 12.0, ToRgb(c);
    ChromaBounds(c);
    ToRgbBySector(c, x, Waves(x));
    SixthsAre(out, c.l, a, x, Waves(x));
    SpreadIsValid(out);
    ToHslFromSpread(c, out);
  }

  lemma ChromaBounds(c: Hsl)
    requires InUnit(c.s) && InUnit(c.l)
    ensures 0.0 <= Chroma(c) <= Min(c.l, 1.0 - c.l) <= 0.5
    ensures c.s > 0.0 && 0.0 < c.l < 1.0 ==> Chroma(c) > 0.0
  {
    hide Product;
    ProductBounds(c.s, Room(c));
  }

  lemma ToHslFromSpread(c: Hsl, out: Rgb)
    requires Chromatic(c) && Valid(out) && Chroma(c) > 0.0
    requires Top(out) == c.l + Chroma(c) && Bottom(out) == c.l - Chroma(c) && Sixths(out) == c.h * 12.0 / 2.0
    ensures ToHsl(out) == c
  {
    hide Sixths, Top, Bottom, Valid;
    SaturationIsBack(c.s, Min(c.l, 1.0 - c.l));
  }

  lemma SpreadIsValid(c: Rgb)
    requires 0.0 <= Bottom(c) && Top(c) <= 1.0
    ensures Valid(c)
  {
  }

  /** Greys keep their lightness and lose hue and saturation, which they do not have. */
  lemma GreySurvivesExactly(c: Hsl)
    requires InUnit(c.s) && InUnit(c.l) && (c.s == 0.0 || c.l == 0.0 || c.l == 1.0)
    ensures ToRgb(c) == Rgb(c.l, c.l, c.l) && ToHsl(ToRgb(c)) == Hsl(0.0, 0.0, c.l)
  {
    assert Chroma(c) == 0.0;
  }

  // ---------- the conversions with their roundings ----------

  /** A 24-bit colour. */
  datatype Rgb24 = Rgb24(r: int, g: int, b: int)

  predicate Valid24(c: Rgb24) { 0 <= c.r < 256 && 0 <= c.g < 256 && 0 <= c.b < 256 }

  function Fraction(c: Rgb24): Rgb { Rgb(c.r as real / 255.0, c.g as real / 255.0, c.b as real / 255.0) }

  /** Whole degrees and percentages. */
  datatype Hsl360 = Hsl360(h: int, s: int, l: int)

  function RoundedHsl(c: Rgb24): Hsl360
    requires Valid24(c)
  {
    var hsl := ToHsl(Fraction(c));
    Hsl360(Round(hsl.h * 360.0), Round(hsl.s * 100.0), Round(hsl.l * 100.0))
  }

  function Unrounded(c: Hsl360): Hsl { Hsl(c.h as real / 360.0, c.s as real / 100.0, c.l as real / 100.0) }

  function RoundedRgb(c: Hsl): Rgb24 {
    var rgb := ToRgb(c);
    Rgb24(Round(255.0 * rgb.r), Round(255.0 * rgb.g), Round(255.0 * rgb.b))
  }

  lemma ModRange(x: real)
    ensures 0.0 <= Mod12(x) < 12.0
  {
    assert (x / 12.0).Floor as real <= x / 12.0 < (x / 12.0).Floor as real + 1.0;
  }

  /** Any hue at all, with saturation and lightness in range, gives channels in range. */
  lemma ChannelsInRange(c: Hsl, n: real)
    requires InUnit(c.s) && InUnit(c.l)
    ensures InUnit(Channel(n, c))
  {
    hide Mod12, Wave, Product;
    ChromaBounds(c);
    WaveInRange(Mod12(n + c.h * 12.0));
    var w := Wave(Mod12(n + c.h * 12.0));
    AbsProduct(Chroma(c), w, Chroma(c), 1.0);
  }

  lemma RoundedRgbIsValid(c: Hsl)
    requires InUnit(c.s) && InUnit(c.l)
    ensures Valid24(RoundedRgb(c))
  {
    hide Channel;
    ChannelsInRange(c, 0.0);
    ChannelsInRange(c, 8.0);
    ChannelsInRange(c, 4.0);
  }

  lemma ProductGrows(a: real, b: real, c: real, d: real)
    requires 0.0 <= a <= b && 0.0 <= c <= d
    ensures 0.0 <= a * c <= b * d
  {
    assert a * c <= b * c by { assert (b - a) * c >= 0.0; assert (b - a) * c == b * c - a * c; }
    assert b * c <= b * d by { assert b * (d - c) >= 0.0; assert b * (d - c) == b * d - b * c; }
  }

  lemma AbsOfProduct(x: real, y: real)
    ensures Abs(x * y) == Abs(x) * Abs(y)
  {
  }

  /** |x * y| is at most the product of bounds on |x| and |y|. */
  lemma AbsProduct(x: real, y: real, xMax: real, yMax: real)
    requires Abs(x) <= xMax && Abs(y) <= yMax
    ensures Abs(Product(x, y)) <= xMax * yMax
  {
    AbsOfProduct(x, y);
    ProductGrows(Abs(x), xMax, Abs(y), yMax);
  }

  /** The wave moves no faster than its argument, also across the seam of the colour wheel. */
  lemma WaveIsLipschitz(x: real, y: real)
    requires Abs(x - y) <= 1.0
    ensures Abs(Wave(Mod12(x)) - Wave(Mod12(y))) <= Abs(x - y)
  {
    ModRange(x);
    ModRange(y);
    var i, j := (x / 12.0).Floor, (y / 12.0).Floor;
    assert Mod12(x) == x - 12.0 * i as real && Mod12(y) == y - 12.0 * j as real;
    if i < j { assert i + 1 == j; }
    if i > j { assert i == j + 1; }
  }

  lemma SumOfThree(d: real, t1: real, t2: real, t3: real, e1: real, e2: real, e3: real)
    requires d == t1 + t2 + t3 && Abs(t1) <= e1 && Abs(t2) <= e2 && Abs(t3) <= e3
    ensures Abs(d) <= e1 + e2 + e3
  {
  }

  /** A channel's distance from the lightness: saturation times room times wave. */
  function Triple(s: real, m: real, w: real): real { Product(Product(s, m), w) }

  lemma Telescope(s: real, m: real, w: real, s': real, m': real, w': real)
    ensures Triple(s', m', w') - Triple(s, m, w) ==
            Triple(s', m', w' - w) + Triple(s', m' - m, w) + Triple(s' - s, m, w)
  {
    assert s' * m' * (w' - w) == s' * m' * w' - s' * m' * w;
    assert s' * (m' - m) * w == s' * m' * w - s' * m * w;
    assert (s' - s) * m * w == s' * m * w - s * m * w;
  }

  lemma AbsTriple(x: real, y: real, z: real, xMax: real, yMax: real, zMax: real)
    requires Abs(x) <= xMax && Abs(y) <= yMax && Abs(z) <= zMax
    ensures Abs(Triple(x, y, z)) <= xMax * yMax * zMax
  {
    hide Product;
    AbsProduct(x, y, xMax, yMax);
    AbsProduct(Product(x, y), z, xMax * yMax, zMax);
  }

  /** How far a channel moves when saturation, room and wave move a little. */
  lemma ProductMoves(s: real, m: real, w: real, s': real, m': real, w': real)
    requires InUnit(s') && 0.0 <= m <= 0.5 && 0.0 <= m' <= 0.5 && Abs(w) <= 1.0
    requires Abs(s' - s) <= 0.005 && Abs(m' - m) <= 0.005 && Abs(w' - w) <= 1.0 / 60.0
    ensures Abs(Triple(s', m', w') - Triple(s, m, w)) <= 1.0 / 120.0 + 0.005 + 0.0025
  {
    hide Triple;
    AbsTriple(s', m', w' - w, 1.0, 0.5, 1.0 / 60.0);
    AbsTriple(s', m' - m, w, 1.0, 0.005, 1.0);
    AbsTriple(s' - s, m, w, 0.005, 0.5, 1.0);
    Telescope(s, m, w, s', m', w');
    SumOfThree(Triple(s', m', w') - Triple(s, m, w),
               Triple(s', m', w' - w), Triple(s', m' - m, w), Triple(s' - s, m, w),
               1.0 / 120.0, 0.005, 0.0025);
  }

  lemma ChannelIsTriple(n: real, c: Hsl)
    ensures Channel(n, c) == c.l - Triple(c.s, Room(c), Wave(Mod12(n + c.h * 12.0)))
  {
  }

  /** Half a degree, half a percent and half a percent move a channel by at most 1/48. */
  lemma ChannelMoves(n: real, c: Hsl, c': Hsl)
    requires InUnit(c.s) && InUnit(c.l) && InUnit(c'.s) && InUnit(c'.l)
    requires Abs(c'.h - c.h) <= 1.0 / 720.0 && Abs(c'.s - c.s) <= 0.005 && Abs(c'.l - c.l) <= 0.005
    ensures Abs(Channel(n, c') - Channel(n, c)) <= 1.0 / 48.0
  {
    hide Mod12, Wave, Channel, Triple;
    var w, w' := Wave(Mod12(n + c.h * 12.0)), Wave(Mod12(n + c'.h * 12.0));
    WaveIsLipschitz(n + c'.h * 12.0, n + c.h * 12.0);
    WaveInRange(Mod12(n + c.h * 12.0));
    ProductMoves(c.s, Room(c), w, c'.s, Room(c'), w');
    ChannelIsTriple(n, c);
    ChannelIsTriple(n, c');
  }

  lemma WaveInRange(k: real)
    ensures Abs(Wave(k)) <= 1.0
  {
  }

  lemma QuotientInUnit(x: real, y: real)
    requires 0.0 <= x <= y && y > 0.0
    ensures InUnit(x / y)
  {
    var q := x / y;
    assert q * y == x;
    assert q > 1.0 ==> q * y > y;
    assert q < 0.0 ==> q * y < 0.0;
  }

  lemma ToHslInRange(c: Rgb)
    requires Valid(c)
    ensures var hsl := ToHsl(c); 0.0 <= hsl.h < 1.0 && InUnit(hsl.s) && InUnit(hsl.l)
  {
    var max, min := Top(c), Bottom(c);
    if max != min {
      var d := max - min;
      QuotientInUnit(d, if (max + min) / 2.0 > 0.5 then 2.0 - max - min else max + min);
      if max == c.r { Slope(c.g - c.b, d); } else if max == c.g { Slope(c.b - c.r, d); } else { Slope(c.r - c.g, d); }
    }
  }

  lemma RoundIsNear(x: real)
    ensures Abs(Round(x) as real - x) <= 0.5
  {
  }

  /** The rounded HSL of a colour is within half a degree and half a percent of the exact one. */
  lemma RoundedHslIsNear(c: Rgb24)
    requires Valid24(c)
    ensures var exact, rounded := ToHsl(Fraction(c)), Unrounded(RoundedHsl(c));
            && InUnit(exact.s) && InUnit(exact.l) && InUnit(rounded.s) && InUnit(rounded.l)
            && Abs(rounded.h - exact.h) <= 1.0 / 720.0
            && Abs(rounded.s - exact.s) <= 0.005
            && Abs(rounded.l - exact.l) <= 0.005
  {
    hide ToHsl;
    var exact := ToHsl(Fraction(c));
    ToHslInRange(Fraction(c));
    RoundIsNear(exact.h * 360.0);
    RoundIsNear(exact.s * 100.0);
    RoundIsNear(exact.l * 100.0);
  }

  lemma RoundsWithinFive(k: int, x: real)
    requires Abs(x - k as real / 255.0) <= 1.0 / 48.0
    ensures -5 <= Round(255.0 * x) - k <= 5
  {
  }

  /** Every 24-bit colour comes back from the rounded HSL within 5 of each channel. */
  lemma ColourSurvivesWithinFive(c: Rgb24)
    requires Valid24(c)
    ensures var back := RoundedRgb(Unrounded(RoundedHsl(c)));
            Valid24(back) && -5 <= back.r - c.r <= 5 && -5 <= back.g - c.g <= 5 && -5 <= back.b - c.b <= 5
  {
    hide Channel, ToHsl, RoundedHsl, Round;
    var exact, rounded := ToHsl(Fraction(c)), Unrounded(RoundedHsl(c));
    RoundedHslIsNear(c);
    RoundedRgbIsValid(rounded);
    RgbSurvivesExactly(Fraction(c));
    ChannelMoves(0.0, exact, rounded);
    ChannelMoves(8.0, exact, rounded);
    ChannelMoves(4.0, exact, rounded);
    RoundsWithinFive(c.r, ToRgb(rounded).r);
    RoundsWithinFive(c.g, ToRgb(rounded).g);
    RoundsWithinFive(c.b, ToRgb(rounded).b);
  }

  // ---------- hex text ----------

  const DIGITS := "0123456789abcdef"

  /** v.toString(16) */
  function ToString16(v: int): string
    decreases v < 0, if v < 0 then -v else v
  {
    if v < 0 then "-" + ToString16(-v)
    else if v < 16 then [DIGITS[v]]
    else ToString16(v / 16) + [DIGITS[v % 16]]
  }

  /** .padStart(2, '0') */
  function PadStart2(s: string): string {
    if |s| == 0 then "00" else if |s| == 1 then "0" + s else s
  }

  function HexOf(c: Rgb24): string {
    "#" + PadStart2(ToString16(c.r)) + PadStart2(ToString16(c.g)) + PadStart2(ToString16(c.b))
  }

  function HexValue(c: char): int {
    if '0' <= c <= '9' then c as int - '0' as int
    else if 'a' <= c <= 'f' then c as int - 'a' as int + 10
    else if 'A' <= c <= 'F' then c as int - 'A' as int + 10
    else -1
  }

  predicate IsHexColour(hex: string) {
    |hex| == 7 && hex[0] == '#' && forall i :: 1 <= i < 7 ==> HexValue(hex[i]) >= 0
  }

  /** parseInt of two hex digits. */
  function ParseByte(hex: string, i: nat): int
    requires i + 1 < |hex|
  {
    16 * HexValue(hex[i]) + HexValue(hex[i + 1])
  }

  function ColourOf(hex: string): (c: Rgb24)
    requires IsHexColour(hex)
    ensures Valid24(c)
  {
    Rgb24(ParseByte(hex, 1), ParseByte(hex, 3), ParseByte(hex, 5))
  }

  lemma DigitValue(v: nat)
    requires v < 16
    ensures HexValue(DIGITS[v]) == v
  {
  }

  lemma ByteSurvives(v: int)
    requires 0 <= v < 256
    ensures var s := PadStart2(ToString16(v)); |s| == 2 && HexValue(s[0]) == v / 16 && HexValue(s[1]) == v % 16
  {
    DigitValue(v / 16);
    DigitValue(v % 16);
    if v >= 16 { assert ToString16(v / 16) == [DIGITS[v / 16]]; }
  }

  /** Printing a 24-bit colour gives "#rrggbb", and reading it gives the colour back. */
  lemma HexTextSurvives(c: Rgb24)
    requires Valid24(c)
    ensures IsHexColour(HexOf(c)) && ColourOf(HexOf(c)) == c
  {
    ByteSurvives(c.r);
    ByteSurvives(c.g);
    ByteSurvives(c.b);
    hide PadStart2, ToString16, HexValue;
    JoinedBytes(PadStart2(ToString16(c.r)), PadStart2(ToString16(c.g)), PadStart2(ToString16(c.b)));
    var hex := HexOf(c);
    assert forall i :: 1 <= i < 7 ==> hex[i] in [hex[1], hex[2], hex[3], hex[4], hex[5], hex[6]];
  }

  lemma JoinedBytes(r: string, g: string, b: string)
    requires |r| == 2 && |g| == 2 && |b| == 2
    ensures "#" + r + g + b == ['#', r[0], r[1], g[0], g[1], b[0], b[1]]
  {
  }

  // ---------- the two functions of the page ----------

  /** Degrees and percentages as the text holds them. */
  datatype HslText = HslText(h: real, s: real, l: real)

  function HslOf(t: HslText): Hsl { Hsl(t.h / 360.0, t.s / 100.0, t.l / 100.0) }

  /** `hslToHex`; `None` is text without three numbers in it. */
  function HslToHex(text: Option<HslText>): string {
    match text
    case None => "#000000"
    case Some(t) => HexOf(RoundedRgb(HslOf(t)))
  }

  function TextOf(c: Hsl360): HslText { HslText(c.h as real, c.s as real, c.l as real) }

  /** hex.replace('#', '') */
  function StripHash(hex: string): string {
    if hex == "" then "" else if hex[0] == '#' then hex[1..] else [hex[0]] + StripHash(hex[1..])
  }

  predicate AllHexDigits(s: string) {
    forall i :: 0 <= i < |s| ==> HexValue(s[i]) >= 0
  }

  lemma SixDigitsAreColour(hex: string)
    requires |StripHash(hex)| >= 6 && AllHexDigits(StripHash(hex))
    ensures var six := "#" + StripHash(hex)[..6]; IsHexColour(six) && (IsHexColour(hex) ==> six == hex)
  {
    var m := StripHash(hex);
    var six := "#" + m[..6];
    assert forall i :: 1 <= i < 7 ==> six[i] == m[i - 1];
    assert IsHexColour(hex) ==> m == hex[1..];
  }

  /** A hex colour is a hash sign and six digits. */
  lemma StrippedColour(hex: string)
    requires IsHexColour(hex)
    ensures |StripHash(hex)| == 6 && AllHexDigits(StripHash(hex))
  {
    assert StripHash(hex) == hex[1..];
  }

  /** The middle of `hexToHsl`: hue and saturation are set on the way, the hue by a switch over the top channel. */
  method HslOfChannels(c: Rgb) returns (hsl: Hsl)
    requires Valid(c)
    ensures hsl == ToHsl(c)
  {
    var max, min := Max(c.r, Max(c.g, c.b)), Min(c.r, Min(c.g, c.b));
    var l := (max + min) / 2.0;
    var h, s := 0.0, 0.0;
    if max != min {
      var d := max - min;
      s := if l > 0.5 then d / (2.0 - max - min) else d / (max + min);
      if max == c.r {
        h := (c.g - c.b) / d + (if c.g < c.b then 6.0 else 0.0);
      } else if max == c.g {
        h := (c.b - c.r) / d + 2.0;
      } else {
        h := (c.r - c.g) / d + 4.0;
      }
      h := h / 6.0;
    }
    hsl := Hsl(h, s, l);
  }

  /**
    `hexToHsl` of hex digits, with or without a hash sign: black without a pair of them, the
    colour of the first three pairs, and `None`, which is "0 NaN% NaN%", with only one or two.
   */
  method HexToHsl(hex: string) returns (hsl: Option<Hsl360>)
    requires |StripHash(hex)| < 2 || AllHexDigits(StripHash(hex))
    ensures |StripHash(hex)| < 2 ==> hsl == Some(Hsl360(0, 0, 0))
    ensures IsHexColour(hex) ==> hsl == Some(RoundedHsl(ColourOf(hex)))
    ensures |StripHash(hex)| >= 6 ==> var six := "#" + StripHash(hex)[..6];
                                      IsHexColour(six) && hsl == Some(RoundedHsl(ColourOf(six)))
    ensures hsl.None? <==> 2 <= |StripHash(hex)| < 6
  {
    if IsHexColour(hex) { StrippedColour(hex); }
    var m := StripHash(hex);
    if |m| < 2 {
      return Some(Hsl360(0, 0, 0));
    }
    if |m| < 6 {
      return None;
    }
    SixDigitsAreColour(hex);
    hide StripHash, IsHexColour, AllHexDigits, ColourOf, ToHsl, Round;
    var c := HslOfChannels(Fraction(ColourOf("#" + m[..6])));
    hsl := Some(Hsl360(Round(c.h * 360.0), Round(c.s * 100.0), Round(c.l * 100.0)));
  }

  lemma HexDigitsOf(v: int)
    ensures var s := PadStart2(ToString16(v));
            && |s| >= 2 && (v >= 256 ==> |s| >= 3) && (v < 0 ==> s[0] == '-')
  {
    if v < 0 { assert |ToString16(-v)| >= 1; }
    if v >= 256 {
      var w := v / 16;
      assert |ToString16(w / 16)| >= 1 && ToString16(w) == ToString16(w / 16) + [DIGITS[w % 16]];
    }
  }

  /** Printed channels are a hex colour only if each is a byte. */
  lemma OnlyBytesPrint(c: Rgb24)
    requires IsHexColour(HexOf(c))
    ensures Valid24(c)
  {
    HexDigitsOf(c.r);
    HexDigitsOf(c.g);
    HexDigitsOf(c.b);
    hide PadStart2, ToString16;
    var r, g, b := PadStart2(ToString16(c.r)), PadStart2(ToString16(c.g)), PadStart2(ToString16(c.b));
    assert |r| == 2 && |g| == 2 && |b| == 2;
    JoinedBytes(r, g, b);
    var hex := HexOf(c);
    assert hex[1] == r[0] && hex[3] == g[0] && hex[5] == b[0];
  }

  /** Whole turns of the hue change nothing. */
  lemma ModShift(n: real, x: real)
    ensures 0.0 <= Mod12(x) < 12.0 && Mod12(n + x) == Mod12(n + Mod12(x))
  {
    var f := (x / 12.0).Floor;
    var y := x - 12.0 * f as real;
    assert f as real <= x / 12.0 < f as real + 1.0;
    var g := ((n + y) / 12.0).Floor;
    assert g as real <= (n + y) / 12.0 < g as real + 1.0;
    ModBelow(n + x, f + g);
  }

  lemma ChannelIsHueless(n: real, c: Hsl)
    ensures Channel(n, c) == Channel(n, c.(h := Mod12(c.h * 12.0) / 12.0))
  {
    ModShift(n, c.h * 12.0);
    assert Mod12(c.h * 12.0) / 12.0 * 12.0 == Mod12(c.h * 12.0);
  }

  lemma ProductOfSigned(a: real, w: real)
    requires -1.0 <= w <= 1.0
    ensures -Abs(a) <= Product(a, w) <= Abs(a)
    ensures Product(a, 1.0) == a && Product(a, -1.0) == -a
  {
    AbsProduct(a, w, Abs(a), 1.0);
  }

  /** Whatever the hue, one channel is at each end of the chroma's range around the lightness, and none is outside. */
  lemma ChannelsSpan(c: Hsl)
    ensures var rgb, a := ToRgb(c), Abs(Chroma(c)); Top(rgb) == c.l + a && Bottom(rgb) == c.l - a
  {
    hide Channel, Mod12, Wave, Product, Waves;
    var x := Mod12(c.h * 12.0);
    ModShift(0.0, c.h * 12.0);
    ChannelIsHueless(0.0, c);
    ChannelIsHueless(8.0, c);
    ChannelIsHueless(4.0, c);
    ToRgbBySector(c.(h := x / 12.0), x, Waves(x));
    var w := Waves(x);
    WavesSpan(x);
    ProductOfSigned(Chroma(c), w.0);
    ProductOfSigned(Chroma(c), w.1);
    ProductOfSigned(Chroma(c), w.2);
  }

  /** Somewhere in the three waves are -1 and 1, and nothing beyond them. */
  lemma WavesSpan(x: real)
    requires 0.0 <= x < 12.0
    ensures var w := Waves(x);
            && -1.0 <= w.0 <= 1.0 && -1.0 <= w.1 <= 1.0 && -1.0 <= w.2 <= 1.0
            && (w.0 == -1.0 || w.1 == -1.0 || w.2 == -1.0) && (w.0 == 1.0 || w.1 == 1.0 || w.2 == 1.0)
  {
  }

  /** The range of the channels, in 255ths, stays within what rounds to a byte. */
  predicate FitsBytes(c: Hsl) {
    -0.5 <= 255.0 * (c.l - Abs(Chroma(c))) && 255.0 * (c.l + Abs(Chroma(c))) < 255.5
  }

  /**
    For any three numbers, percentages above 100 included, the result is a well-formed hex colour
    if and only if lightness and chroma leave every channel a byte; percentages up to 100 do.
   */
  lemma HslToHexIsWellFormedIff(t: Option<HslText>)
    ensures IsHexColour(HslToHex(t)) <==> (t.Some? ==> FitsBytes(HslOf(t.value)))
    ensures t.None? ==> HslToHex(t) == "#000000"
    ensures t.Some? && 0.0 <= t.value.s <= 100.0 && 0.0 <= t.value.l <= 100.0 ==> FitsBytes(HslOf(t.value))
  {
    if t.Some? {
      var c := HslOf(t.value);
      ChannelsSpan(c);
      hide ToRgb, Chroma, HexOf;
      if FitsBytes(c) {
        HexTextSurvives(RoundedRgb(c));
      } else if IsHexColour(HslToHex(t)) {
        OnlyBytesPrint(RoundedRgb(c));
      }
      if InUnit(c.s) && InUnit(c.l) { ChromaFits(c); }
    }
  }

  /** An integer that a real number rounds to, halves up. */
  predicate IsRounded(v: int, x: real) {
    v as real - 0.5 <= x < v as real + 0.5
  }

  /** Every channel of a well-formed result is the byte next to 255 times the channel, halves up. */
  lemma PrintsNearestBytes(t: HslText)
    requires IsHexColour(HslToHex(Some(t)))
    ensures var printed, exact := ColourOf(HslToHex(Some(t))), ToRgb(Hsl(t.h / 360.0, t.s / 100.0, t.l / 100.0));
            && IsRounded(printed.r, 255.0 * exact.r)
            && IsRounded(printed.g, 255.0 * exact.g)
            && IsRounded(printed.b, 255.0 * exact.b)
  {
    hide ToRgb, HexOf;
    OnlyBytesPrint(RoundedRgb(HslOf(t)));
    HexTextSurvives(RoundedRgb(HslOf(t)));
  }

  /** What is stored of a colour are the nearest whole degrees and percents, halves up. */
  lemma StoresNearestNumbers(c: Rgb24)
    requires Valid24(c)
    ensures Valid(Rgb(c.r as real / 255.0, c.g as real / 255.0, c.b as real / 255.0))
    ensures var exact := ToHsl(Rgb(c.r as real / 255.0, c.g as real / 255.0, c.b as real / 255.0));
            var stored := RoundedHsl(c);
            && IsRounded(stored.h, exact.h * 360.0)
            && IsRounded(stored.s, exact.s * 100.0)
            && IsRounded(stored.l, exact.l * 100.0)
  {
    hide ToHsl;
  }

  /** A byte is printed as two lower-case digits, the sixteens first. */
  lemma BytePrintsAs(v: int)
    requires 0 <= v < 256
    ensures PadStart2(ToString16(v)) == ["0123456789abcdef"[v / 16], "0123456789abcdef"[v % 16]]
  {
    if v >= 16 { assert ToString16(v / 16) == [DIGITS[v / 16]]; }
  }

  lemma GreyPrints(v: int)
    requires 0 <= v < 256
    ensures var high, low := "0123456789abcdef"[v / 16], "0123456789abcdef"[v % 16];
            HexOf(Rgb24(v, v, v)) == ['#', high, low, high, low, high, low]
  {
    BytePrintsAs(v);
    hide PadStart2, ToString16;
    var high, low := "0123456789abcdef"[v / 16], "0123456789abcdef"[v % 16];
    JoinedBytes([high, low], [high, low], [high, low]);
  }

  lemma GreyChannels(c: Hsl)
    requires c.s == 0.0
    ensures ToRgb(c) == Rgb(c.l, c.l, c.l)
  {
    hide Mod12, Wave;
    assert Chroma(c) == 0.0;
  }

  /** A grey stored with 30% has 76.5 in every channel, and prints as #4d4d4d. */
  lemma HalvesGoUp(t: HslText)
    requires t.s == 0.0 && t.l == 30.0
    ensures HslToHex(Some(t)) == "#4d4d4d"
  {
    GreyChannels(HslOf(t));
    GreyPrints(77);
    hide ToRgb, HexOf;
    assert RoundedRgb(HslOf(t)) == Rgb24(77, 77, 77);
  }

  /** A digit of either case has its value. */
  lemma DigitsAreRead(v: nat)
    requires v < 16
    ensures HexValue("0123456789abcdef"[v]) == v && HexValue("0123456789ABCDEF"[v]) == v
  {
  }

  /** Two digits for red, then two for green, then two for blue. */
  lemma ChannelsAreRead(r1: char, r2: char, g1: char, g2: char, b1: char, b2: char)
    requires IsHexColour(['#', r1, r2, g1, g2, b1, b2])
    ensures ColourOf(['#', r1, r2, g1, g2, b1, b2]) ==
            Rgb24(16 * HexValue(r1) + HexValue(r2), 16 * HexValue(g1) + HexValue(g2), 16 * HexValue(b1) + HexValue(b2))
  {
  }

  lemma ChromaFits(c: Hsl)
    requires InUnit(c.s) && InUnit(c.l)
    ensures FitsBytes(c)
  {
    ProductBounds(c.s, Room(c));
    hide Product;
  }

  /** At half lightness, saturation 200% is malformed whatever the hue. */
  lemma OversaturatedIsMalformed(h: real)
    ensures !IsHexColour(HslToHex(Some(HslText(h, 200.0, 50.0))))
  {
    HslToHexIsWellFormedIff(Some(HslText(h, 200.0, 50.0)));
    hide HslToHex;
    var c := HslOf(HslText(h, 200.0, 50.0));
    assert Chroma(c) == 1.0;
  }

  /** Every hex colour, sent through the stored text and back, differs by at most 5 in each channel. */
  lemma HexSurvivesWithinFive(hex: string)
    requires IsHexColour(hex)
    ensures var back := HslToHex(Some(TextOf(RoundedHsl(ColourOf(hex)))));
            && IsHexColour(back)
            && -5 <= ColourOf(back).r - ColourOf(hex).r <= 5
            && -5 <= ColourOf(back).g - ColourOf(hex).g <= 5
            && -5 <= ColourOf(back).b - ColourOf(hex).b <= 5
  {
    hide RoundedHsl, RoundedRgb, HexOf;
    ColourSurvivesWithinFive(ColourOf(hex));
    HexTextSurvives(RoundedRgb(Unrounded(RoundedHsl(ColourOf(hex)))));
  }

  /** The bound is met: #02e4e6 is stored as 181 98% 45% and comes back as #02dfe3, five off in green. */
  lemma FiveIsReached()
    ensures IsHexColour("#02e4e6") && RoundedHsl(ColourOf("#02e4e6")) == Hsl360(181, 98, 45)
    ensures RoundedRgb(Unrounded(Hsl360(181, 98, 45))) == Rgb24(2, 223, 227)
    ensures ColourOf("#02e4e6").g - 223 == 5
  {
    var hex := "#02e4e6";
    assert hex[1] == '0' && hex[2] == '2' && hex[3] == 'e' && hex[4] == '4' && hex[5] == 'e' && hex[6] == '6';
    assert ColourOf(hex) == Rgb24(2, 228, 230);
    var c := Fraction(Rgb24(2, 228, 230));
    assert Top(c) == 230.0 / 255.0 && Bottom(c) == 2.0 / 255.0;
    assert Sixths(c) == (2.0 / 255.0 - 228.0 / 255.0) / (228.0 / 255.0) + 4.0;
    var x := Unrounded(Hsl360(181, 98, 45));
    WavesAreRight(x.h * 12.0);
    assert Chroma(x) == 0.441;
  }
}
