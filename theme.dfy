/** src/lib/theme.ts: the image-derived colour theme.

    An uploaded image is scaled down to fit 1600x900, drawn into a 100x100 grid,
    and its pixels are sorted by hue into twelve 30-degree buckets. The fullest
    bucket (the lowest-numbered one on a tie) gives the dominant hue and
    saturation, from which the accent colours and a fixed 13-step tonal ramp are
    synthesised through an HSL-to-RGB conversion. Colour arithmetic is over
    `real`; `Math.round(x)` is floor(x + 1/2). */
module Theme {
  import opened Opt
  import opened Strings

  newtype Byte = x: int | 0 <= x < 256

  function Min(a: real, b: real): real { if a <= b then a else b }
  function Max(a: real, b: real): real { if a >= b then a else b }
  function Abs(a: real): real { if a < 0.0 then -a else a }

  /** `Math.round` */
  function Round(x: real): int {
    (x + 0.5).Floor
  }

  lemma RoundWithin(x: real, lo: int, hi: int)
    requires lo as real <= x <= hi as real
    ensures lo <= Round(x) <= hi
  {
  }

  /** 0 <= a*b <= a when a >= 0 and b lies in [0, 1]. */
  lemma ScaleDown(a: real, b: real)
    requires 0.0 <= a && 0.0 <= b <= 1.0
    ensures 0.0 <= a * b <= a
  {
    MulNonneg(a, b);
    MulNonneg(a, 1.0 - b);
    assert a * b + a * (1.0 - b) == a;
  }

  lemma MulNonneg(x: real, y: real)
    requires 0.0 <= x && 0.0 <= y
    ensures 0.0 <= x * y
  {
  }

  // ---------------------------------------------------------------------
  // Colours
  // ---------------------------------------------------------------------

  datatype Rgb = Rgb(r: int, g: int, b: int)

  predicate ValidRgb(c: Rgb) {
    0 <= c.r <= 255 && 0 <= c.g <= 255 && 0 <= c.b <= 255
  }

  /** `rgbStr`: the three channels separated by single spaces. */
  function RgbStr(c: Rgb): string {
    IntToString(c.r) + " " + IntToString(c.g) + " " + IntToString(c.b)
  }

  /** Reads back an "r g b" string. */
  function ParseRgb(s: string): Option<Rgb> {
    var parts := Split(s, ' ');
    if |parts| != 3 then None
    else
      match (ParseNat(parts[0]), ParseNat(parts[1]), ParseNat(parts[2]))
      case (Some(r), Some(g), Some(b)) => Some(Rgb(r, g, b))
      case _ => None
  }

  lemma DigitsHaveNoSpace(n: nat)
    ensures forall i :: 0 <= i < |NatToString(n)| ==> NatToString(n)[i] != ' '
  {
  }

  /** `rgbStr` loses nothing: a colour with non-negative channels is read back exactly. */
  lemma RgbStrRoundTrip(c: Rgb)
    requires c.r >= 0 && c.g >= 0 && c.b >= 0
    ensures ParseRgb(RgbStr(c)) == Some(c)
  {
    var r, g, b := NatToString(c.r), NatToString(c.g), NatToString(c.b);
    DigitsHaveNoSpace(c.r);
    DigitsHaveNoSpace(c.g);
    DigitsHaveNoSpace(c.b);
    assert RgbStr(c) == r + [' '] + (g + [' '] + b);
    SplitAtFirst(r, ' ', g + [' '] + b);
    SplitAtFirst(g, ' ', b);
    SplitNoSeparator(b, ' ');
    NatToStringRoundTrip(c.r);
    NatToStringRoundTrip(c.g);
    NatToStringRoundTrip(c.b);
  }

  /** The strings a theme stores for a colour: an in-range "r g b" triple. */
  predicate ValidRgbStr(s: string) {
    ParseRgb(s).Some? && ValidRgb(ParseRgb(s).value)
  }

  lemma ValidRgbStrOf(c: Rgb)
    requires ValidRgb(c)
    ensures ValidRgbStr(RgbStr(c))
  {
    RgbStrRoundTrip(c);
  }

  // ---------------------------------------------------------------------
  // hslToRgb
  // ---------------------------------------------------------------------

  /** JavaScript's `x % 360` on a double: the remainder of a truncating division. */
  function Trunc(x: real): int {
    if x >= 0.0 then x.Floor else -((-x).Floor)
  }

  function FMod360(x: real): (r: real)
    ensures -360.0 < r < 360.0
  {
    x - 360.0 * (Trunc(x / 360.0) as real)
  }

  /** `(((h % 360) + 360) % 360) / 360`: the hue as a fraction of a turn. */
  function HueTurns(h: real): (t: real)
    ensures 0.0 <= t < 1.0
  {
    var a := FMod360(h);
    assert 0.0 < a + 360.0;
    FMod360(a + 360.0) / 360.0
  }

  /** The wrap only subtracts whole turns: 360*HueTurns(h) = h - 360k. */
  lemma HueTurnsWhole(h: real)
    ensures var k := Trunc(h / 360.0) + Trunc((FMod360(h) + 360.0) / 360.0) - 1;
            HueTurns(h) * 360.0 == h - 360.0 * (k as real)
  {
  }

  /** Two angles in [0, 360) that differ by whole turns are equal. */
  lemma SameTurn(x: real, y: real, k: int)
    requires 0.0 <= x < 360.0 && 0.0 <= y < 360.0
    requires x - y == 360.0 * (k as real)
    ensures x == y
  {
  }

  /** A hue already in [0, 360) is left as it is. */
  lemma HueTurnsInRange(h: real)
    requires 0.0 <= h < 360.0
    ensures HueTurns(h) == h / 360.0
  {
    HueTurnsWhole(h);
    var k := Trunc(h / 360.0) + Trunc((FMod360(h) + 360.0) / 360.0) - 1;
    SameTurn(HueTurns(h) * 360.0, h, -k);
  }

  /** One more turn of hue gives the same fraction. */
  lemma HueTurnsPeriodic(h: real)
    ensures HueTurns(h + 360.0) == HueTurns(h)
  {
    HueTurnsWhole(h);
    HueTurnsWhole(h + 360.0);
    var k := Trunc(h / 360.0) + Trunc((FMod360(h) + 360.0) / 360.0) - 1;
    var k' := Trunc((h + 360.0) / 360.0) + Trunc((FMod360(h + 360.0) + 360.0) / 360.0) - 1;
    SameTurn(HueTurns(h + 360.0) * 360.0, HueTurns(h) * 360.0, k - k' + 1);
  }

  /** `Math.max(0, Math.min(100, x))` */
  function Clamp100(x: real): (r: real)
    ensures 0.0 <= r <= 100.0
    ensures 0.0 <= x <= 100.0 ==> r == x
    ensures x < 0.0 ==> r == 0.0
    ensures x > 100.0 ==> r == 100.0
  {
    Max(0.0, Min(100.0, x))
  }

  /** `if (t < 0) t += 1; if (t > 1) t -= 1;` */
  function WrapTurn(t: real): (u: real)
    ensures -1.0 <= t <= 2.0 ==> 0.0 <= u <= 1.0
  {
    var t1 := if t < 0.0 then t + 1.0 else t;
    if t1 > 1.0 then t1 - 1.0 else t1
  }

  /** `p + (q - p) * b` */
  function Lerp(p: real, q: real, b: real): real {
    p + (q - p) * b
  }

  /** `hue2rgb(p, q, t)`: one channel, interpolated between p and q by the
      position of t around the colour wheel. */
  function Hue2Rgb(p: real, q: real, t: real): real {
    var u := WrapTurn(t);
    if u < 1.0 / 6.0 then Lerp(p, q, 6.0 * u)
    else if u < 1.0 / 2.0 then q
    else if u < 2.0 / 3.0 then Lerp(p, q, (2.0 / 3.0 - u) * 6.0)
    else p
  }

  /** A fraction b in [0, 1] of the way from p to q lies between them. */
  lemma Interpolated(p: real, q: real, b: real)
    requires p <= q && 0.0 <= b <= 1.0
    ensures p <= Lerp(p, q, b) <= q
  {
    var d := q - p;
    MulNonneg(d, b);
    MulNonneg(d, 1.0 - b);
    assert d * b + d * (1.0 - b) == d;
  }

  /** For the arguments `hslToRgb` passes, a channel stays between p and q. */
  lemma Hue2RgbBetween(p: real, q: real, t: real)
    requires 0.0 <= p <= q && -1.0 <= t <= 2.0
    ensures p <= Hue2Rgb(p, q, t) <= q
  {
    var u := WrapTurn(t);
    if u < 1.0 / 6.0 {
      Interpolated(p, q, 6.0 * u);
    } else if 1.0 / 2.0 <= u < 2.0 / 3.0 {
      Interpolated(p, q, (2.0 / 3.0 - u) * 6.0);
    }
  }

  /** `l < 0.5 ? l * (1 + s) : l + s - l * s`, the upper interpolation end. */
  function UpperEnd(s: real, l: real): real {
    if l < 0.5 then l * (1.0 + s) else l + s - l * s
  }

  /** The two interpolation ends of `hslToRgb` lie in [0, 1], p below q. */
  lemma EndsInUnit(s: real, l: real)
    requires 0.0 <= s <= 1.0 && 0.0 <= l <= 1.0
    ensures 0.0 <= 2.0 * l - UpperEnd(s, l) <= UpperEnd(s, l) <= 1.0
  {
    if l < 0.5 {
      MulNonneg(l, s);
      MulNonneg(l, 1.0 - s);
      assert l * s + l * (1.0 - s) == l;
      assert UpperEnd(s, l) == l + l * s;
    } else {
      var d := 1.0 - l;
      MulNonneg(d, s);
      MulNonneg(d, 1.0 - s);
      assert d * s + d * (1.0 - s) == d;
      assert UpperEnd(s, l) == l + d * s;
    }
  }

  /** `Math.round(v * 255)` for a channel value v in [0, 1]. */
  function Channel(v: real): (c: int)
    ensures 0.0 <= v <= 1.0 ==> 0 <= c <= 255
  {
    Round(v * 255.0)
  }

  /** The conversion once the hue is a fraction t of a turn and s, l are in [0, 1]. */
  function HslUnit(t: real, s: real, l: real): (c: Rgb)
    requires 0.0 <= t < 1.0 && 0.0 <= s <= 1.0 && 0.0 <= l <= 1.0
    ensures ValidRgb(c)
  {
    if s == 0.0 then
      var v := Channel(l);
      Rgb(v, v, v)
    else
      var q := UpperEnd(s, l);
      var p := 2.0 * l - q;
      EndsInUnit(s, l);
      Hue2RgbBetween(p, q, t + 1.0 / 3.0);
      Hue2RgbBetween(p, q, t);
      Hue2RgbBetween(p, q, t - 1.0 / 3.0);
      Rgb(Channel(Hue2Rgb(p, q, t + 1.0 / 3.0)), Channel(Hue2Rgb(p, q, t)), Channel(Hue2Rgb(p, q, t - 1.0 / 3.0)))
  }

  /** `hslToRgb(h, s, l)`: hue wrapped into [0, 360), s and l clamped to [0, 100].
      Every channel is an integer in [0, 255]. */
  function HslToRgb(h: real, s: real, l: real): (c: Rgb)
    ensures ValidRgb(c)
  {
    HslUnit(HueTurns(h), Clamp100(s) / 100.0, Clamp100(l) / 100.0)
  }

  /** With no saturation the result is the gray (v, v, v), v = round(l/100 * 255). */
  lemma HslToRgbGray(h: real, s: real, l: real)
    requires s <= 0.0
    ensures var v := Round(Clamp100(l) / 100.0 * 255.0); HslToRgb(h, s, l) == Rgb(v, v, v)
  {
  }

  /** Hue is periodic: a whole turn more gives the same colour. */
  lemma HslToRgbPeriodic(h: real, s: real, l: real)
    ensures HslToRgb(h + 360.0, s, l) == HslToRgb(h, s, l)
  {
    HueTurnsPeriodic(h);
  }

  /** Saturation and lightness outside [0, 100] act as the nearest bound. */
  lemma HslToRgbClamps(h: real, s: real, l: real)
    ensures HslToRgb(h, s, l) == HslToRgb(h, Clamp100(s), Clamp100(l))
  {
    assert Clamp100(Clamp100(s)) == Clamp100(s);
    assert Clamp100(Clamp100(l)) == Clamp100(l);
  }

  /** Fully saturated mid-lightness red. */
  lemma HslToRgbPureRed()
    ensures HslToRgb(0.0, 100.0, 50.0) == Rgb(255, 0, 0)
  {
    HueTurnsInRange(0.0);
  }

  // ---------------------------------------------------------------------
  // Theme records, the default theme and the tonal ramp
  // ---------------------------------------------------------------------

  /** `ThemeData`; the palette keeps its slots in declaration order. */
  datatype ThemeData = ThemeData(
    bgImageDataUrl: Option<string>,
    accentRgb: string,
    accentLightRgb: string,
    palette: seq<(string, string)>)

  const SlotNames: seq<string> := [
    "midnight", "deep", "dark", "surface", "card", "elevated", "border",
    "border-light", "muted", "subtle", "text", "text-light", "light"]

  function PaletteNames(palette: seq<(string, string)>): (names: seq<string>)
    ensures |names| == |palette|
    ensures forall i :: 0 <= i < |palette| ==> names[i] == palette[i].0
  {
    seq(|palette|, i requires 0 <= i < |palette| => palette[i].0)
  }

  /** The shape every theme has: the 13 slots in order, every colour an in-range triple. */
  predicate WellFormed(t: ThemeData) {
    && PaletteNames(t.palette) == SlotNames
    && ValidRgbStr(t.accentRgb)
    && ValidRgbStr(t.accentLightRgb)
    && forall i :: 0 <= i < |t.palette| ==> ValidRgbStr(t.palette[i].1)
  }

  /** The colours of `getDefaultTheme()`: the teal accents and, slot by slot, the
      green-tinted ramp from midnight to light. */
  const DefaultAccent := Rgb(16, 185, 129)
  const DefaultAccentLight := Rgb(110, 231, 183)

  function DefaultSwatches(): (cs: seq<Rgb>)
    ensures |cs| == 13
  {
    [ Rgb(8, 15, 12), Rgb(12, 22, 18), Rgb(16, 29, 23), Rgb(24, 45, 35), Rgb(28, 51, 41),
      Rgb(34, 61, 48), Rgb(43, 77, 60), Rgb(58, 99, 80), Rgb(74, 115, 96), Rgb(106, 148, 128),
      Rgb(143, 181, 162), Rgb(188, 216, 202), Rgb(220, 238, 228) ]
  }

  /** `getDefaultTheme()` */
  function DefaultTheme(): (t: ThemeData)
    ensures t.bgImageDataUrl == None
    ensures PaletteNames(t.palette) == SlotNames
  {
    var cs := DefaultSwatches();
    ThemeData(
      None,
      RgbStr(DefaultAccent),
      RgbStr(DefaultAccentLight),
      seq(13, i requires 0 <= i < 13 => (SlotNames[i], RgbStr(cs[i]))))
  }

  /** The default accents render as the strings the stylesheet expects. */
  lemma DefaultAccentString()
    ensures DefaultTheme().accentRgb == "16 185 129"
  {
  }

  lemma DefaultAccentLightString()
    ensures DefaultTheme().accentLightRgb == "110 231 183"
  {
  }

  /** The default theme has no background image, reads back its teal accents and
      has the 13 slots with in-range colours. */
  lemma DefaultThemeWellFormed()
    ensures ParseRgb(DefaultTheme().accentRgb) == Some(DefaultAccent)
    ensures ParseRgb(DefaultTheme().accentLightRgb) == Some(DefaultAccentLight)
    ensures WellFormed(DefaultTheme())
  {
    var t := DefaultTheme();
    var cs := DefaultSwatches();
    RgbStrRoundTrip(DefaultAccent);
    RgbStrRoundTrip(DefaultAccentLight);
    forall i | 0 <= i < |t.palette| ensures ValidRgbStr(t.palette[i].1) {
      ValidRgbStrOf(cs[i]);
    }
  }

  /** One step of the tonal ramp: slot name, HSL lightness, and the factor that
      scales the capped base saturation. */
  datatype Slot = Slot(name: string, lightness: real, satScale: real)

  const Ramp: seq<Slot> := [
    Slot("midnight", 4.0, 1.0),
    Slot("deep", 6.0, 1.0),
    Slot("dark", 9.0, 0.9),
    Slot("surface", 14.0, 0.85),
    Slot("card", 16.0, 0.8),
    Slot("elevated", 19.0, 0.75),
    Slot("border", 24.0, 0.7),
    Slot("border-light", 31.0, 0.65),
    Slot("muted", 38.0, 0.55),
    Slot("subtle", 49.0, 0.55),
    Slot("text", 63.0, 0.5),
    Slot("text-light", 79.0, 0.4),
    Slot("light", 91.0, 0.3)]

  /** The ramp runs from lightness 4 to 91, strictly brighter at each step, with
      saturation factors in (0, 1] that never grow. */
  lemma RampShape()
    ensures |Ramp| == |SlotNames| == 13
    ensures forall i :: 0 <= i < 13 ==> Ramp[i].name == SlotNames[i]
    ensures Ramp[0].lightness == 4.0 && Ramp[12].lightness == 91.0
    ensures forall i, j :: 0 <= i < j < 13 ==> Ramp[i].lightness < Ramp[j].lightness
    ensures forall i, j :: 0 <= i < j < 13 ==> Ramp[j].satScale <= Ramp[i].satScale
    ensures forall i :: 0 <= i < 13 ==> 0.0 < Ramp[i].satScale <= 1.0
  {
  }

  /** The saturation of ramp slot i: `Math.min(sat, 30)` times the slot's factor. */
  function SlotSaturation(sat: real, i: nat): (s: real)
    requires i < 13
    ensures s <= 30.0
    ensures sat >= 0.0 ==> 0.0 <= s
  {
    var base := Min(sat, 30.0);
    if base >= 0.0 then ScaleDown(base, Ramp[i].satScale); base * Ramp[i].satScale
    else base * Ramp[i].satScale
  }

  /** `generatePaletteFromHue(hue, sat)` */
  function PaletteFromHue(hue: real, sat: real): (palette: seq<(string, string)>)
    ensures PaletteNames(palette) == SlotNames
    ensures forall i :: 0 <= i < 13 ==>
      palette[i].1 == RgbStr(HslToRgb(hue, SlotSaturation(sat, i), Ramp[i].lightness))
  {
    RampShape();
    seq(13, i requires 0 <= i < 13 =>
      (Ramp[i].name, RgbStr(HslToRgb(hue, SlotSaturation(sat, i), Ramp[i].lightness))))
  }

  /** `Math.min(saturation + 20, 80)` */
  function AccentSaturation(sat: real): (a: real)
    ensures a <= 80.0
    ensures a <= sat + 20.0
    ensures sat <= 60.0 ==> a == sat + 20.0
    ensures sat >= 60.0 ==> a == 80.0
  {
    Min(sat + 20.0, 80.0)
  }

  /** `Math.max(accentSat - 10, 30)`: taken from the boosted accent saturation,
      not from the dominant one, so it is max(min(sat + 10, 70), 30). */
  function AccentLightSaturation(sat: real): (a: real)
    ensures 30.0 <= a <= 70.0
    ensures a == Max(Min(sat + 10.0, 70.0), 30.0)
  {
    Max(AccentSaturation(sat) - 10.0, 30.0)
  }

  datatype HueSat = HueSat(hue: real, saturation: real)

  /** The theme `generateThemeFromImage` builds from the resized image's data URL
      and the dominant colour. */
  function ThemeFromColor(dataUrl: string, c: HueSat): (t: ThemeData)
    ensures t.bgImageDataUrl == Some(dataUrl)
    ensures PaletteNames(t.palette) == SlotNames
  {
    ThemeData(
      Some(dataUrl),
      RgbStr(HslToRgb(c.hue, AccentSaturation(c.saturation), 50.0)),
      RgbStr(HslToRgb(c.hue, AccentLightSaturation(c.saturation), 72.0)),
      PaletteFromHue(c.hue, c.saturation))
  }

  /** Every generated theme has the 13 slots and only in-range colours. */
  lemma GeneratedThemeWellFormed(dataUrl: string, c: HueSat)
    ensures WellFormed(ThemeFromColor(dataUrl, c))
  {
    var t := ThemeFromColor(dataUrl, c);
    ValidRgbStrOf(HslToRgb(c.hue, AccentSaturation(c.saturation), 50.0));
    ValidRgbStrOf(HslToRgb(c.hue, AccentLightSaturation(c.saturation), 72.0));
    forall i | 0 <= i < |t.palette| ensures ValidRgbStr(t.palette[i].1) {
      ValidRgbStrOf(HslToRgb(c.hue, SlotSaturation(c.saturation, i), Ramp[i].lightness));
    }
  }

  // ---------------------------------------------------------------------
  // extractDominantColor
  // ---------------------------------------------------------------------

  /** The canvas the image is drawn into for analysis is 100 x 100 RGBA. */
  const AnalysisSize := 100

  function Max3(a: real, b: real, c: real): real { Max(Max(a, b), c) }
  function Min3(a: real, b: real, c: real): real { Min(Min(a, b), c) }

  function Unit(x: Byte): real { x as real / 255.0 }

  /** `l = (max + min) / 2` of a pixel. */
  function Lightness(r: Byte, g: Byte, b: Byte): real {
    (Max3(Unit(r), Unit(g), Unit(b)) + Min3(Unit(r), Unit(g), Unit(b))) / 2.0
  }

  /** `d = max - min` of a pixel. */
  function Chroma(r: Byte, g: Byte, b: Byte): real {
    Max3(Unit(r), Unit(g), Unit(b)) - Min3(Unit(r), Unit(g), Unit(b))
  }

  /** Near-black, near-white and near-gray pixels say nothing about the hue. */
  predicate Skipped(r: Byte, g: Byte, b: Byte) {
    Lightness(r, g, b) < 0.08 || Lightness(r, g, b) > 0.92 || Chroma(r, g, b) < 0.08
  }

  /** The saturation denominator `1 - |2l - 1|`. */
  function SatDenominator(r: Byte, g: Byte, b: Byte): real {
    1.0 - Abs(2.0 * Lightness(r, g, b) - 1.0)
  }

  /** Hue (in turns) and saturation (in [0, 1]) of an accepted pixel. */
  datatype Sample = Sample(h: real, s: real)

  /** Multiplying by a positive d keeps the sign. */
  lemma MulSign(a: real, d: real)
    requires d > 0.0
    ensures a * d > 0.0 <==> a > 0.0
    ensures a * d >= 0.0 <==> a >= 0.0
  {
  }

  lemma QuotientInUnit(x: real, d: real)
    requires d > 0.0 && -d <= x <= d
    ensures -1.0 <= x / d <= 1.0
    ensures x < 0.0 ==> x / d < 0.0
    ensures x >= 0.0 ==> x / d >= 0.0
    ensures x > 0.0 ==> x / d > 0.0
  {
    var q := x / d;
    assert q * d == x;
    MulSign(q, d);
    MulSign(1.0 - q, d);
    assert (1.0 - q) * d == d - x;
    MulSign(q + 1.0, d);
    assert (q + 1.0) * d == x + d;
  }

  /** The pixel's hue fraction by the six-piece hexagon formula (red, then green,
      then blue as the maximum), in [0, 1). */
  function HueOf(r: real, g: real, b: real): (h: real)
    requires 0.0 <= r <= 1.0 && 0.0 <= g <= 1.0 && 0.0 <= b <= 1.0
    ensures 0.0 <= h < 1.0
  {
    var mx, mn := Max3(r, g, b), Min3(r, g, b);
    var d := mx - mn;
    if d == 0.0 then 0.0
    else if mx == r then
      QuotientInUnit(g - b, d);
      ((g - b) / d + (if g < b then 6.0 else 0.0)) / 6.0
    else if mx == g then
      QuotientInUnit(b - r, d);
      ((b - r) / d + 2.0) / 6.0
    else
      QuotientInUnit(r - g, d);
      ((r - g) / d + 4.0) / 6.0
  }

  /** One pixel of the loop: `None` when it is skipped, else its hue and saturation. */
  function PixelSample(r: Byte, g: Byte, b: Byte): (o: Option<Sample>)
    ensures o.None? <==> Skipped(r, g, b)
    ensures o.Some? ==> SatDenominator(r, g, b) > 0.0
    ensures o.Some? ==> 0.0 <= o.value.h < 1.0 && 0.0 < o.value.s <= 1.0
  {
    if Skipped(r, g, b) then None
    else
      var d, den := Chroma(r, g, b), SatDenominator(r, g, b);
      assert 0.0 < d <= den;
      QuotientInUnit(d, den);
      Some(Sample(HueOf(Unit(r), Unit(g), Unit(b)), d / den))
  }

  /** A gray pixel has no chroma and is always skipped. */
  lemma GrayPixelSkipped(v: Byte)
    ensures Chroma(v, v, v) == 0.0
    ensures PixelSample(v, v, v) == None
  {
  }

  /** `Math.min(Math.floor(h * 12), 11)`: the bucket of a hue; bucket i holds the
      hues in [30i, 30i + 30) degrees. */
  function BucketIndex(h: real): (i: int)
    ensures 0.0 <= h < 1.0 ==> 0 <= i <= 11
    ensures 0.0 <= h < 1.0 ==> 30.0 * (i as real) <= h * 360.0 < 30.0 * (i as real) + 30.0
  {
    var f := (h * 12.0).Floor;
    if f <= 11 then f else 11
  }

  /** Pixel count and running sums of h*360 and s*100 of one bucket. */
  datatype Bucket = Bucket(count: nat, totalH: real, totalS: real)

  function NoBuckets(): seq<Bucket> {
    seq(12, i => Bucket(0, 0.0, 0.0))
  }

  /** `count++; totalH += h * 360; totalS += s * 100` on one bucket. */
  function Added(b: Bucket, smp: Sample): Bucket {
    Bucket(b.count + 1, b.totalH + smp.h * 360.0, b.totalS + smp.s * 100.0)
  }

  /** A sample lands in the bucket of its hue. */
  function AddSample(buckets: seq<Bucket>, smp: Sample): (r: seq<Bucket>)
    requires |buckets| == 12 && 0.0 <= smp.h < 1.0
    ensures |r| == 12
  {
    var i := BucketIndex(smp.h);
    buckets[i := Added(buckets[i], smp)]
  }

  function PixelAt(data: seq<Byte>, k: nat): Option<Sample>
    requires 4 * k + 4 <= |data|
  {
    PixelSample(data[4 * k], data[4 * k + 1], data[4 * k + 2])
  }

  /** The buckets after the loop has seen the first n pixels of the RGBA buffer. */
  function Histogram(data: seq<Byte>, n: nat): (buckets: seq<Bucket>)
    requires 4 * n <= |data|
    ensures |buckets| == 12
  {
    if n == 0 then NoBuckets()
    else
      var prev := Histogram(data, n - 1);
      var o := PixelAt(data, n - 1);
      if o.Some? then AddSample(prev, o.value) else prev
  }

  /** How many of the first n pixels pass the filter. */
  function AcceptedCount(data: seq<Byte>, n: nat): nat
    requires 4 * n <= |data|
  {
    if n == 0 then 0 else AcceptedCount(data, n - 1) + (if PixelAt(data, n - 1).Some? then 1 else 0)
  }

  function CountSum(buckets: seq<Bucket>): nat {
    if buckets == [] then 0 else CountSum(buckets[..|buckets| - 1]) + buckets[|buckets| - 1].count
  }

  lemma {:induction false} CountSumUpdate(buckets: seq<Bucket>, i: nat, b: Bucket)
    requires i < |buckets|
    ensures CountSum(buckets[i := b]) + buckets[i].count == CountSum(buckets) + b.count
    decreases |buckets|
  {
    var n := |buckets| - 1;
    if i < n {
      CountSumUpdate(buckets[..n], i, b);
      assert buckets[i := b][..n] == buckets[..n][i := b];
    } else {
      assert buckets[i := b][..n] == buckets[..n];
    }
  }

  lemma {:induction false} CountSumNoBuckets(k: nat)
    requires k <= 12
    ensures CountSum(NoBuckets()[..k]) == 0
  {
    if k > 0 {
      CountSumNoBuckets(k - 1);
      assert NoBuckets()[..k][..k - 1] == NoBuckets()[..k - 1];
    }
  }

  /** The bucket counts always add up to the number of accepted pixels. */
  lemma {:induction false} HistogramCountsAccepted(data: seq<Byte>, n: nat)
    requires 4 * n <= |data|
    ensures CountSum(Histogram(data, n)) == AcceptedCount(data, n)
  {
    if n == 0 {
      CountSumNoBuckets(12);
      assert NoBuckets()[..12] == NoBuckets();
    } else {
      HistogramCountsAccepted(data, n - 1);
      match PixelAt(data, n - 1)
      case None =>
      case Some(smp) =>
        var prev := Histogram(data, n - 1);
        var i := BucketIndex(smp.h);
        CountSumUpdate(prev, i, Added(prev[i], smp));
    }
  }

  /** What every bucket i holds: hue sums within [30i, 30i + 30) per pixel and
      saturation sums within (0, 100] per pixel; an empty bucket holds zeros. */
  ghost predicate BucketInvariant(b: Bucket, i: int) {
    var c := b.count as real;
    && (b.count == 0 ==> b.totalH == 0.0 && b.totalS == 0.0)
    && 30.0 * (i as real) * c <= b.totalH
    && (b.count > 0 ==> b.totalH < (30.0 * (i as real) + 30.0) * c)
    && (b.count > 0 ==> 0.0 < b.totalS <= 100.0 * c)
  }

  ghost predicate BucketsInvariant(buckets: seq<Bucket>) {
    |buckets| == 12 && forall i :: 0 <= i < 12 ==> BucketInvariant(buckets[i], i)
  }

  lemma AddSampleKeepsInvariant(buckets: seq<Bucket>, smp: Sample)
    requires BucketsInvariant(buckets)
    requires 0.0 <= smp.h < 1.0 && 0.0 < smp.s <= 1.0
    ensures BucketsInvariant(AddSample(buckets, smp))
  {
    var i := BucketIndex(smp.h);
    var b := buckets[i];
    var c := b.count as real;
    var x := 30.0 * (i as real);
    assert x * (c + 1.0) == x * c + x;
    assert (x + 30.0) * (c + 1.0) == (x + 30.0) * c + (x + 30.0);
    assert 100.0 * (c + 1.0) == 100.0 * c + 100.0;
    assert BucketInvariant(AddSample(buckets, smp)[i], i);
  }

  lemma {:induction false} HistogramInvariant(data: seq<Byte>, n: nat)
    requires 4 * n <= |data|
    ensures BucketsInvariant(Histogram(data, n))
  {
    if n > 0 {
      HistogramInvariant(data, n - 1);
      match PixelAt(data, n - 1)
      case None =>
      case Some(smp) => AddSampleKeepsInvariant(Histogram(data, n - 1), smp);
    }
  }

  /** k is the first index of a bucket with the largest count. */
  ghost predicate IsFirstMax(buckets: seq<Bucket>, k: int) {
    && 0 <= k < |buckets|
    && (forall j :: 0 <= j < |buckets| ==> buckets[j].count <= buckets[k].count)
    && (forall j :: 0 <= j < k ==> buckets[j].count < buckets[k].count)
  }

  lemma FirstMaxUnique(buckets: seq<Bucket>, a: int, b: int)
    requires IsFirstMax(buckets, a) && IsFirstMax(buckets, b)
    ensures a == b
  {
    assert buckets[a].count == buckets[b].count;
  }

  /** The argmax of the strict `>` scan from index 0. */
  function FirstMaxIndex(buckets: seq<Bucket>): (k: nat)
    requires |buckets| > 0
    ensures IsFirstMax(buckets, k)
    decreases |buckets|
  {
    if |buckets| == 1 then 0
    else
      var init := buckets[..|buckets| - 1];
      var k := FirstMaxIndex(init);
      assert forall j :: 0 <= j < |init| ==> init[j] == buckets[j];
      if buckets[|buckets| - 1].count > buckets[k].count then |buckets| - 1 else k
  }

  /** On a tie the lower-numbered bucket wins: no bucket after the choice is as full,
      none before it is. */
  lemma TieGoesToLowerBucket(buckets: seq<Bucket>, i: nat, j: nat)
    requires i < j < |buckets|
    requires buckets[i].count == buckets[j].count
    ensures FirstMaxIndex(buckets) != j
  {
  }

  /** The hue and saturation used when no pixel passed the filter. */
  const Fallback := HueSat(150.0, 40.0)

  /** The chosen bucket's mean hue and saturation, or the fallback when it is empty. */
  function DominantOf(buckets: seq<Bucket>): HueSat
    requires |buckets| == 12
  {
    var b := buckets[FirstMaxIndex(buckets)];
    if b.count == 0 then Fallback else HueSat(b.totalH / b.count as real, b.totalS / b.count as real)
  }

  /** The dominant colour of an RGBA buffer (four bytes per pixel, alpha unused). */
  function DominantColor(data: seq<Byte>): HueSat
    requires |data| % 4 == 0
  {
    DominantOf(Histogram(data, |data| / 4))
  }

  /** The chosen bucket is empty exactly when no pixel passed the filter. */
  lemma FallbackIffNothingAccepted(data: seq<Byte>)
    requires |data| % 4 == 0
    ensures var h := Histogram(data, |data| / 4);
            h[FirstMaxIndex(h)].count == 0 <==> AcceptedCount(data, |data| / 4) == 0
  {
    var h := Histogram(data, |data| / 4);
    var k := FirstMaxIndex(h);
    HistogramCountsAccepted(data, |data| / 4);
    if h[k].count == 0 {
      assert forall j :: 0 <= j < 12 ==> h[j].count == 0;
      AllEmptyCountSumZero(h, 12);
      assert h[..12] == h;
    } else {
      CountSumAtLeast(h, k);
    }
  }

  lemma {:induction false} AllEmptyCountSumZero(buckets: seq<Bucket>, n: nat)
    requires n <= |buckets|
    requires forall j :: 0 <= j < n ==> buckets[j].count == 0
    ensures CountSum(buckets[..n]) == 0
  {
    if n > 0 {
      AllEmptyCountSumZero(buckets, n - 1);
      assert buckets[..n][..n - 1] == buckets[..n - 1];
    }
  }

  lemma {:induction false} CountSumAtLeast(buckets: seq<Bucket>, k: nat)
    requires k < |buckets|
    ensures buckets[k].count <= CountSum(buckets)
    decreases |buckets|
  {
    if k < |buckets| - 1 {
      CountSumAtLeast(buckets[..|buckets| - 1], k);
    }
  }

  /** The dominant hue lies in the chosen bucket's 30-degree range, so in [0, 360),
      and the dominant saturation lies in (0, 100]. */
  lemma DominantInChosenBucket(data: seq<Byte>)
    requires |data| % 4 == 0
    ensures var h := Histogram(data, |data| / 4);
            var k := FirstMaxIndex(h);
            h[k].count > 0 ==> InBucket(DominantColor(data), k)
    ensures 0.0 <= DominantColor(data).hue < 360.0
    ensures 0.0 < DominantColor(data).saturation <= 100.0
  {
    HistogramInvariant(data, |data| / 4);
    DominantOfBounds(Histogram(data, |data| / 4));
  }

  /** The hue lies in bucket k's 30-degree range and the saturation in (0, 100]. */
  predicate InBucket(c: HueSat, k: int) {
    30.0 * (k as real) <= c.hue < 30.0 * (k as real) + 30.0 && 0.0 < c.saturation <= 100.0
  }

  lemma DominantOfBounds(buckets: seq<Bucket>)
    requires BucketsInvariant(buckets)
    ensures buckets[FirstMaxIndex(buckets)].count > 0 ==> InBucket(DominantOf(buckets), FirstMaxIndex(buckets))
    ensures 0.0 <= DominantOf(buckets).hue < 360.0
    ensures 0.0 < DominantOf(buckets).saturation <= 100.0
  {
    var k := FirstMaxIndex(buckets);
    var b := buckets[k];
    if b.count > 0 {
      assert BucketInvariant(b, k);
      BucketMean(b, k);
    }
  }

  /** The mean of a non-empty bucket lies in the bucket's range. */
  lemma BucketMean(b: Bucket, k: int)
    requires 0 <= k < 12 && b.count > 0
    requires BucketInvariant(b, k)
    ensures InBucket(HueSat(b.totalH / b.count as real, b.totalS / b.count as real), k)
  {
    MeanWithin(b.totalH, b.count, 30.0 * (k as real), 30.0 * (k as real) + 30.0);
    MeanWithinUpper(b.totalS, b.count, 0.0, 100.0);
  }

  /** The mean of n values summing to total lies in [lo, hi) when total does in [n*lo, n*hi). */
  lemma MeanWithin(total: real, n: nat, lo: real, hi: real)
    requires n > 0
    requires lo * (n as real) <= total < hi * (n as real)
    ensures lo <= total / n as real < hi
  {
    var c := n as real;
    var m := total / c;
    assert m * c == total;
    MulSign(m - lo, c);
    assert (m - lo) * c == total - lo * c;
    MulSign(hi - m, c);
    assert (hi - m) * c == hi * c - total;
  }

  /** The same for the half-open interval (lo, hi]. */
  lemma MeanWithinUpper(total: real, n: nat, lo: real, hi: real)
    requires n > 0
    requires lo * (n as real) < total <= hi * (n as real)
    ensures lo < total / n as real <= hi
  {
    var c := n as real;
    var m := total / c;
    assert m * c == total;
    MulSign(m - lo, c);
    assert (m - lo) * c == total - lo * c;
    MulSign(hi - m, c);
    assert (hi - m) * c == hi * c - total;
  }

  /** A uniformly gray image (or any all-gray buffer) yields hue 150, saturation 40. */
  lemma GrayImageFallsBack(data: seq<Byte>)
    requires |data| % 4 == 0
    requires forall k :: 0 <= k < |data| / 4 ==> data[4 * k] == data[4 * k + 1] == data[4 * k + 2]
    ensures DominantColor(data) == Fallback
  {
    var n := |data| / 4;
    NoneAccepted(data, n);
    FallbackIffNothingAccepted(data);
  }

  lemma {:induction false} NoneAccepted(data: seq<Byte>, n: nat)
    requires 4 * n <= |data|
    requires forall k :: 0 <= k < n ==> data[4 * k] == data[4 * k + 1] == data[4 * k + 2]
    ensures AcceptedCount(data, n) == 0
  {
    if n > 0 {
      NoneAccepted(data, n - 1);
      GrayPixelSkipped(data[4 * (n - 1)]);
    }
  }

  /** The pure-red pixel: lightness 1/2, chroma 1, so saturation 1 and hue 0. */
  lemma RedPixel()
    ensures PixelSample(255, 0, 0) == Some(Sample(0.0, 1.0))
  {
    assert Lightness(255, 0, 0) == 0.5;
    assert Chroma(255, 0, 0) == 1.0;
    assert SatDenominator(255, 0, 0) == 1.0;
  }

  lemma {:induction false} RedHistogram(data: seq<Byte>, n: nat)
    requires 4 * n <= |data|
    requires forall k :: 0 <= k < n ==> data[4 * k] == 255 && data[4 * k + 1] == 0 && data[4 * k + 2] == 0
    ensures Histogram(data, n) == NoBuckets()[0 := Bucket(n, 0.0, 100.0 * (n as real))]
  {
    if n > 0 {
      RedHistogram(data, n - 1);
      RedPixel();
      assert BucketIndex(0.0) == 0;
    }
  }

  /** A pure red image gives hue 0 and saturation 100. */
  lemma RedImage(data: seq<Byte>)
    requires |data| % 4 == 0 && |data| > 0
    requires forall k :: 0 <= k < |data| / 4 ==> data[4 * k] == 255 && data[4 * k + 1] == 0 && data[4 * k + 2] == 0
    ensures DominantColor(data) == HueSat(0.0, 100.0)
  {
    RedHistogram(data, |data| / 4);
    OnlyFirstBucket(|data| / 4);
  }

  /** When only bucket 0 holds pixels, all at saturation 100%, it gives hue 0, saturation 100. */
  lemma OnlyFirstBucket(n: nat)
    requires n > 0
    ensures DominantOf(NoBuckets()[0 := Bucket(n, 0.0, 100.0 * (n as real))]) == HueSat(0.0, 100.0)
  {
    var h := NoBuckets()[0 := Bucket(n, 0.0, 100.0 * (n as real))];
    assert IsFirstMax(h, 0);
    FirstMaxUnique(h, 0, FirstMaxIndex(h));
    assert (100.0 * (n as real)) / (n as real) == 100.0;
  }

  /** The bucket loop of `extractDominantColor`: one pass over the RGBA buffer,
      four bytes per pixel, filling twelve fresh buckets. */
  method FillBuckets(data: seq<Byte>) returns (buckets: array<Bucket>)
    requires |data| % 4 == 0
    ensures fresh(buckets)
    ensures buckets[..] == Histogram(data, |data| / 4)
  {
    buckets := new Bucket[12](_ => Bucket(0, 0.0, 0.0));
    assert buckets[..] == NoBuckets();
    ghost var n := |data| / 4;
    ghost var k := 0;
    var i := 0;
    while i < |data|
      invariant 0 <= k <= n && i == 4 * k
      invariant buckets.Length == 12
      invariant buckets[..] == Histogram(data, k)
    {
      var sample := PixelSample(data[i], data[i + 1], data[i + 2]);
      assert sample == PixelAt(data, k);
      if sample.Some? {
        var idx := BucketIndex(sample.value.h);
        buckets[idx] := Added(buckets[idx], sample.value);
      }
      i := i + 4;
      k := k + 1;
    }
  }

  /** The argmax loop: a strict `>` scan from bucket 0, so the first fullest bucket wins. */
  method FullestBucket(buckets: array<Bucket>) returns (best: nat)
    requires buckets.Length == 12
    ensures best == FirstMaxIndex(buckets[..])
  {
    best := 0;
    for j := 1 to 12
      invariant 0 <= best < j
      invariant IsFirstMax(buckets[..j], best)
    {
      if buckets[j].count > buckets[best].count {
        best := j;
      }
    }
    assert buckets[..12] == buckets[..];
    FirstMaxUnique(buckets[..], best, FirstMaxIndex(buckets[..]));
  }

  /** `extractDominantColor` from the pixel buffer `getImageData` returns: the
      bucket loop, then the argmax scan, then the mean of the chosen bucket. */
  method ExtractDominantColor(data: seq<Byte>) returns (c: HueSat)
    requires |data| % 4 == 0
    ensures c == DominantColor(data)
  {
    var buckets := FillBuckets(data);
    var best := FullestBucket(buckets);
    var b := buckets[best];
    if b.count == 0 {
      return Fallback;
    }
    return HueSat(b.totalH / b.count as real, b.totalS / b.count as real);
  }

  // ---------------------------------------------------------------------
  // resizeImage and generateThemeFromImage
  // ---------------------------------------------------------------------

  const MaxWidth := 1600
  const MaxHeight := 900

  /** `Math.min(maxW / width, maxH / height)` */
  function ScaleRatio(width: int, height: int, maxW: int, maxH: int): real
    requires width > 0 && height > 0
  {
    Min(maxW as real / width as real, maxH as real / height as real)
  }

  lemma ScaledFits(x: int, ratio: real, bound: int)
    requires x > 0 && 0.0 <= ratio <= bound as real / x as real
    ensures 0 <= Round(x as real * ratio) <= bound
  {
    var q := bound as real / x as real;
    assert q * x as real == bound as real;
    assert x as real * ratio <= x as real * q;
  }

  lemma ScaledShrinks(x: int, ratio: real)
    requires x > 0 && 0.0 <= ratio < 1.0
    ensures Round(x as real * ratio) <= x
  {
    assert x as real * ratio <= x as real * 1.0;
  }

  /** The dimension arithmetic of `resizeImage`: an image within both bounds keeps
      its size; otherwise both sides are scaled by the smaller ratio and rounded,
      which fits the bounds and never enlarges. */
  method ResizeDimensions(width: int, height: int, maxW: int, maxH: int) returns (w: int, h: int)
    requires width > 0 && height > 0 && maxW > 0 && maxH > 0
    ensures width <= maxW && height <= maxH ==> w == width && h == height
    ensures !(width <= maxW && height <= maxH) ==>
      var ratio := ScaleRatio(width, height, maxW, maxH);
      w == Round(width as real * ratio) && h == Round(height as real * ratio)
    ensures 0 <= w <= maxW && 0 <= h <= maxH
    ensures w <= width && h <= height
  {
    w, h := width, height;
    if width > maxW || height > maxH {
      var ratio := ScaleRatio(width, height, maxW, maxH);
      ScaledFits(width, ratio, maxW);
      ScaledFits(height, ratio, maxH);
      assert ratio < 1.0 by {
        if width > maxW {
          assert maxW as real / width as real < 1.0;
        } else {
          assert maxH as real / height as real < 1.0;
        }
      }
      ScaledShrinks(width, ratio);
      ScaledShrinks(height, ratio);
      w := Round(width as real * ratio);
      h := Round(height as real * ratio);
    }
  }

  /** A 3200 x 1800 image is halved to exactly fit 1600 x 900. */
  lemma HalvedToFit()
    ensures ScaleRatio(3200, 1800, MaxWidth, MaxHeight) == 0.5
    ensures Round(3200.0 * 0.5) == 1600 && Round(1800.0 * 0.5) == 900
  {
  }

  /** `generateThemeFromImage`, given the resized image's data URL and the pixels
      of its 100 x 100 rendering (decoding and drawing are the browser's). */
  method GenerateThemeFromImage(dataUrl: string, pixels: seq<Byte>) returns (t: ThemeData)
    requires |pixels| == 4 * AnalysisSize * AnalysisSize
    ensures t == ThemeFromColor(dataUrl, DominantColor(pixels))
    ensures WellFormed(t)
  {
    var c := ExtractDominantColor(pixels);
    t := ThemeFromColor(dataUrl, c);
    GeneratedThemeWellFormed(dataUrl, c);
  }
}
