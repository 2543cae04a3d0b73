/** Community colours (dashboard/src/graphColors.ts), with exact rationals in place of floating point. */
module GraphColors {
  import opened Wrappers

  datatype Rgb = Rgb(r: int, g: int, b: int)

  function Abs(x: real): real {
    if x < 0.0 then -x else x
  }

  /** The remainder of a non-negative number by two, as `%` computes it. */
  function Mod2(x: real): real {
    x - 2.0 * (x / 2.0).Floor as real
  }

  /** `Math.round`. */
  function Round(x: real): int {
    (x + 0.5).Floor
  }

  /** The full, the varying and the empty channel at this hue, each raised by `m` and turned into a byte. */
  function Wheel(h: real, c: real, x: real, m: real): Rgb {
    var (r, g, b) :=
      if h < 60.0 then (c, x, 0.0)
      else if h < 120.0 then (x, c, 0.0)
      else if h < 180.0 then (0.0, c, x)
      else if h < 240.0 then (0.0, x, c)
      else if h < 300.0 then (x, 0.0, c)
      else (c, 0.0, x);
    Rgb(Round((r + m) * 255.0), Round((g + m) * 255.0), Round((b + m) * 255.0))
  }

  function Chroma(s: real, l: real): real {
    (1.0 - Abs(2.0 * (l / 100.0) - 1.0)) * (s / 100.0)
  }

  /** How far the varying channel is up at this hue, between 0 and 1. */
  function Slope(h: real): real {
    1.0 - Abs(Mod2(h / 60.0) - 1.0)
  }

  /** The channels of a colour given by hue, saturation and lightness. */
  function HslToRgb(h: real, s: real, l: real): Rgb {
    var c := Chroma(s, l);
    Wheel(h, c, c * Slope(h), l / 100.0 - c / 2.0)
  }

  function HexDigit(n: nat): char
    requires n < 16
  {
    "0123456789abcdef"[n]
  }

  /** `n.toString(16)`. */
  function HexString(n: nat): string {
    if n < 16 then [HexDigit(n)] else HexString(n / 16) + [HexDigit(n % 16)]
  }

  /** `padStart(2, "0")`. */
  function Padded(s: string): string {
    if |s| == 0 then "00" else if |s| == 1 then "0" + s else s
  }

  function RgbToHex(c: Rgb): string
    requires c.r >= 0 && c.g >= 0 && c.b >= 0
  {
    "#" + Padded(HexString(c.r)) + Padded(HexString(c.g)) + Padded(HexString(c.b))
  }

  function Hue(index: nat): int {
    (index * 47 + 210) % 360
  }

  function CommunityRgb(index: nat): Rgb {
    HslToRgb(Hue(index) as real, 58.0, 52.0)
  }

  function CommunityColorHex(index: nat): string {
    CommunityInBytes(index);
    RgbToHex(CommunityRgb(index))
  }

  // ---------------------------------------------------------------- reading a colour back

  function HexValue(c: char): Option<int> {
    if '0' <= c <= '9' then Some(c as int - '0' as int)
    else if 'a' <= c <= 'f' then Some(c as int - 'a' as int + 10)
    else if 'A' <= c <= 'F' then Some(c as int - 'A' as int + 10)
    else None
  }

  /** `parseInt(_, 16)` of two digits; absent where it would not be a number or would stop early. */
  function HexByte(s: string): Option<int> {
    if |s| != 2 || HexValue(s[0]).None? || HexValue(s[1]).None? then None
    else Some(HexValue(s[0]).value * 16 + HexValue(s[1]).value)
  }

  /** The `#` branch of `parseRgbColor`: six digits, or three that are doubled. */
  function ParseHexColor(color: string): Option<Rgb>
    requires color != "" && color[0] == '#'
  {
    var h := color[1..];
    var full := if |h| == 3 then [h[0], h[0], h[1], h[1], h[2], h[2]] else if |h| <= 6 then h else h[..6];
    if |full| < 6 then None
    else
      var r, g, b := HexByte(full[0..2]), HexByte(full[2..4]), HexByte(full[4..6]);
      if r.None? || g.None? || b.None? then None else Some(Rgb(r.value, g.value, b.value))
  }

  predicate InBytes(c: Rgb) {
    0 <= c.r < 256 && 0 <= c.g < 256 && 0 <= c.b < 256
  }

  lemma HexPair(high: nat, low: nat)
    requires high < 16 && low < 16
    ensures HexByte([HexDigit(high), HexDigit(low)]) == Some(high * 16 + low)
  {
    DigitBack(high);
    DigitBack(low);
  }

  lemma {:induction false} PaddedByte(n: nat)
    requires n < 256
    ensures |Padded(HexString(n))| == 2 && HexByte(Padded(HexString(n))) == Some(n)
  {
    var high, low := n / 16, n % 16;
    HexPair(high, low);
    if high == 0 {
      assert Padded(HexString(n)) == [HexDigit(0), HexDigit(n)];
    } else {
      assert HexString(high) == [HexDigit(high)];
      assert HexString(n) == [HexDigit(high), HexDigit(low)];
    }
  }

  lemma DigitBack(n: nat)
    requires n < 16
    ensures HexValue(HexDigit(n)) == Some(n)
  {
  }

  /** Every colour written in hex is read back unchanged, so different colours have different texts. */
  lemma HexRoundTrip(c: Rgb)
    requires InBytes(c)
    ensures |RgbToHex(c)| == 7 && RgbToHex(c)[0] == '#'
    ensures ParseHexColor(RgbToHex(c)) == Some(c)
  {
    PaddedByte(c.r);
    PaddedByte(c.g);
    PaddedByte(c.b);
    var h := RgbToHex(c)[1..];
    assert h == Padded(HexString(c.r)) + Padded(HexString(c.g)) + Padded(HexString(c.b));
    assert h[0..2] == Padded(HexString(c.r));
    assert h[2..4] == Padded(HexString(c.g));
    assert h[4..6] == Padded(HexString(c.b));
  }

  /** Three digits mean the same colour as each of them doubled. */
  lemma ShorthandDoubles(a: char, b: char, c: char)
    ensures ParseHexColor(['#', a, b, c]) == ParseHexColor(['#', a, a, b, b, c, c])
  {
    assert ['#', a, b, c][1..] == [a, b, c];
    assert ['#', a, a, b, b, c, c][1..] == [a, a, b, b, c, c];
  }

  // ---------------------------------------------------------------- which communities share a colour

  /** The channel that varies within a sixth of the colour circle, `t` degrees after its low end. */
  function Ramp(t: int): int {
    Round((0.5568 * (t as real / 60.0) + 0.2416) * 255.0)
  }

  lemma {:induction false} RampGrows(s: int, t: int)
    requires s < t
    ensures Ramp(s) < Ramp(t)
    decreases t - s
  {
    if s + 1 < t {
      RampGrows(s, t - 1);
    }
    RampStep(t - 1);
  }

  lemma RampStep(t: int)
    ensures Ramp(t) < Ramp(t + 1)
  {
    var a, b := (0.5568 * (t as real / 60.0) + 0.2416) * 255.0, (0.5568 * ((t + 1) as real / 60.0) + 0.2416) * 255.0;
    assert b == a + 2.3664;
  }

  lemma RampEnds()
    ensures Ramp(0) == 62 && Ramp(60) == 204
  {
  }

  /** The generated colour by sixths of the circle: one channel full, one low, one on the ramp. */
  function Sixth(h: int): Rgb {
    var k, t := h / 60, h % 60;
    if k == 0 then Rgb(204, Ramp(t), 62)
    else if k == 1 then Rgb(Ramp(60 - t), 204, 62)
    else if k == 2 then Rgb(62, 204, Ramp(t))
    else if k == 3 then Rgb(62, Ramp(60 - t), 204)
    else if k == 4 then Rgb(Ramp(t), 62, 204)
    else Rgb(204, 62, Ramp(60 - t))
  }

  lemma Mod2Of(x: real, k: int)
    requires 2.0 * k as real <= x < 2.0 * k as real + 2.0
    ensures Mod2(x) == x - 2.0 * k as real
  {
    assert (x / 2.0).Floor == k;
  }

  /** Within a sixth the slope rises or falls by a sixtieth for each degree, in turns. */
  lemma SlopeBySixths(h: int)
    requires 0 <= h < 360
    ensures Slope(h as real) == (if h / 60 % 2 == 0 then h % 60 else 60 - h % 60) as real / 60.0
  {
    var k, t := h / 60, h % 60;
    var z, f := h as real / 60.0, t as real / 60.0;
    assert h == 60 * k + t;
    assert z == k as real + f && 0.0 <= f < 1.0;
    Mod2Of(z, k / 2);
    if k % 2 == 0 {
      assert Mod2(z) == f;
    } else {
      assert k == 2 * (k / 2) + 1;
      assert Mod2(z) == 1.0 + f;
      assert (60 - t) as real / 60.0 == 1.0 - f;
    }
  }

  lemma WheelBySixths(h: int, u: int)
    requires 0 <= h < 360 && u == if h / 60 % 2 == 0 then h % 60 else 60 - h % 60
    ensures Wheel(h as real, 0.5568, 0.5568 * (u as real / 60.0), 0.2416) == Sixth(h)
  {
    var y := 0.5568 * (u as real / 60.0);
    assert Round((y + 0.2416) * 255.0) == Ramp(u);
    assert Round((0.5568 + 0.2416) * 255.0) == 204;
    assert Round((0.0 + 0.2416) * 255.0) == 62;
  }

  /** For whole hues the conversion is the colour wheel by sixths. */
  lemma HslBySixths(h: int)
    requires 0 <= h < 360
    ensures HslToRgb(h as real, 58.0, 52.0) == Sixth(h)
  {
    var u := if h / 60 % 2 == 0 then h % 60 else 60 - h % 60;
    SlopeBySixths(h);
    WheelBySixths(h, u);
    assert Chroma(58.0, 52.0) == 0.5568;
  }

  lemma SixthInBytes(h: int)
    requires 0 <= h < 360
    ensures InBytes(Sixth(h))
  {
    RampEnds();
    var t := h % 60;
    RampGrows(t, 60);
    RampGrows(0, 60 - t);
    if t > 0 {
      RampGrows(0, t);
      RampGrows(60 - t, 60);
    }
  }

  lemma CommunityInBytes(index: nat)
    ensures InBytes(CommunityRgb(index))
  {
    HslBySixths(Hue(index));
    SixthInBytes(Hue(index));
  }

  /** Neighbouring hues stay apart after rounding: no two of the 360 hues give the same bytes. */
  lemma SixthInjective(h: int, h': int)
    requires 0 <= h < 360 && 0 <= h' < 360 && Sixth(h) == Sixth(h')
    ensures h == h'
  {
    var t, t' := h % 60, h' % 60;
    RampEnds();
    RampGrows(t, 60);
    RampGrows(t', 60);
    RampGrows(0, 60 - t);
    RampGrows(0, 60 - t');
    if t < t' {
      RampGrows(t, t');
      RampGrows(60 - t', 60 - t);
    } else if t' < t {
      RampGrows(t', t);
      RampGrows(60 - t, 60 - t');
    }
    assert h / 60 == h' / 60;
  }

  /** 47 is invertible modulo 360, so the hues repeat with period 360 and no sooner. */
  lemma HueRepeats(i: nat, j: nat)
    ensures Hue(i) == Hue(j) <==> i % 360 == j % 360
  {
    var p, q := i / 360, j / 360;
    assert i == 360 * p + i % 360 && j == 360 * q + j % 360;
    if Hue(i) == Hue(j) {
      var u, v := (i * 47 + 210) / 360, (j * 47 + 210) / 360;
      assert 47 * (i - j) == 360 * (u - v);
      assert i - j == 360 * (23 * (u - v) - 3 * (i - j));
      SameRemainder(i, j, 23 * (u - v) - 3 * (i - j));
    }
    if i % 360 == j % 360 {
      assert i * 47 + 210 == j * 47 + 210 + 360 * (47 * (p - q));
      SameRemainder(i * 47 + 210, j * 47 + 210, 47 * (p - q));
    }
  }

  lemma SameRemainder(a: int, b: int, k: int)
    requires a - b == 360 * k
    ensures a % 360 == b % 360
  {
    var p, q := a / 360, b / 360;
    assert a == 360 * p + a % 360 && b == 360 * q + b % 360;
    assert a % 360 - b % 360 == 360 * (k - p + q);
  }

  /** Two communities get the same colour text exactly when their indices are congruent modulo 360. */
  lemma ColorsRepeat(i: nat, j: nat)
    ensures CommunityColorHex(i) == CommunityColorHex(j) <==> i % 360 == j % 360
  {
    HueRepeats(i, j);
    if CommunityColorHex(i) == CommunityColorHex(j) {
      CommunityInBytes(i);
      CommunityInBytes(j);
      HexRoundTrip(CommunityRgb(i));
      HexRoundTrip(CommunityRgb(j));
      HslBySixths(Hue(i));
      HslBySixths(Hue(j));
      SixthInjective(Hue(i), Hue(j));
    }
  }

  // ---------------------------------------------------------------- fixed points of the colours

  lemma FirstRgb()
    ensures CommunityRgb(0) == Rgb(62, 133, 204)
  {
    HslBySixths(210);
    assert Ramp(30) == 133;
  }

  lemma HexTexts()
    ensures HexString(62) == "3e" && HexString(133) == "85" && HexString(204) == "cc"
  {
    assert HexString(3) == "3" && HexString(8) == "8" && HexString(12) == "c";
  }

  /** The first community is drawn in this blue, which is read in either case of its digits. */
  lemma FirstColor()
    ensures CommunityColorHex(0) == "#3e85cc" && ParseHexColor("#3e85cc") == Some(Rgb(62, 133, 204))
    ensures ParseHexColor("#3E85CC") == Some(Rgb(62, 133, 204))
  {
    FirstRgb();
    HexTexts();
    assert "#" + "3e" + "85" + "cc" == "#3e85cc";
  }

  /** From one community to the next the hue moves on by 47 degrees. */
  lemma HuesApart(i: nat)
    ensures (Hue(i + 1) - Hue(i)) % 360 == 47 && 0 <= Hue(i) < 360
  {
    var p, q := (i * 47 + 210) / 360, ((i + 1) * 47 + 210) / 360;
    assert Hue(i + 1) - Hue(i) == 47 + 360 * (p - q);
    SameRemainder(Hue(i + 1) - Hue(i), 47, p - q);
  }

  /** Full saturation at half lightness gives the primary and secondary colours, a sixth of the circle apart. */
  lemma PureColors(k: nat)
    requires k < 6
    ensures HslToRgb(60.0 * k as real, 100.0, 50.0) ==
              [Rgb(255, 0, 0), Rgb(255, 255, 0), Rgb(0, 255, 0), Rgb(0, 255, 255), Rgb(0, 0, 255), Rgb(255, 0, 255)][k]
  {
    var h := 60 * k;
    assert h as real == 60.0 * k as real && h / 60 == k && h % 60 == 0;
    assert Chroma(100.0, 50.0) == 1.0;
    SlopeBySixths(h);
    assert Slope(h as real) == if k % 2 == 0 then 0.0 else 1.0;
    assert Round((1.0 + 0.0) * 255.0) == 255 && Round((0.0 + 0.0) * 255.0) == 0;
  }

  /** Without saturation every hue gives the grey of the lightness. */
  lemma Greys(h: real, l: real)
    ensures var grey := (l / 100.0 * 255.0 + 0.5).Floor; HslToRgb(h, 0.0, l) == Rgb(grey, grey, grey)
  {
    var lit := l / 100.0;
    assert Chroma(0.0, l) == 0.0;
    assert 0.0 * Slope(h) == 0.0;
    assert Wheel(h, 0.0, 0.0, lit) == Rgb(Round(lit * 255.0), Round(lit * 255.0), Round(lit * 255.0));
  }
}
