// Colour utilities (src/core/utils.ts): hex colour parsing with the dark
// sentinels the effects rely on, and HSV to RGB conversion.
module Utils {
  import opened Types
  import opened JsMath

  /** The colour every unlit or missing LED shows: '#111', that is (17, 17, 17). */
  const Unlit := Rgb(17.0, 17.0, 17.0)

  /** A character of the class `[a-f\d]` under the `i` flag. */
  predicate IsHexDigit(c: char)
  {
    '0' <= c <= '9' || 'a' <= c <= 'f' || 'A' <= c <= 'F'
  }

  predicate AllHex(s: string)
  {
    forall i :: 0 <= i < |s| ==> IsHexDigit(s[i])
  }

  /** `parseInt(c, 16)` of one hex digit. */
  function HexValue(c: char): (v: nat)
    requires IsHexDigit(c)
    ensures v < 16
  {
    if '0' <= c <= '9' then c as int - '0' as int
    else if 'a' <= c <= 'f' then c as int - 'a' as int + 10
    else c as int - 'A' as int + 10
  }

  /** `parseInt` of a two-digit hex pair. */
  function PairValue(hi: char, lo: char): (v: nat)
    requires IsHexDigit(hi) && IsHexDigit(lo)
    ensures v <= 255
  {
    16 * HexValue(hi) + HexValue(lo)
  }

  /** The six digits captured by `/^#?([a-f\d]{2})([a-f\d]{2})([a-f\d]{2})$/i`,
      or None when `s` does not match. */
  function HexDigits(s: string): (d: Option<string>)
    ensures d.Some? <==> (|s| == 7 && s[0] == '#' && AllHex(s[1..])) || (|s| == 6 && AllHex(s))
    ensures d.Some? ==> |d.value| == 6 && AllHex(d.value) && (d.value == s || "#" + d.value == s)
  {
    if |s| == 7 && s[0] == '#' && AllHex(s[1..]) then Some(s[1..])
    else if |s| == 6 && AllHex(s) then Some(s)
    else None
  }

  /** The colour the three captured pairs denote. */
  function PairsToRgb(d: string): (c: Rgb)
    requires |d| == 6 && AllHex(d)
    ensures c.InByteRange()
  {
    Rgb(PairValue(d[0], d[1]) as real, PairValue(d[2], d[3]) as real, PairValue(d[4], d[5]) as real)
  }

  /** hexToRgb: an empty string, '#111' and '#000' read as the unlit colour,
      '#050505' as (5, 5, 5); any other string is parsed as six hex digits
      with an optional leading '#', and anything malformed reads as unlit. */
  function HexToRgb(hex: string): (c: Rgb)
    ensures c.InByteRange()
  {
    if hex == "" || hex == "#111" || hex == "#000" then Unlit
    else if hex == "#050505" then Rgb(5.0, 5.0, 5.0)
    else match HexDigits(hex)
      case Some(d) => PairsToRgb(d)
      case None => Unlit
  }

  /** hexToRgbObj: the same pattern without the sentinels; malformed input
      reads as black. */
  function HexToRgbObj(hex: string): (c: Rgb)
    ensures c.InByteRange()
  {
    match HexDigits(hex)
    case Some(d) => PairsToRgb(d)
    case None => Black
  }

  /** An LED counts as lit when some channel exceeds 20: the test every text
      and colour effect applies before modulating a sampled colour. */
  predicate IsLit(c: Rgb)
  {
    c.r > 20.0 || c.g > 20.0 || c.b > 20.0
  }

  // ---------------------------------------------------------------------
  // The inverse of parsing, used to state the round trip.

  /** The lower-case hex digit of `v`. */
  function HexChar(v: nat): (c: char)
    requires v < 16
    ensures IsHexDigit(c)
  {
    if v < 10 then ('0' as int + v) as char else ('a' as int + v - 10) as char
  }

  /** Two lower-case digits for a byte. */
  function ByteToHex(v: nat): (s: string)
    requires v <= 255
    ensures |s| == 2 && AllHex(s)
  {
    [HexChar(v / 16), HexChar(v % 16)]
  }

  /** The '#rrggbb' spelling of a colour with integer channels in [0, 255]. */
  function RgbToHex(r: nat, g: nat, b: nat): (s: string)
    requires r <= 255 && g <= 255 && b <= 255
    ensures |s| == 7 && s[0] == '#' && AllHex(s[1..])
  {
    "#" + ByteToHex(r) + ByteToHex(g) + ByteToHex(b)
  }

  function LowerHex(c: char): char
  {
    if 'A' <= c <= 'F' then (c as int - 'A' as int + 'a' as int) as char else c
  }

  function LowerAll(s: string): (t: string)
    ensures |t| == |s|
    ensures forall i :: 0 <= i < |s| ==> t[i] == LowerHex(s[i])
  {
    if s == [] then [] else [LowerHex(s[0])] + LowerAll(s[1..])
  }

  lemma HexCharValue(v: nat)
    requires v < 16
    ensures HexValue(HexChar(v)) == v
  {
  }

  lemma ValueHexChar(c: char)
    requires IsHexDigit(c)
    ensures HexChar(HexValue(c)) == LowerHex(c)
  {
  }

  lemma {:induction false} PairRoundTrip(v: nat)
    requires v <= 255
    ensures PairValue(ByteToHex(v)[0], ByteToHex(v)[1]) == v
  {
    HexCharValue(v / 16);
    HexCharValue(v % 16);
  }

  /** Formatting a colour and parsing it back gives the colour again, for
      every colour with integer channels in [0, 255] (including the
      '#050505' sentinel, which parses to the value it spells). */
  lemma {:induction false} HexToRgbRoundTrip(r: nat, g: nat, b: nat)
    requires r <= 255 && g <= 255 && b <= 255
    ensures HexToRgb(RgbToHex(r, g, b)) == Rgb(r as real, g as real, b as real)
    ensures HexToRgbObj(RgbToHex(r, g, b)) == Rgb(r as real, g as real, b as real)
  {
    var s := RgbToHex(r, g, b);
    assert s[1..] == ByteToHex(r) + ByteToHex(g) + ByteToHex(b);
    PairRoundTrip(r);
    PairRoundTrip(g);
    PairRoundTrip(b);
    if s == "#050505" {
      SentinelSpellsFive(r, s[1], s[2]);
      SentinelSpellsFive(g, s[3], s[4]);
      SentinelSpellsFive(b, s[5], s[6]);
    }
  }

  /** The only byte spelled "05" is 5. */
  lemma SentinelSpellsFive(v: nat, hi: char, lo: char)
    requires v <= 255 && ByteToHex(v) == [hi, lo] && hi == '0' && lo == '5'
    ensures v == 5
  {
    HexCharValue(v / 16);
    HexCharValue(v % 16);
  }

  /** A parsed pair, formatted again, is the pair in lower case. */
  lemma PairToHex(hi: char, lo: char)
    requires IsHexDigit(hi) && IsHexDigit(lo)
    ensures ByteToHex(PairValue(hi, lo)) == [LowerHex(hi), LowerHex(lo)]
  {
    var v := PairValue(hi, lo);
    assert v / 16 == HexValue(hi) && v % 16 == HexValue(lo);
    ValueHexChar(hi);
    ValueHexChar(lo);
  }

  /** Parsing a well-formed colour and formatting the result gives back its
      digits in lower case: the parse loses nothing but letter case. */
  lemma {:induction false} RgbToHexRoundTrip(s: string)
    requires HexDigits(s).Some?
    ensures var d := HexDigits(s).value;
      RgbToHex(PairValue(d[0], d[1]), PairValue(d[2], d[3]), PairValue(d[4], d[5])) == "#" + LowerAll(d)
    ensures var d := HexDigits(s).value;
      HexToRgbObj(s) == Rgb(PairValue(d[0], d[1]) as real, PairValue(d[2], d[3]) as real, PairValue(d[4], d[5]) as real)
  {
    var d := HexDigits(s).value;
    PairToHex(d[0], d[1]);
    PairToHex(d[2], d[3]);
    PairToHex(d[4], d[5]);
    var l := LowerAll(d);
    assert l == [l[0], l[1]] + [l[2], l[3]] + [l[4], l[5]];
  }

  /** The sentinel short-cuts of hexToRgb, and what hexToRgbObj makes of the
      same strings. */
  lemma Sentinels()
    ensures HexToRgb("") == Unlit && HexToRgb("#111") == Unlit && HexToRgb("#000") == Unlit
    ensures HexToRgb("#050505") == Rgb(5.0, 5.0, 5.0)
    ensures HexToRgbObj("#000") == Black && HexToRgbObj("#111") == Black
    ensures HexToRgb("#ffffff") == Rgb(255.0, 255.0, 255.0)
  {
    assert HexDigits("#000").None?;
    assert HexDigits("#111").None?;
    assert HexDigits("#ffffff") == Some("ffffff");
  }

  /** Outside the sentinels the two parsers agree on every well-formed
      string; on malformed input hexToRgb reads unlit and hexToRgbObj black. */
  lemma ParsersAgree(hex: string)
    requires hex != "" && hex != "#111" && hex != "#000"
    ensures HexDigits(hex).Some? ==> HexToRgb(hex) == HexToRgbObj(hex)
    ensures HexDigits(hex).None? ==> HexToRgb(hex) == Unlit && HexToRgbObj(hex) == Black
  {
    if hex == "#050505" {
      assert HexDigits(hex) == Some("050505");
    }
  }

  // ---------------------------------------------------------------------
  // HSV

  /** hsvToRgb: sector `i = floor(6h)`, fraction `f = 6h - i`, and the
      channel order chosen by `i % 6` (JavaScript's remainder, so a negative
      sector matches no case and the colour stays black); channels scaled
      to [0, 255]. */
  function HsvToRgb(h: real, s: real, v: real): (c: Rgb)
  {
    var i := Floor(h * 6.0);
    var f := h * 6.0 - i as real;
    var p := v * (1.0 - s);
    var q := v * (1.0 - f * s);
    var t := v * (1.0 - (1.0 - f) * s);
    var rgb :=
      match Rem(i, 6)
      case 0 => Rgb(v, t, p)
      case 1 => Rgb(q, v, p)
      case 2 => Rgb(p, v, t)
      case 3 => Rgb(p, q, v)
      case 4 => Rgb(t, p, v)
      case 5 => Rgb(v, p, q)
      case _ => Black;
    rgb.Scale(255.0)
  }

  lemma ProductInUnit(a: real, b: real)
    requires 0.0 <= a <= 1.0 && 0.0 <= b <= 1.0
    ensures 0.0 <= a * b <= b && a * b <= a
  {
  }

  /** The channel triple hsvToRgb picks before scaling, for a sector `i`. */
  lemma SectorInUnit(h: real, s: real, v: real)
    requires 0.0 <= h && 0.0 <= s <= 1.0 && 0.0 <= v <= 1.0
    ensures var i := Floor(h * 6.0); var f := h * 6.0 - i as real;
      0.0 <= v * (1.0 - s) <= 1.0 && 0.0 <= v * (1.0 - f * s) <= 1.0 && 0.0 <= v * (1.0 - (1.0 - f) * s) <= 1.0
  {
    var i := Floor(h * 6.0);
    var f := h * 6.0 - i as real;
    assert 0.0 <= f < 1.0;
    ProductInUnit(f, s);
    ProductInUnit(1.0 - f, s);
    ProductInUnit(v, 1.0 - s);
    ProductInUnit(v, 1.0 - f * s);
    ProductInUnit(v, 1.0 - (1.0 - f) * s);
  }

  /** For any non-negative hue and saturation and value in [0, 1], every
      channel lies in [0, 255]. */
  lemma HsvInRange(h: real, s: real, v: real)
    requires 0.0 <= h && 0.0 <= s <= 1.0 && 0.0 <= v <= 1.0
    ensures HsvToRgb(h, s, v).InByteRange()
  {
    SectorInUnit(h, s, v);
  }

  /** Zero saturation gives grey at the value's level, for every non-negative hue. */
  lemma HsvGrey(h: real, v: real)
    requires 0.0 <= h
    ensures HsvToRgb(h, 0.0, v) == Rgb(v * 255.0, v * 255.0, v * 255.0)
  {
    assert Floor(h * 6.0) >= 0;
  }

  /** A negative sector matches no case of the switch: the colour is black. */
  lemma HsvNegativeSector(h: real, s: real, v: real)
    requires -5.0 / 6.0 <= h < 0.0
    ensures HsvToRgb(h, s, v) == Black
  {
    var i := Floor(h * 6.0);
    assert -5 <= i <= -1;
  }

  /** Pure red at hue 0. */
  lemma HsvRed()
    ensures HsvToRgb(0.0, 1.0, 1.0) == Rgb(255.0, 0.0, 0.0)
  {
    var i := Floor(0.0 * 6.0);
    assert i == 0;
    assert 0.0 * 6.0 - i as real == 0.0;
    assert Rem(i, 6) == 0;
  }

  /** Hue 1 wraps round to sector 0: red again. */
  lemma HsvRedWraps()
    ensures HsvToRgb(1.0, 1.0, 1.0) == Rgb(255.0, 0.0, 0.0)
  {
    assert Floor(1.0 * 6.0) == 6;
    assert Rem(6, 6) == 0;
    assert HsvToRgb(1.0, 1.0, 1.0) == Rgb(1.0, 0.0, 0.0).Scale(255.0);
  }

  /** Pure green at hue 1/3. */
  lemma HsvGreen()
    ensures HsvToRgb(1.0 / 3.0, 1.0, 1.0) == Rgb(0.0, 255.0, 0.0)
  {
    assert 1.0 / 3.0 * 6.0 == 2.0;
    assert Floor(2.0) == 2 && Rem(2, 6) == 2;
  }

  /** Value 0 is black whatever the hue and saturation. */
  lemma HsvBlack(h: real, s: real, v: real)
    requires v == 0.0
    ensures HsvToRgb(h, s, v) == Black
  {
  }
}
