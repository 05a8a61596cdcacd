/**
 * Colour decoding of the paint editor: `hexToRgb`, the channel extraction of `hexToRgba`,
 * `colorsMatch`, and the `parseInt(…, 16)` they rely on.
 */
module Colour {
  import opened Common

  /** One byte of an RGBA pixel buffer (a `Uint8ClampedArray` element). */
  type Byte = x: int | 0 <= x < 256

  /** The `{r, g, b, a}` colour objects of the editor. */
  datatype Rgba = Rgba(r: int, g: int, b: int, a: int)

  /** Colour channels paired with an opacity: what the `rgba(…)` style string of `hexToRgba` carries. */
  datatype StrokeStyle = StrokeStyle(r: int, g: int, b: int, opacity: real)

  /** Per-channel tolerance of `colorsMatch`. */
  const Tolerance := 5

  predicate IsHexDigit(c: char) {
    '0' <= c <= '9' || 'a' <= c <= 'f' || 'A' <= c <= 'F'
  }

  function DigitValue(c: char): (v: nat)
    requires IsHexDigit(c)
    ensures v < 16
  {
    if '0' <= c <= '9' then c as int - '0' as int
    else if 'a' <= c <= 'f' then c as int - 'a' as int + 10
    else c as int - 'A' as int + 10
  }

  predicate AllHexDigits(s: string) {
    forall i :: 0 <= i < |s| ==> IsHexDigit(s[i])
  }

  /** The longest prefix of `s` made of hexadecimal digits: what `parseInt` reads before it stops. */
  function HexDigitsPrefix(s: string): (p: string)
    ensures p <= s && AllHexDigits(p)
    ensures |p| < |s| ==> !IsHexDigit(s[|p|])
  {
    if s == [] || !IsHexDigit(s[0]) then [] else [s[0]] + HexDigitsPrefix(s[1..])
  }

  /** The number a string of hexadecimal digits denotes, most significant digit first. */
  function DigitsValue(ds: string): nat
    requires AllHexDigits(ds)
  {
    if ds == [] then 0 else DigitsValue(ds[..|ds| - 1]) * 16 + DigitValue(ds[|ds| - 1])
  }

  /**
   * `parseInt(s, 16)`: an optional sign, an optional `0x`/`0X` prefix, then the longest run of
   * hexadecimal digits; `None` stands for NaN (no digit at all).
   */
  function ParseHexInt(s: string): (v: Option<int>)
    ensures v.None? <==> HexDigitsPrefix(HexBody(s)) == []
  {
    var digits := HexDigitsPrefix(HexBody(s));
    if digits == [] then None
    else
      var n: int := DigitsValue(digits);
      if |s| > 0 && s[0] == '-' then Some(-n) else Some(n)
  }

  /** What `parseInt` scans for digits once the sign and the `0x` prefix are stripped. */
  function HexBody(s: string): string {
    var unsigned := if |s| > 0 && (s[0] == '-' || s[0] == '+') then s[1..] else s;
    if |unsigned| >= 2 && unsigned[0] == '0' && (unsigned[1] == 'x' || unsigned[1] == 'X')
    then unsigned[2..] else unsigned
  }

  /** `hex.substring(1)`: everything after the leading `#` (empty for the empty string). */
  function AfterFirst(hex: string): string {
    if |hex| == 0 then "" else hex[1..]
  }

  /**
   * `(n >> shift) & 255` on the 32-bit integer JavaScript makes of `n`; NaN becomes 0.
   * Bits 0..23 of a number do not change when it is wrapped to 32 bits, so the channel is
   * the floor quotient reduced modulo 256.
   */
  function Channel(v: Option<int>, divisor: int): (c: int)
    requires divisor == 1 || divisor == 256 || divisor == 65536
    ensures 0 <= c < 256
    ensures v.None? ==> c == 0
    ensures v.Some? ==> c * divisor <= v.value % (256 * divisor) < (c + 1) * divisor
  {
    match v
    case None => 0
    case Some(n) => ChannelPlace(n, divisor); (n / divisor) % 256
  }

  /** The byte at position `divisor` of `n` is the one that places `n` modulo `256 * divisor`. */
  lemma ChannelPlace(n: int, divisor: int)
    requires divisor == 1 || divisor == 256 || divisor == 65536
    ensures var c := (n / divisor) % 256;
            c * divisor <= n % (256 * divisor) < (c + 1) * divisor
  {
    var q, r := n / divisor, n % divisor;
    var c, hi := q % 256, q / 256;
    assert n == hi * (256 * divisor) + (c * divisor + r);
    assert 0 <= c * divisor + r < 256 * divisor;
    DivModSplit(hi, 256 * divisor, c * divisor + r);
  }

  lemma {:induction false} ChannelsRecompose(n: int)
    ensures (n / 65536) % 256 * 65536 + (n / 256) % 256 * 256 + n % 256 == n % 16777216
  {
    var m := n % 16777216;
    var q := n / 16777216;
    assert n == q * 16777216 + m;
    assert n / 65536 == q * 256 + m / 65536;
    assert (n / 65536) % 256 == m / 65536;
    assert n / 256 == q * 65536 + m / 256;
    assert (n / 256) % 256 == (m / 256) % 256;
    assert n % 256 == m % 256;
    assert m / 256 == (m / 65536) * 256 + (m / 256) % 256;
    assert m == (m / 256) * 256 + m % 256;
  }

  /** `hexToRgb`: decodes `#rrggbb` into three channels and an opaque alpha. */
  function HexToRgb(hex: string): (c: Rgba)
    ensures 0 <= c.r < 256 && 0 <= c.g < 256 && 0 <= c.b < 256 && c.a == 255
    ensures ParseHexInt(AfterFirst(hex)).None? ==> c.r == 0 && c.g == 0 && c.b == 0
    ensures ParseHexInt(AfterFirst(hex)).Some? ==>
              c.r * 65536 + c.g * 256 + c.b == ParseHexInt(AfterFirst(hex)).value % 16777216
  {
    var v := ParseHexInt(AfterFirst(hex));
    var c := Rgba(Channel(v, 65536), Channel(v, 256), Channel(v, 1), 255);
    match v
    case None => c
    case Some(n) => ChannelsRecompose(n); c
  }

  /** The channels `hexToRgba` builds its `rgba(…)` string from; the string itself is not modelled. */
  function HexToRgba(hex: string, opacity: real): (s: StrokeStyle)
    ensures s.opacity == opacity
    ensures s.r == HexToRgb(hex).r && s.g == HexToRgb(hex).g && s.b == HexToRgb(hex).b
  {
    var bigint := ParseHexInt(AfterFirst(hex));
    StrokeStyle(Channel(bigint, 65536), Channel(bigint, 256), Channel(bigint, 1), opacity)
  }

  /** `colorsMatch`: every colour channel within the tolerance; alpha is not compared. */
  predicate ColorsMatch(a: Rgba, b: Rgba) {
    AbsInt(a.r - b.r) <= Tolerance && AbsInt(a.g - b.g) <= Tolerance && AbsInt(a.b - b.b) <= Tolerance
  }

  lemma ColorsMatchSymmetric(a: Rgba, b: Rgba)
    ensures ColorsMatch(a, b) == ColorsMatch(b, a)
  {
  }

  lemma ColorsMatchReflexive(a: Rgba)
    ensures ColorsMatch(a, a)
  {
  }

  // ---------------------------------------------------------------------------------------------
  // The `#rrggbb` strings a colour picker produces, as a reference encoder for the decoder.

  function HexDigitChar(d: nat): (c: char)
    requires d < 16
    ensures IsHexDigit(c) && DigitValue(c) == d
  {
    if d < 10 then ('0' as int + d) as char else ('a' as int + d - 10) as char
  }

  /** A colour written the way `<input type="color">` reports it: `#` and six lower-case digits. */
  function ToHex(r: Byte, g: Byte, b: Byte): (s: string)
    ensures |s| == 7 && s[0] == '#' && AllHexDigits(s[1..])
  {
    ['#', HexDigitChar(r / 16), HexDigitChar(r % 16), HexDigitChar(g / 16), HexDigitChar(g % 16),
     HexDigitChar(b / 16), HexDigitChar(b % 16)]
  }

  lemma {:induction false} PrefixOfDigits(s: string)
    requires AllHexDigits(s)
    ensures HexDigitsPrefix(s) == s
  {
    if s != [] {
      PrefixOfDigits(s[1..]);
    }
  }

  lemma {:induction false} SixDigitsValue(ds: string)
    requires |ds| == 6 && AllHexDigits(ds)
    ensures DigitsValue(ds) ==
      (DigitValue(ds[0]) * 16 + DigitValue(ds[1])) * 65536
      + (DigitValue(ds[2]) * 16 + DigitValue(ds[3])) * 256
      + DigitValue(ds[4]) * 16 + DigitValue(ds[5])
  {
    assert ds[..5][..4] == ds[..4] && ds[..4][..3] == ds[..3] && ds[..3][..2] == ds[..2];
    assert ds[..2][..1] == ds[..1] && ds[..1][..0] == [];
    assert DigitsValue(ds[..1]) == DigitValue(ds[0]);
    assert DigitsValue(ds[..2]) == DigitValue(ds[0]) * 16 + DigitValue(ds[1]);
    assert DigitsValue(ds[..3]) == DigitsValue(ds[..2]) * 16 + DigitValue(ds[2]);
    assert DigitsValue(ds[..4]) == DigitsValue(ds[..3]) * 16 + DigitValue(ds[3]);
    assert DigitsValue(ds[..5]) == DigitsValue(ds[..4]) * 16 + DigitValue(ds[4]);
    assert DigitsValue(ds) == DigitsValue(ds[..5]) * 16 + DigitValue(ds[5]);
  }

  lemma DivModSplit(hi: int, k: int, lo: int)
    requires k > 0 && 0 <= lo < k
    ensures (hi * k + lo) / k == hi && (hi * k + lo) % k == lo
  {
    var n := hi * k + lo;
    var q, m := n / k, n % k;
    assert (q - hi) * k == lo - m;
    if q - hi >= 1 {
      assert false;
    } else if q - hi <= -1 {
      assert false;
    }
  }

  /** A run of digits with no sign and no `0x` prefix parses to the number it denotes. */
  lemma {:induction false} ParsesPlainDigits(ds: string)
    requires |ds| > 0 && AllHexDigits(ds)
    ensures ParseHexInt(ds) == Some(DigitsValue(ds))
  {
    assert HexBody(ds) == ds;
    PrefixOfDigits(ds);
  }

  /** The two digits a picker writes for one channel read back as that channel. */
  lemma DigitPairValue(v: Byte)
    ensures DigitValue(HexDigitChar(v / 16)) * 16 + DigitValue(HexDigitChar(v % 16)) == v
  {
  }

  /** The digits after the `#` of a picker colour, two per channel, high digit first. */
  lemma ToHexDigits(r: Byte, g: Byte, b: Byte)
    ensures var ds := AfterFirst(ToHex(r, g, b));
            && |ds| == 6 && AllHexDigits(ds)
            && ds[0] == HexDigitChar(r / 16) && ds[1] == HexDigitChar(r % 16)
            && ds[2] == HexDigitChar(g / 16) && ds[3] == HexDigitChar(g % 16)
            && ds[4] == HexDigitChar(b / 16) && ds[5] == HexDigitChar(b % 16)
  {
    var s := ToHex(r, g, b);
    assert AfterFirst(s) == s[1..];
  }

  /** The six digits after the `#` of a picker colour denote the packed 24-bit value. */
  lemma ToHexValue(r: Byte, g: Byte, b: Byte)
    ensures AllHexDigits(AfterFirst(ToHex(r, g, b)))
    ensures DigitsValue(AfterFirst(ToHex(r, g, b))) == r * 65536 + g * 256 + b
  {
    var ds := AfterFirst(ToHex(r, g, b));
    ToHexDigits(r, g, b);
    SixDigitsValue(ds);
    DigitPairValue(r);
    DigitPairValue(g);
    DigitPairValue(b);
  }

  /** The six digits after the `#` of a picker colour parse to the packed 24-bit value. */
  lemma ToHexParses(r: Byte, g: Byte, b: Byte)
    ensures ParseHexInt(AfterFirst(ToHex(r, g, b))) == Some(r * 65536 + g * 256 + b)
  {
    ToHexDigits(r, g, b);
    ToHexValue(r, g, b);
    ParsesPlainDigits(AfterFirst(ToHex(r, g, b)));
  }

  /** The three channels of a packed 24-bit value are recovered by shifting and masking. */
  lemma PackedChannels(r: Byte, g: Byte, b: Byte)
    ensures var n := r * 65536 + g * 256 + b;
            (n / 65536) % 256 == r && (n / 256) % 256 == g && (n / 1) % 256 == b
  {
    var n := r * 65536 + g * 256 + b;
    DivModSplit(r, 65536, g * 256 + b);
    DivModSplit(0, 256, r);
    assert n == (r * 256 + g) * 256 + b;
    DivModSplit(r * 256 + g, 256, b);
    DivModSplit(r, 256, g);
    DivModSplit(0, 256, b);
  }

  /** A colour string whose digits parse to a packed value decodes to that value's channels. */
  lemma DecodesPacked(hex: string, r: Byte, g: Byte, b: Byte)
    requires ParseHexInt(AfterFirst(hex)) == Some(r * 65536 + g * 256 + b)
    ensures HexToRgb(hex) == Rgba(r, g, b, 255)
  {
    PackedChannels(r, g, b);
  }

  /** Decoding a picker colour gives back its three channels, with an opaque alpha. */
  lemma HexToRgbOfToHex(r: Byte, g: Byte, b: Byte)
    ensures HexToRgb(ToHex(r, g, b)) == Rgba(r, g, b, 255)
  {
    ToHexParses(r, g, b);
    DecodesPacked(ToHex(r, g, b), r, g, b);
  }
}
