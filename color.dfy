/**
 * The colour utilities of the mobile app (apps/mobile/src/utils/color.ts):
 * the `#rrggbb` codec that `hexToVec3` and `lerpColor` rely on, the channel
 * interpolation with `Math.round`, and the eight-stop altitude ramp of
 * `interpolateSunColor`.
 */
module Color {

  /** One colour channel: the value a two-digit hex pair stands for. */
  type Channel = x: int | 0 <= x <= 255

  datatype Rgb = Rgb(r: Channel, g: Channel, b: Channel)

  /** The `[r, g, b]` triple of `hexToVec3`, each channel scaled to 0..1. */
  datatype Vec3 = Vec3(r: real, g: real, b: real)

  // ---------------------------------------------------------------------------
  // Hex digits: what parseInt(_, 16) accepts and what toString(16) emits

  predicate IsHexDigit(c: char) {
    '0' <= c <= '9' || 'a' <= c <= 'f' || 'A' <= c <= 'F'
  }

  predicate IsLowerHexDigit(c: char) {
    '0' <= c <= '9' || 'a' <= c <= 'f'
  }

  function DigitValue(c: char): (d: nat)
    requires IsHexDigit(c)
    ensures d < 16
    ensures ('0' <= c <= '9') == (d < 10)
  {
    if '0' <= c <= '9' then c as int - '0' as int
    else if 'a' <= c <= 'f' then c as int - 'a' as int + 10
    else c as int - 'A' as int + 10
  }

  /** The digit `toString(16)` writes for `d`: always lower case. */
  function DigitChar(d: nat): (c: char)
    requires d < 16
    ensures IsLowerHexDigit(c) && DigitValue(c) == d
  {
    if d < 10 then ('0' as int + d) as char else ('a' as int + d - 10) as char
  }

  /** A hex digit folded to lower case. */
  function LowerDigit(c: char): char
    requires IsHexDigit(c)
  {
    if 'A' <= c <= 'F' then (c as int - 'A' as int + 'a' as int) as char else c
  }

  lemma DigitCharOfValue(c: char)
    requires IsHexDigit(c)
    ensures DigitChar(DigitValue(c)) == LowerDigit(c)
  {
  }

  function Pow16(n: nat): nat
  {
    if n == 0 then 1 else 16 * Pow16(n - 1)
  }

  /** parseInt(s, 16) on a string made only of hex digits. */
  function ParseHex(s: seq<char>): (v: nat)
    requires forall i | 0 <= i < |s| :: IsHexDigit(s[i])
    ensures v < Pow16(|s|)
  {
    if s == [] then 0
    else 16 * ParseHex(s[..|s| - 1]) + DigitValue(s[|s| - 1])
  }

  /** n.toString(16): base-16 digits, most significant first, no leading zero. */
  function ToHexString(n: nat): (s: seq<char>)
    ensures |s| >= 1
  {
    if n < 16 then [DigitChar(n)] else ToHexString(n / 16) + [DigitChar(n % 16)]
  }

  /** s.padStart(width, [pad]): pad on the left up to `width` characters. */
  function PadStart(s: seq<char>, width: nat, pad: char): (r: seq<char>)
    ensures |r| == if |s| < width then width else |s|
    ensures r[|r| - |s|..] == s
    ensures forall i | 0 <= i < |r| - |s| :: r[i] == pad
  {
    if |s| < width then seq(width - |s|, _ => pad) + s else s
  }

  lemma {:induction false} ParseToHexString(n: nat)
    ensures forall i | 0 <= i < |ToHexString(n)| :: IsHexDigit(ToHexString(n)[i])
    ensures ParseHex(ToHexString(n)) == n
  {
    if n >= 16 {
      ParseToHexString(n / 16);
      var s := ToHexString(n);
      assert s[..|s| - 1] == ToHexString(n / 16);
    }
  }

  // ---------------------------------------------------------------------------
  // The #rrggbb codec

  /** What the slices `hex.slice(1, 3)`, `slice(3, 5)`, `slice(5, 7)` need
      for parseInt to read a whole channel; the first character is skipped. */
  predicate HasHexChannels(hex: string) {
    |hex| >= 7 && forall i | 1 <= i < 7 :: IsHexDigit(hex[i])
  }

  /** `#` followed by exactly six lower-case hex digits. */
  predicate IsCanonicalHex(s: string) {
    |s| == 7 && s[0] == '#' && forall i | 1 <= i < 7 :: IsLowerHexDigit(s[i])
  }

  /** The lower-case `#rrggbb` spelling of the channels a hex string carries. */
  function Canonical(hex: string): (s: string)
    requires HasHexChannels(hex)
    ensures IsCanonicalHex(s)
  {
    ['#', LowerDigit(hex[1]), LowerDigit(hex[2]), LowerDigit(hex[3]),
     LowerDigit(hex[4]), LowerDigit(hex[5]), LowerDigit(hex[6])]
  }

  lemma CanonicalOfCanonical(s: string)
    requires IsCanonicalHex(s)
    ensures HasHexChannels(s) && Canonical(s) == s
  {
  }

  /** parseInt on two hex digits. */
  lemma ParsePair(hi: char, lo: char)
    requires IsHexDigit(hi) && IsHexDigit(lo)
    ensures ParseHex([hi, lo]) == 16 * DigitValue(hi) + DigitValue(lo)
  {
    assert [hi, lo][..1] == [hi];
    assert [hi][..0] == [];
  }

  /** The pair of characters at `k`, `k + 1` (the slice `hex.slice(k, k + 2)`),
      read by parseInt(_, 16). */
  function ChannelAt(hex: string, k: nat): (v: Channel)
    requires HasHexChannels(hex) && k in {1, 3, 5}
    ensures v == 16 * DigitValue(hex[k]) + DigitValue(hex[k + 1])
  {
    ParsePair(hex[k], hex[k + 1]);
    ParseHex([hex[k], hex[k + 1]])
  }

  /** The three parseInt calls of lerpColor (lines 20-25). */
  function DecodeHex(hex: string): (c: Rgb)
    requires HasHexChannels(hex)
    ensures c.r == 16 * DigitValue(hex[1]) + DigitValue(hex[2])
    ensures c.g == 16 * DigitValue(hex[3]) + DigitValue(hex[4])
    ensures c.b == 16 * DigitValue(hex[5]) + DigitValue(hex[6])
  {
    Rgb(ChannelAt(hex, 1), ChannelAt(hex, 3), ChannelAt(hex, 5))
  }

  /** `v.toString(16).padStart(2, "0")`. */
  function EncodeChannel(v: Channel): (s: string)
    ensures s == [DigitChar(v / 16), DigitChar(v % 16)]
  {
    assert v >= 16 ==> ToHexString(v) == [DigitChar(v / 16), DigitChar(v % 16)];
    PadStart(ToHexString(v), 2, '0')
  }

  /** The template string that lerpColor returns (line 31). */
  function EncodeHex(c: Rgb): (s: string)
    ensures IsCanonicalHex(s)
  {
    "#" + EncodeChannel(c.r) + EncodeChannel(c.g) + EncodeChannel(c.b)
  }

  /** The encoded colour, character by character. */
  lemma EncodeHexDigits(c: Rgb)
    ensures EncodeHex(c) == ['#', DigitChar(c.r / 16), DigitChar(c.r % 16),
                                  DigitChar(c.g / 16), DigitChar(c.g % 16),
                                  DigitChar(c.b / 16), DigitChar(c.b % 16)]
  {
  }

  /** Splitting 16 * hi + lo back into its two digits. */
  lemma DivMod16(hi: nat, lo: nat)
    requires hi < 16 && lo < 16
    ensures (16 * hi + lo) / 16 == hi && (16 * hi + lo) % 16 == lo
  {
  }

  /** Reading the two digits written for a channel gives the channel back. */
  lemma ChannelOfDigits(v: Channel)
    ensures 16 * DigitValue(DigitChar(v / 16)) + DigitValue(DigitChar(v % 16)) == v
  {
  }

  lemma DecodeEncode(c: Rgb)
    ensures HasHexChannels(EncodeHex(c)) && DecodeHex(EncodeHex(c)) == c
  {
    var s := EncodeHex(c);
    EncodeHexDigits(c);
    assert ChannelAt(s, 1) == c.r by { ChannelOfDigits(c.r); }
    assert ChannelAt(s, 3) == c.g by { ChannelOfDigits(c.g); }
    assert ChannelAt(s, 5) == c.b by { ChannelOfDigits(c.b); }
  }

  /** Writing a parsed channel again gives its two digits in lower case. */
  lemma EncodeChannelAt(hex: string, k: nat)
    requires HasHexChannels(hex) && k in {1, 3, 5}
    ensures DigitChar(ChannelAt(hex, k) / 16) == LowerDigit(hex[k])
    ensures DigitChar(ChannelAt(hex, k) % 16) == LowerDigit(hex[k + 1])
  {
    DivMod16(DigitValue(hex[k]), DigitValue(hex[k + 1]));
    DigitCharOfValue(hex[k]);
    DigitCharOfValue(hex[k + 1]);
  }

  lemma EncodeDecode(hex: string)
    requires HasHexChannels(hex)
    ensures EncodeHex(DecodeHex(hex)) == Canonical(hex)
  {
    EncodeHexDigits(DecodeHex(hex));
    EncodeChannelAt(hex, 1);
    EncodeChannelAt(hex, 3);
    EncodeChannelAt(hex, 5);
  }

  // ---------------------------------------------------------------------------
  // hexToVec3

  function HexToVec3(hex: string): (v: Vec3)
    requires HasHexChannels(hex)
    ensures 0.0 <= v.r <= 1.0 && 0.0 <= v.g <= 1.0 && 0.0 <= v.b <= 1.0
  {
    Vec3(ChannelAt(hex, 1) as real / 255.0,
         ChannelAt(hex, 3) as real / 255.0,
         ChannelAt(hex, 5) as real / 255.0)
  }

  lemma HexToVec3OfEncoded(c: Rgb)
    ensures HexToVec3(EncodeHex(c)) == Vec3(c.r as real / 255.0, c.g as real / 255.0, c.b as real / 255.0)
  {
    DecodeEncode(c);
  }

  lemma HexToVec3BlackWhite()
    ensures HexToVec3("#000000") == Vec3(0.0, 0.0, 0.0)
    ensures HexToVec3("#ffffff") == Vec3(1.0, 1.0, 1.0)
  {
  }

  // ---------------------------------------------------------------------------
  // lerpColor

  /** Math.round: the nearest integer, halves rounded up. */
  function Round(x: real): (n: int)
    ensures n as real - 0.5 <= x < n as real + 0.5
  {
    (x + 0.5).Floor
  }

  /** Rounding a value between two integers stays between them. */
  lemma RoundBetween(x: real, lo: int, hi: int)
    requires lo as real <= x <= hi as real
    ensures lo <= Round(x) <= hi
  {
    var n := Round(x);
    assert n as real < (hi + 1) as real;
    assert (lo - 1) as real < n as real;
  }

  function Min(a: int, b: int): int { if a <= b then a else b }

  function Max(a: int, b: int): int { if a <= b then b else a }

  /** Scaling by t in [0, 1] keeps a value between 0 and itself. */
  lemma ScaleBetween(d: real, t: real)
    requires 0.0 <= t <= 1.0
    ensures d >= 0.0 ==> 0.0 <= d * t <= d
    ensures d <= 0.0 ==> d <= d * t <= 0.0
  {
    assert d * t - d == d * (t - 1.0);
  }

  /** The unrounded interpolant lies between the two channels. */
  lemma LerpBetween(c1: int, c2: int, t: real)
    requires 0.0 <= t <= 1.0
    ensures Min(c1, c2) as real <= c1 as real + (c2 - c1) as real * t <= Max(c1, c2) as real
  {
    ScaleBetween((c2 - c1) as real, t);
    if c1 <= c2 {
      assert Min(c1, c2) == c1 && Max(c1, c2) == c2;
    } else {
      assert Min(c1, c2) == c2 && Max(c1, c2) == c1;
    }
  }

  /** `Math.round(c1 + (c2 - c1) * t)` for one channel (lines 27-29). */
  function LerpChannel(c1: Channel, c2: Channel, t: real): (v: Channel)
    requires 0.0 <= t <= 1.0
    ensures Min(c1, c2) <= v <= Max(c1, c2)
    ensures t == 0.0 ==> v == c1
    ensures t == 1.0 ==> v == c2
  {
    var x := c1 as real + (c2 - c1) as real * t;
    LerpBetween(c1, c2, t);
    RoundBetween(x, Min(c1, c2), Max(c1, c2));
    Round(x)
  }

  /** lerpColor(color1, color2, t). */
  function LerpColor(color1: string, color2: string, t: real): (s: string)
    requires HasHexChannels(color1) && HasHexChannels(color2)
    requires 0.0 <= t <= 1.0
    ensures IsCanonicalHex(s)
  {
    var c1 := DecodeHex(color1);
    var c2 := DecodeHex(color2);
    EncodeHex(Rgb(LerpChannel(c1.r, c2.r, t), LerpChannel(c1.g, c2.g, t), LerpChannel(c1.b, c2.b, t)))
  }

  lemma LerpColorEndpoints(color1: string, color2: string)
    requires HasHexChannels(color1) && HasHexChannels(color2)
    ensures LerpColor(color1, color2, 0.0) == Canonical(color1)
    ensures LerpColor(color1, color2, 1.0) == Canonical(color2)
  {
    EncodeDecode(color1);
    EncodeDecode(color2);
  }

  /** Between two canonical colours, t = 0 and t = 1 give them back exactly. */
  lemma LerpCanonicalEndpoints(color1: string, color2: string, t: real)
    requires IsCanonicalHex(color1) && IsCanonicalHex(color2)
    requires t == 0.0 || t == 1.0
    ensures LerpColor(color1, color2, t) == if t == 0.0 then color1 else color2
  {
    LerpColorEndpoints(color1, color2);
    CanonicalOfCanonical(color1);
    CanonicalOfCanonical(color2);
  }

  predicate Between(v: int, a: int, b: int) {
    Min(a, b) <= v <= Max(a, b)
  }

  lemma LerpColorBetween(color1: string, color2: string, t: real)
    requires HasHexChannels(color1) && HasHexChannels(color2)
    requires 0.0 <= t <= 1.0
    ensures HasHexChannels(LerpColor(color1, color2, t))
    ensures var c, c1, c2 := DecodeHex(LerpColor(color1, color2, t)), DecodeHex(color1), DecodeHex(color2);
      Between(c.r, c1.r, c2.r) && Between(c.g, c1.g, c2.g) && Between(c.b, c1.b, c2.b)
  {
    var c1, c2 := DecodeHex(color1), DecodeHex(color2);
    DecodeEncode(Rgb(LerpChannel(c1.r, c2.r, t), LerpChannel(c1.g, c2.g, t), LerpChannel(c1.b, c2.b, t)));
  }

  // ---------------------------------------------------------------------------
  // interpolateSunColor

  /** The altitude breakpoints, in degrees (line 39). */
  const InputRange: seq<int> := [-18, -6, 0, 12, 20, 30, 45, 60]

  /** The colour at each breakpoint (lines 40-49). */
  const OutputRange: seq<string> :=
    ["#1a1a2e", "#5a4fcf", "#ff6b9d", "#ffd60a", "#ffed4e", "#fff9a5", "#fffacd", "#fff8dc"]

  /** The table is well formed: as many colours as breakpoints, breakpoints
      strictly increasing, every colour already in canonical form. */
  lemma RampTable()
    ensures |InputRange| == |OutputRange| == 8
    ensures forall i, j | 0 <= i < j < |InputRange| :: InputRange[i] < InputRange[j]
    ensures forall i | 0 <= i < |OutputRange| :: IsCanonicalHex(OutputRange[i])
  {
    BreakpointsIncrease();
    forall i | 0 <= i < |OutputRange| ensures IsCanonicalHex(OutputRange[i]) {
      StopCanonical(i);
    }
  }

  lemma BreakpointsIncrease()
    ensures |InputRange| == 8
    ensures forall i, j | 0 <= i < j < |InputRange| :: InputRange[i] < InputRange[j]
  {
  }

  lemma StopCanonical(i: nat)
    requires i < |OutputRange|
    ensures |OutputRange| == 8 && IsCanonicalHex(OutputRange[i])
  {
    var s := OutputRange[i];
    assert |s| == 7 && s[0] == '#';
    assert forall k | 1 <= k < 7 :: IsLowerHexDigit(s[k]);
  }

  /** Altitude `a` lies in the closed bracket between breakpoints i and i + 1. */
  predicate Brackets(i: nat, a: real)
    requires i < |InputRange| - 1
  {
    InputRange[i] as real <= a <= InputRange[i + 1] as real
  }

  /** The position of `a` inside bracket i, 0 at its lower end, 1 at its upper end. */
  function BracketFraction(i: nat, a: real): (t: real)
    requires i < |InputRange| - 1 && Brackets(i, a)
    ensures 0.0 <= t <= 1.0
    ensures a == InputRange[i] as real ==> t == 0.0
    ensures a == InputRange[i + 1] as real ==> t == 1.0
  {
    var lo, hi := InputRange[i] as real, InputRange[i + 1] as real;
    assert 0.0 < hi - lo;
    (a - lo) / (hi - lo)
  }

  /** The colour the loop returns once it has found bracket i (lines 57-59). */
  function BracketColor(i: nat, a: real): (color: string)
    requires i < |InputRange| - 1 && Brackets(i, a)
    ensures IsCanonicalHex(color)
  {
    StopCanonical(i);
    StopCanonical(i + 1);
    LerpColor(OutputRange[i], OutputRange[i + 1], BracketFraction(i, a))
  }

  /** Every altitude strictly inside the table's span lies in some bracket:
      the standalone form of what the loop invariant of InterpolateSunColor
      establishes when it shows the fallback return unreachable. */
  lemma {:induction false} BracketExists(a: real, k: nat)
    requires k < |InputRange| - 1
    requires InputRange[k] as real <= a < InputRange[|InputRange| - 1] as real
    ensures exists i :: k <= i < |InputRange| - 1 && Brackets(i, a)
    decreases |InputRange| - k
  {
    if !Brackets(k, a) {
      BracketExists(a, k + 1);
    }
  }

  /** Where two brackets meet, both give the colour of the shared breakpoint,
      so the ramp does not depend on which bracket the search picks. */
  lemma BracketsAgree(i: nat, j: nat, a: real)
    requires i < |InputRange| - 1 && j < |InputRange| - 1
    requires Brackets(i, a) && Brackets(j, a)
    ensures BracketColor(i, a) == BracketColor(j, a)
  {
    if i < j {
      BreakpointColor(i, j, a);
    } else if j < i {
      BreakpointColor(j, i, a);
    }
  }

  /** Two distinct brackets meet only at their shared breakpoint. */
  lemma BreakpointColor(i: nat, j: nat, a: real)
    requires i < j < |InputRange| - 1
    requires Brackets(i, a) && Brackets(j, a)
    ensures j == i + 1 && a == InputRange[j] as real
    ensures BracketColor(i, a) == OutputRange[j] == BracketColor(j, a)
  {
    BreakpointsIncrease();
    assert j == i + 1 && a == InputRange[j] as real;
    BracketColorAtUpper(i, a);
    BracketColorAtLower(j, a);
  }

  /** `color` is what the ramp gives at altitude `a`: a canonical colour,
      the first stop's colour at or below the first breakpoint, the last
      stop's at or above the last, each stop's own colour at its breakpoint,
      and in between the interpolation inside a bracket that holds `a` (every
      such bracket gives the same colour, see BracketsAgree). */
  ghost predicate IsRampColor(a: real, color: string) {
    && IsCanonicalHex(color)
    && (a <= InputRange[0] as real ==> color == OutputRange[0])
    && (a >= InputRange[|InputRange| - 1] as real ==> color == OutputRange[|OutputRange| - 1])
    && (forall k | 0 <= k < |InputRange| && a == InputRange[k] as real :: color == OutputRange[k])
    && (InputRange[0] as real < a < InputRange[|InputRange| - 1] as real ==>
          exists i :: 0 <= i < |InputRange| - 1 && Brackets(i, a) && color == BracketColor(i, a))
    && (forall i | 0 <= i < |InputRange| - 1 && Brackets(i, a) :: color == BracketColor(i, a))
  }

  /** At or below the first breakpoint the ramp is the first stop's colour. */
  lemma RampBelow(a: real)
    requires a <= InputRange[0] as real
    ensures IsRampColor(a, OutputRange[0])
  {
    BreakpointsIncrease();
    StopCanonical(0);
    if a == InputRange[0] as real {
      BracketColorInside(0, a);
    }
  }

  /** At or above the last breakpoint the ramp is the last stop's colour. */
  lemma RampAbove(a: real)
    requires a >= InputRange[|InputRange| - 1] as real
    ensures IsRampColor(a, OutputRange[|OutputRange| - 1])
  {
    BreakpointsIncrease();
    StopCanonical(|OutputRange| - 1);
    if a == InputRange[|InputRange| - 1] as real {
      BracketColorInside(|InputRange| - 2, a);
    }
  }

  /** Inside the span, the colour of any bracket holding `a` is the ramp's. */
  lemma BracketColorInside(i: nat, a: real)
    requires i < |InputRange| - 1 && Brackets(i, a)
    ensures IsRampColor(a, BracketColor(i, a))
  {
    BreakpointsIncrease();
    BracketColorUnique(i, a);
    BracketColorAtBreakpoint(i, a);
  }

  lemma BracketColorUnique(i: nat, a: real)
    requires i < |InputRange| - 1 && Brackets(i, a)
    ensures forall j | 0 <= j < |InputRange| - 1 && Brackets(j, a) :: BracketColor(i, a) == BracketColor(j, a)
  {
    forall j | 0 <= j < |InputRange| - 1 && Brackets(j, a)
      ensures BracketColor(i, a) == BracketColor(j, a)
    {
      BracketsAgree(i, j, a);
    }
  }

  lemma BracketColorAtBreakpoint(i: nat, a: real)
    requires i < |InputRange| - 1 && Brackets(i, a)
    ensures forall k | 0 <= k < |InputRange| && a == InputRange[k] as real :: BracketColor(i, a) == OutputRange[k]
  {
    BreakpointsIncrease();
    forall k | 0 <= k < |InputRange| && a == InputRange[k] as real
      ensures BracketColor(i, a) == OutputRange[k]
    {
      if k == i {
        BracketColorAtLower(i, a);
      } else {
        BracketColorAtUpper(i, a);
      }
    }
  }

  /** At the lower end of a bracket (t = 0) the colour is the lower stop's. */
  lemma BracketColorAtLower(i: nat, a: real)
    requires i < |InputRange| - 1 && a == InputRange[i] as real
    ensures BracketColor(i, a) == OutputRange[i]
  {
    StopCanonical(i);
    StopCanonical(i + 1);
    LerpCanonicalEndpoints(OutputRange[i], OutputRange[i + 1], BracketFraction(i, a));
  }

  /** At the upper end of a bracket (t = 1) the colour is the upper stop's. */
  lemma BracketColorAtUpper(i: nat, a: real)
    requires i < |InputRange| - 1 && a == InputRange[i + 1] as real
    ensures BracketColor(i, a) == OutputRange[i + 1]
  {
    StopCanonical(i);
    StopCanonical(i + 1);
    LerpCanonicalEndpoints(OutputRange[i], OutputRange[i + 1], BracketFraction(i, a));
  }

  /** interpolateSunColor(altitude): clamp at both ends of the table, otherwise
      interpolate inside the first bracket that holds the altitude. */
  method InterpolateSunColor(altitude: real) returns (color: string)
    ensures IsRampColor(altitude, color)
  {
    if altitude <= InputRange[0] as real {
      RampBelow(altitude);
      return OutputRange[0];
    }
    if altitude >= InputRange[|InputRange| - 1] as real {
      RampAbove(altitude);
      return OutputRange[|OutputRange| - 1];
    }
    var fallback := OutputRange[0];
    for i := 0 to |InputRange| - 1
      invariant InputRange[i] as real < altitude
    {
      if InputRange[i] as real <= altitude <= InputRange[i + 1] as real {
        var t := BracketFraction(i, altitude);
        StopCanonical(i);
        StopCanonical(i + 1);
        color := LerpColor(OutputRange[i], OutputRange[i + 1], t);
        BracketColorInside(i, altitude);
        return;
      }
    }
    assert false;  // the brackets cover every altitude strictly inside the span
    return fallback;
  }
}
