/**
 * `Color(hex:)`: the integer alpha, red, green and blue channels decoded from a
 * 3-, 6- or 8-digit hexadecimal colour string. The conversion of the channels to
 * floating-point components is not part of this model.
 */
module HexColor {
  import opened Text

  /** The four channels, alpha first, each meant to be a byte. */
  datatype Argb = Argb(a: int, r: int, g: int, b: int)

  predicate IsHexDigit(c: char) {
    ('0' <= c <= '9') || ('a' <= c <= 'f') || ('A' <= c <= 'F')
  }

  function HexDigitValue(c: char): (v: nat)
    requires IsHexDigit(c)
    ensures v < 16
  {
    if '0' <= c <= '9' then c as int - '0' as int
    else if 'a' <= c <= 'f' then c as int - 'a' as int + 10
    else c as int - 'A' as int + 10
  }

  predicate AllHex(s: string) {
    forall i :: 0 <= i < |s| ==> IsHexDigit(s[i])
  }

  function Pow16(n: nat): (p: nat)
    ensures p >= 1
  {
    if n == 0 then 1 else 16 * Pow16(n - 1)
  }

  /** The value of a string of hexadecimal digits, most significant first. */
  function HexValue(s: string): nat
    requires AllHex(s)
  {
    if s == [] then 0 else HexValue(s[..|s| - 1]) * 16 + HexDigitValue(s[|s| - 1])
  }

  /** `n` digits never spell a value of 16 to the power `n` or more. */
  lemma {:induction false} HexValueBound(s: string)
    requires AllHex(s)
    ensures HexValue(s) < Pow16(|s|)
  {
    if s != [] {
      HexValueBound(s[..|s| - 1]);
    }
  }

  /** The number of leading hexadecimal digits of `s`. */
  function HexRun(s: string): (n: nat)
    ensures n <= |s| && AllHex(s[..n])
    ensures n < |s| ==> !IsHexDigit(s[n])
  {
    if s == [] || !IsHexDigit(s[0]) then 0
    else
      var n := 1 + HexRun(s[1..]);
      assert forall i :: 1 <= i < n ==> s[..n][i] == s[1..][..n - 1][i - 1];
      n
  }

  /**
   * `Scanner.scanHexInt64`: an optional "0x" or "0X", then as many hexadecimal
   * digits as follow, read as a number; 0 when there are none.
   */
  function ScanHex(s: string): (v: nat)
    ensures v < Pow16(|s|)
  {
    var digits := if StartsWith(s, "0x") || StartsWith(s, "0X") then s[2..] else s;
    var n := HexRun(digits);
    PowMonotone(n, |s|);
    HexValueBound(digits[..n]);
    HexValue(digits[..n])
  }

  lemma {:induction false} PowMonotone(m: nat, n: nat)
    requires m <= n
    ensures Pow16(m) <= Pow16(n)
  {
    if m < n {
      PowMonotone(m, n - 1);
    }
  }

  lemma {:induction false} Pow16Values()
    ensures Pow16(3) == 0x1000 && Pow16(6) == 0x100_0000 && Pow16(8) == 0x1_0000_0000
  {
    assert Pow16(2) == 0x100;
    assert Pow16(4) == 0x10000;
    assert Pow16(5) == 0x10_0000;
    assert Pow16(7) == 0x1000_0000;
  }

  /** The three-digit layout: each nibble is one channel, repeated to fill a byte. */
  function Channels3(v: nat): (c: Argb)
    requires v < 0x1000
    ensures c.a == 255 && 0 <= c.r <= 255 && 0 <= c.g <= 255 && 0 <= c.b <= 255
  {
    Argb(255, (v / 0x100) * 17, (v / 0x10 % 0x10) * 17, (v % 0x10) * 17)
  }

  /** The six-digit layout: red, green and blue bytes, opaque. */
  function Channels6(v: nat): (c: Argb)
    requires v < 0x100_0000
    ensures c.a == 255 && 0 <= c.r <= 255 && 0 <= c.g <= 255 && 0 <= c.b <= 255
  {
    Argb(255, v / 0x10000, v / 0x100 % 0x100, v % 0x100)
  }

  /** The eight-digit layout: alpha, red, green and blue bytes. */
  function Channels8(v: nat): (c: Argb)
    requires v < 0x1_0000_0000
    ensures 0 <= c.a <= 255 && 0 <= c.r <= 255 && 0 <= c.g <= 255 && 0 <= c.b <= 255
  {
    Argb(v / 0x100_0000, v / 0x10000 % 0x100, v / 0x100 % 0x100, v % 0x100)
  }

  /**
   * The channels of an already trimmed string: its length picks the layout of the
   * scanned value, and any other length gives opaque black.
   */
  function Layout(s: string): (c: Argb)
    ensures 0 <= c.a <= 255 && 0 <= c.r <= 255 && 0 <= c.g <= 255 && 0 <= c.b <= 255
    ensures !(|s| in {3, 6, 8}) ==> c == Argb(255, 0, 0, 0)
    ensures |s| != 8 ==> c.a == 255
  {
    var v := ScanHex(s);
    Pow16Values();
    match |s|
    case 3 => Channels3(v)
    case 6 => Channels6(v)
    case 8 => Channels8(v)
    case _ => Argb(255, 0, 0, 0)
  }

  /**
   * `Color(hex:)`'s channels: the string is trimmed of non-alphanumeric characters
   * at both ends before its layout is read.
   */
  function Decode(hex: string): (c: Argb)
    ensures 0 <= c.a <= 255 && 0 <= c.r <= 255 && 0 <= c.g <= 255 && 0 <= c.b <= 255
  {
    Layout(Trim(hex, NonAlphanumerics))
  }

  /** A leading "#" (or any other non-alphanumeric character) does not change the colour. */
  lemma {:induction false} PrefixIgnored(c: char, hex: string)
    requires !IsAlphanumeric(c)
    ensures Decode([c] + hex) == Decode(hex)
  {
    TrimDropsLeading(c, hex, NonAlphanumerics);
  }

  /** A trailing non-alphanumeric character does not change the colour either. */
  lemma {:induction false} SuffixIgnored(c: char, hex: string)
    requires !IsAlphanumeric(c)
    ensures Decode(hex + [c]) == Decode(hex)
  {
    TrimDropsTrailing(c, hex, NonAlphanumerics);
  }

  /** The byte a pair of hexadecimal digits spells, high nibble first. */
  function PairValue(hi: char, lo: char): (v: nat)
    requires IsHexDigit(hi) && IsHexDigit(lo)
    ensures v < 0x100
  {
    HexDigitValue(hi) * 16 + HexDigitValue(lo)
  }

  /** Reading two more digits of `s` shifts what was read by a byte and adds their pair. */
  lemma {:induction false} HexValueTwoMore(s: string, k: nat)
    requires k + 2 <= |s| && AllHex(s)
    ensures HexValue(s[..k + 2]) == HexValue(s[..k]) * 0x100 + PairValue(s[k], s[k + 1])
  {
    assert s[..k + 2][..k + 1] == s[..k + 1];
    assert s[..k + 1][..k] == s[..k];
  }

  /** On a string of hexadecimal digits (no "0x"), the scanner reads all of it. */
  lemma {:induction false} ScanAllHex(s: string)
    requires AllHex(s)
    ensures ScanHex(s) == HexValue(s)
  {
    assert !StartsWith(s, "0x") && !StartsWith(s, "0X") by {
      if |s| >= 2 {
        assert IsHexDigit(s[1]);
      }
    }
    assert s[..|s|] == s;
  }

  /** A string of hexadecimal digits is not trimmed. */
  lemma {:induction false} DecodeIsLayout(s: string)
    requires AllHex(s)
    ensures Decode(s) == Layout(s)
  {
    TrimOfTrimmed(s, NonAlphanumerics);
  }

  /** On a string of hexadecimal digits, the layout is applied to the string's whole value. */
  lemma {:induction false} LayoutDigits(s: string)
    requires AllHex(s)
    ensures HexValue(s) < Pow16(|s|)
    ensures |s| == 3 ==> Layout(s) == Channels3(HexValue(s))
    ensures |s| == 6 ==> Layout(s) == Channels6(HexValue(s))
    ensures |s| == 8 ==> Layout(s) == Channels8(HexValue(s))
  {
    ScanAllHex(s);
    HexValueBound(s);
  }

  /**
   * Three digits: each one is a channel repeated as a nibble pair, so "F80" reads
   * as 0xFF, 0x88, 0x00, opaque.
   */
  lemma {:induction false} ThreeDigits(s: string)
    requires |s| == 3 && AllHex(s)
    ensures Decode(s) == Argb(255, PairValue(s[0], s[0]), PairValue(s[1], s[1]), PairValue(s[2], s[2]))
  {
    var X, Y, Z := HexDigitValue(s[0]), HexDigitValue(s[1]), HexDigitValue(s[2]);
    calc {
      Decode(s);
      { DecodeIsLayout(s); }
      Layout(s);
      { LayoutDigits(s); }
      Channels3(HexValue(s));
      { DigitsValue3(s); }
      Channels3(X * 0x100 + Y * 0x10 + Z);
      { Nibbles(X, Y, Z); }
      Argb(255, X * 16 + X, Y * 16 + Y, Z * 16 + Z);
    }
  }

  lemma {:induction false} DigitsValue3(s: string)
    requires |s| == 3 && AllHex(s)
    ensures HexValue(s) == HexDigitValue(s[0]) * 0x100 + HexDigitValue(s[1]) * 0x10 + HexDigitValue(s[2])
  {
    HexValueTwoMore(s, 1);
    assert s[..1][..0] == [];
    assert s[..3] == s;
  }

  /** Euclidean division is pinned down by a quotient and a remainder below the divisor. */
  lemma {:induction false} DivModOf(v: int, d: int, q: int, r: int)
    requires d > 0 && 0 <= r < d && v == q * d + r
    ensures v / d == q && v % d == r
  {
    var q', r' := v / d, v % d;
    assert q * d + r == q' * d + r';
    if q > q' {
      MulSub(q, q', d);
      MulAtLeast(q - q', d);
    } else if q < q' {
      MulSub(q', q, d);
      MulAtLeast(q' - q, d);
    }
  }

  lemma {:induction false} MulSub(a: int, b: int, d: int)
    ensures (a - b) * d == a * d - b * d
  {
  }

  lemma {:induction false} MulAtLeast(k: int, d: int)
    requires k >= 1 && d > 0
    ensures k * d >= d
  {
    assert k * d == (k - 1) * d + d;
  }

  lemma {:induction false} Nibbles(x: nat, y: nat, z: nat)
    requires x < 16 && y < 16 && z < 16
    ensures Channels3(x * 0x100 + y * 0x10 + z) == Argb(255, x * 16 + x, y * 16 + y, z * 16 + z)
  {
    var v := x * 0x100 + y * 0x10 + z;
    DivModOf(v, 0x100, x, y * 0x10 + z);
    DivModOf(v, 0x10, x * 16 + y, z);
    DivModOf(x * 16 + y, 0x10, x, y);
  }

  lemma {:induction false} DigitsValue4(s: string)
    requires |s| == 4 && AllHex(s)
    ensures HexValue(s) == PairValue(s[0], s[1]) * 0x100 + PairValue(s[2], s[3])
  {
    HexValueTwoMore(s, 0);
    HexValueTwoMore(s, 2);
    assert s[..4] == s;
  }

  lemma {:induction false} DigitsValue6(s: string)
    requires |s| == 6 && AllHex(s)
    ensures HexValue(s) == PairValue(s[0], s[1]) * 0x10000 + PairValue(s[2], s[3]) * 0x100 + PairValue(s[4], s[5])
  {
    DigitsValue4(s[..4]);
    HexValueTwoMore(s, 4);
    assert s[..6] == s;
  }

  lemma {:induction false} Bytes3(r: nat, g: nat, b: nat)
    requires r < 0x100 && g < 0x100 && b < 0x100
    ensures Channels6(r * 0x10000 + g * 0x100 + b) == Argb(255, r, g, b)
  {
    var v := r * 0x10000 + g * 0x100 + b;
    DivModOf(v, 0x10000, r, g * 0x100 + b);
    DivModOf(v, 0x100, r * 0x100 + g, b);
    DivModOf(r * 0x100 + g, 0x100, r, g);
  }

  lemma {:induction false} DigitsValue8(s: string)
    requires |s| == 8 && AllHex(s)
    ensures HexValue(s) == PairValue(s[0], s[1]) * 0x100_0000 + PairValue(s[2], s[3]) * 0x10000
                           + PairValue(s[4], s[5]) * 0x100 + PairValue(s[6], s[7])
  {
    DigitsValue6(s[..6]);
    HexValueTwoMore(s, 6);
    assert s[..8] == s;
  }

  lemma {:induction false} Bytes4(a: nat, r: nat, g: nat, b: nat)
    requires a < 0x100 && r < 0x100 && g < 0x100 && b < 0x100
    ensures Channels8(a * 0x100_0000 + r * 0x10000 + g * 0x100 + b) == Argb(a, r, g, b)
  {
    var v := a * 0x100_0000 + r * 0x10000 + g * 0x100 + b;
    DivModOf(v, 0x100_0000, a, r * 0x10000 + g * 0x100 + b);
    DivModOf(v, 0x10000, a * 0x100 + r, g * 0x100 + b);
    DivModOf(a * 0x100 + r, 0x100, a, r);
    DivModOf(v, 0x100, a * 0x10000 + r * 0x100 + g, b);
    DivModOf(a * 0x10000 + r * 0x100 + g, 0x100, a * 0x100 + r, g);
  }

  /** Six digits: opaque, with red, green and blue read from consecutive digit pairs. */
  lemma {:induction false} SixDigits(s: string)
    requires |s| == 6 && AllHex(s)
    ensures Decode(s) == Argb(255, PairValue(s[0], s[1]), PairValue(s[2], s[3]), PairValue(s[4], s[5]))
  {
    var r, g, b := PairValue(s[0], s[1]), PairValue(s[2], s[3]), PairValue(s[4], s[5]);
    calc {
      Decode(s);
      { DecodeIsLayout(s); }
      Layout(s);
      { LayoutDigits(s); }
      Channels6(HexValue(s));
      { DigitsValue6(s); }
      Channels6(r * 0x10000 + g * 0x100 + b);
      { Bytes3(r, g, b); }
      Argb(255, r, g, b);
    }
  }

  /** Eight digits: alpha, red, green and blue read from consecutive digit pairs. */
  lemma {:induction false} EightDigits(s: string)
    requires |s| == 8 && AllHex(s)
    ensures Decode(s) == Argb(PairValue(s[0], s[1]), PairValue(s[2], s[3]),
                              PairValue(s[4], s[5]), PairValue(s[6], s[7]))
  {
    var a, r, g, b := PairValue(s[0], s[1]), PairValue(s[2], s[3]), PairValue(s[4], s[5]), PairValue(s[6], s[7]);
    calc {
      Decode(s);
      { DecodeIsLayout(s); }
      Layout(s);
      { LayoutDigits(s); }
      Channels8(HexValue(s));
      { DigitsValue8(s); }
      Channels8(a * 0x100_0000 + r * 0x10000 + g * 0x100 + b);
      { Bytes4(a, r, g, b); }
      Argb(a, r, g, b);
    }
  }
}
