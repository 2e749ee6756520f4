/**
 * The string operations of Foundation that the app relies on, over `seq<char>`:
 * the character sets it trims and splits by, `trimmingCharacters(in:)`,
 * `components(separatedBy:)`, `joined(separator:)`, `contains`, `lowercased()`
 * and the decimal rendering and parsing of integers.
 */
module Text {

  /** The `CharacterSet`s the app passes to Foundation. */
  datatype CharClass = Whitespaces | Newlines | WhitespacesAndNewlines | NonAlphanumerics

  /** `CharacterSet.newlines`: U+000A through U+000D, U+0085, U+2028 and U+2029. */
  predicate IsNewline(c: char) {
    ('\n' <= c <= '\r') || c == '\U{85}' || c == '\U{2028}' || c == '\U{2029}'
  }

  /** `CharacterSet.whitespaces`: the tab and the space separators (Unicode category Zs). */
  predicate IsSpace(c: char) {
    c == '\t' || c == ' ' || c == '\U{A0}' || c == '\U{1680}' || ('\U{2000}' <= c <= '\U{200A}')
    || c == '\U{202F}' || c == '\U{205F}' || c == '\U{3000}'
  }

  predicate IsAsciiLetter(c: char) {
    ('a' <= c <= 'z') || ('A' <= c <= 'Z')
  }

  predicate IsDigit(c: char) {
    '0' <= c <= '9'
  }

  predicate IsAlphanumeric(c: char) {
    IsAsciiLetter(c) || IsDigit(c)
  }

  predicate InClass(c: char, cls: CharClass) {
    match cls
    case Whitespaces => IsSpace(c)
    case Newlines => IsNewline(c)
    case WhitespacesAndNewlines => IsSpace(c) || IsNewline(c)
    case NonAlphanumerics => !IsAlphanumeric(c)
  }

  predicate AllInClass(s: string, cls: CharClass) {
    forall i :: 0 <= i < |s| ==> InClass(s[i], cls)
  }

  // ---------------------------------------------------------------------------
  // Trimming
  // ---------------------------------------------------------------------------

  /** Drops the leading characters of `s` that are in `cls`. */
  function TrimStart(s: string, cls: CharClass): (r: string)
    ensures |r| <= |s| && r == s[|s| - |r|..]
    ensures AllInClass(s[..|s| - |r|], cls)
    ensures r != [] ==> !InClass(r[0], cls)
  {
    if s != [] && InClass(s[0], cls) then
      var r := TrimStart(s[1..], cls);
      TrimStartStep(s, r, cls);
      r
    else s
  }

  /** Drops the trailing characters of `s` that are in `cls`. */
  function TrimEnd(s: string, cls: CharClass): (r: string)
    ensures |r| <= |s| && r == s[..|r|]
    ensures AllInClass(s[|r|..], cls)
    ensures r != [] ==> !InClass(r[|r| - 1], cls)
  {
    if s != [] && InClass(s[|s| - 1], cls) then
      var r := TrimEnd(s[..|s| - 1], cls);
      TrimEndStep(s, r, cls);
      r
    else s
  }

  /** What trimming `s[1..]` leaves is also what trimming `s` leaves when `s[0]` is in `cls`. */
  lemma {:induction false} TrimStartStep(s: string, r: string, cls: CharClass)
    requires s != [] && InClass(s[0], cls)
    requires |r| <= |s| - 1 && r == s[1..][|s| - 1 - |r|..]
    requires AllInClass(s[1..][..|s| - 1 - |r|], cls)
    ensures r == s[|s| - |r|..]
    ensures AllInClass(s[..|s| - |r|], cls)
  {
    var k := |s| - |r|;
    assert s[1..][k - 1..] == s[k..];
    forall i | 0 <= i < k ensures InClass(s[..k][i], cls) {
      if i > 0 {
        assert s[..k][i] == s[1..][..k - 1][i - 1];
      }
    }
  }

  /** What trimming `s[..|s| - 1]` leaves is also what trimming `s` leaves when its last character is in `cls`. */
  lemma {:induction false} TrimEndStep(s: string, r: string, cls: CharClass)
    requires s != [] && InClass(s[|s| - 1], cls)
    requires |r| <= |s| - 1 && r == s[..|s| - 1][..|r|]
    requires AllInClass(s[..|s| - 1][|r|..], cls)
    ensures r == s[..|r|]
    ensures AllInClass(s[|r|..], cls)
  {
    var k := |r|;
    assert s[..|s| - 1][..k] == s[..k];
    forall i | 0 <= i < |s| - k ensures InClass(s[k..][i], cls) {
      if i < |s| - 1 - k {
        assert s[k..][i] == s[..|s| - 1][k..][i];
      }
    }
  }

  /** `trimmingCharacters(in: cls)`: the longest infix that neither starts nor ends in `cls`. */
  function Trim(s: string, cls: CharClass): (r: string)
    ensures |r| <= |s|
    ensures r == [] <==> AllInClass(s, cls)
    ensures r != [] ==> !InClass(r[0], cls) && !InClass(r[|r| - 1], cls)
  {
    TrimEmptyIffAll(s, cls);
    TrimEnd(TrimStart(s, cls), cls)
  }

  lemma {:induction false} TrimEmptyIffAll(s: string, cls: CharClass)
    ensures TrimEnd(TrimStart(s, cls), cls) == [] <==> AllInClass(s, cls)
  {
    var front := TrimStart(s, cls);
    var cut := |s| - |front|;
    if front == [] {
      assert s[..cut] == s;
    } else {
      assert s[cut] == front[0];
      assert !AllInClass(s, cls) by {
        assert !InClass(s[cut], cls);
      }
      assert TrimEnd(front, cls) != [] by {
        TrimEndKeepsFirst(front, cls);
      }
    }
  }

  /** Trimming the end never removes a first character that is outside `cls`. */
  lemma {:induction false} TrimEndKeepsFirst(s: string, cls: CharClass)
    requires s != [] && !InClass(s[0], cls)
    ensures TrimEnd(s, cls) != []
  {
    assert s[0..][0] == s[0];
  }

  /** Trimming a string that already starts and ends outside `cls` changes nothing. */
  lemma TrimOfTrimmed(s: string, cls: CharClass)
    requires s != [] ==> !InClass(s[0], cls) && !InClass(s[|s| - 1], cls)
    ensures Trim(s, cls) == s
  {
  }

  /** A leading character in `cls` does not change the trimmed result. */
  lemma {:induction false} TrimDropsLeading(c: char, s: string, cls: CharClass)
    requires InClass(c, cls)
    ensures Trim([c] + s, cls) == Trim(s, cls)
  {
    assert ([c] + s)[1..] == s;
  }

  /** A trailing character in `cls` does not change the trimmed result. */
  lemma {:induction false} TrimDropsTrailing(c: char, s: string, cls: CharClass)
    requires InClass(c, cls)
    ensures Trim(s + [c], cls) == Trim(s, cls)
  {
    TrimStartAppend(s, c, cls);
    var t := TrimStart(s, cls);
    if t == [] {
      assert [c][1..] == [];
    } else {
      assert (t + [c])[..|t|] == t;
    }
  }

  /** Trimming the start of `s + [c]` trims `s` and keeps `c`, unless all of `s` went. */
  lemma {:induction false} TrimStartAppend(s: string, c: char, cls: CharClass)
    ensures TrimStart(s + [c], cls) == if TrimStart(s, cls) == [] then TrimStart([c], cls) else TrimStart(s, cls) + [c]
  {
    if s == [] {
      assert s + [c] == [c];
    } else if InClass(s[0], cls) {
      assert TrimStart(s + [c], cls) == TrimStart(s[1..] + [c], cls) by {
        assert (s + [c])[0] == s[0] && (s + [c])[1..] == s[1..] + [c];
      }
      TrimStartAppend(s[1..], c, cls);
    } else {
      assert TrimStart(s + [c], cls) == s + [c] by {
        assert (s + [c])[0] == s[0];
      }
    }
  }

  /**
   * What trimming leaves is a piece of `s` cut out between two runs of characters
   * in `cls`: only characters of the set are removed, and only at the two ends.
   */
  lemma {:induction false} TrimIsInfix(s: string, cls: CharClass)
    ensures exists i, j ::
      (0 <= i <= j <= |s| && Trim(s, cls) == s[i..j] && AllInClass(s[..i], cls) && AllInClass(s[j..], cls))
  {
    var front := TrimStart(s, cls);
    var r := TrimEnd(front, cls);
    var i := |s| - |front|;
    var j := i + |r|;
    assert r == s[i..j] by {
      assert r == front[..|r|];
    }
    assert AllInClass(s[j..], cls) by {
      assert s[j..] == front[|r|..];
    }
  }

  // ---------------------------------------------------------------------------
  // Splitting and joining
  // ---------------------------------------------------------------------------

  /**
   * `components(separatedBy: cls)`: cuts `s` at every character of `cls`, so that
   * n separators give n + 1 components (empty ones included).
   */
  function Split(s: string, cls: CharClass): (r: seq<string>)
    ensures |r| == 1 + Count(s, cls)
  {
    if s == [] then [""]
    else
      var rest := Split(s[1..], cls);
      if InClass(s[0], cls) then [""] + rest
      else [[s[0]] + rest[0]] + rest[1..]
  }

  /** No component of a split contains a separator. */
  lemma {:induction false} SplitPartsClean(s: string, cls: CharClass)
    ensures forall k :: 0 <= k < |Split(s, cls)| ==> !HasInClass(Split(s, cls)[k], cls)
  {
    if s != [] {
      SplitPartsClean(s[1..], cls);
      var rest := Split(s[1..], cls);
      if !InClass(s[0], cls) {
        var head := [s[0]] + rest[0];
        assert !HasInClass(rest[0], cls);
        assert !HasInClass(head, cls) by {
          forall i | 0 <= i < |head| ensures !InClass(head[i], cls) {
            if i > 0 {
              assert head[i] == rest[0][i - 1];
            }
          }
        }
        assert Split(s, cls) == [head] + rest[1..];
      } else {
        assert Split(s, cls) == [""] + rest;
      }
    }
  }

  /** The number of characters of `s` in `cls`. */
  function Count(s: string, cls: CharClass): nat {
    if s == [] then 0 else (if InClass(s[0], cls) then 1 else 0) + Count(s[1..], cls)
  }

  predicate HasInClass(s: string, cls: CharClass) {
    exists i :: 0 <= i < |s| && InClass(s[i], cls)
  }

  lemma {:induction false} CountPositive(s: string, cls: CharClass)
    ensures Count(s, cls) > 0 <==> HasInClass(s, cls)
  {
    if s != [] {
      CountPositive(s[1..], cls);
      if HasInClass(s[1..], cls) {
        var i :| 0 <= i < |s[1..]| && InClass(s[1..][i], cls);
        assert InClass(s[i + 1], cls);
      }
      if HasInClass(s, cls) && !InClass(s[0], cls) {
        var i :| 0 <= i < |s| && InClass(s[i], cls);
        assert InClass(s[1..][i - 1], cls);
      }
    }
  }

  /** `joined(separator: sep)`. */
  function Join(parts: seq<string>, sep: string): string {
    if |parts| == 0 then ""
    else if |parts| == 1 then parts[0]
    else parts[0] + sep + Join(parts[1..], sep)
  }

  /** `s` with each character of `cls` replaced by `c`. */
  function Replace(s: string, cls: CharClass, c: char): (r: string)
    ensures |r| == |s|
    ensures forall i :: 0 <= i < |s| ==> r[i] == if InClass(s[i], cls) then c else s[i]
  {
    if s == [] then [] else [if InClass(s[0], cls) then c else s[0]] + Replace(s[1..], cls, c)
  }

  /** Splitting at `cls` and joining with `[c]` is replacing every separator by `c`. */
  lemma {:induction false} JoinSplit(s: string, cls: CharClass, c: char)
    ensures Join(Split(s, cls), [c]) == Replace(s, cls, c)
  {
    if s != [] {
      var rest := Split(s[1..], cls);
      JoinSplit(s[1..], cls, c);
      if !InClass(s[0], cls) && |rest| > 1 {
        assert Join(rest, [c]) == rest[0] + [c] + Join(rest[1..], [c]);
        assert Split(s, cls)[1..] == rest[1..];
      }
    }
  }

  predicate NoneInClassBefore(s: string, i: nat, cls: CharClass)
    requires i <= |s|
  {
    forall k :: 0 <= k < i ==> !InClass(s[k], cls)
  }

  /** The index of the first character of `s` in `cls`, if there is one. */
  function FirstInClass(s: string, cls: CharClass): (i: nat)
    ensures i <= |s|
    ensures i < |s| ==> InClass(s[i], cls)
  {
    if s == [] then 0
    else if InClass(s[0], cls) then 0
    else FirstInClass(s[1..], cls) + 1
  }

  /** No character before the first one in `cls` is in `cls`, and there is none exactly when the index is `|s|`. */
  lemma {:induction false} FirstInClassSpec(s: string, cls: CharClass)
    ensures NoneInClassBefore(s, FirstInClass(s, cls), cls)
    ensures FirstInClass(s, cls) == |s| <==> !HasInClass(s, cls)
  {
    if s != [] && !InClass(s[0], cls) {
      FirstInClassSpec(s[1..], cls);
      FirstInClassStep(s, cls, FirstInClass(s[1..], cls));
    }
  }

  lemma {:induction false} FirstInClassStep(s: string, cls: CharClass, j: nat)
    requires s != [] && !InClass(s[0], cls) && j <= |s| - 1
    requires NoneInClassBefore(s[1..], j, cls)
    requires j == |s| - 1 <==> !HasInClass(s[1..], cls)
    ensures NoneInClassBefore(s, j + 1, cls)
    ensures j + 1 == |s| <==> !HasInClass(s, cls)
  {
    forall k | 0 <= k < j + 1 ensures !InClass(s[k], cls) {
      if k > 0 {
        assert s[k] == s[1..][k - 1];
      }
    }
    if HasInClass(s, cls) {
      var k :| 0 <= k < |s| && InClass(s[k], cls);
      assert InClass(s[1..][k - 1], cls);
    }
    if HasInClass(s[1..], cls) {
      var k :| 0 <= k < |s[1..]| && InClass(s[1..][k], cls);
      assert InClass(s[k + 1], cls);
    }
  }

  /** The text before the first character of `cls` contains none. */
  lemma {:induction false} BeforeFirstInClass(s: string, cls: CharClass)
    ensures !HasInClass(s[..FirstInClass(s, cls)], cls)
  {
    FirstInClassSpec(s, cls);
    var p := s[..FirstInClass(s, cls)];
    forall k | 0 <= k < |p| ensures !InClass(p[k], cls) {
      assert p[k] == s[k];
    }
  }

  /** A character of `cls` with none before it is the first one. */
  lemma FirstInClassAt(s: string, cls: CharClass, j: nat)
    requires j < |s| && InClass(s[j], cls)
    requires forall k :: 0 <= k < j ==> !InClass(s[k], cls)
    ensures FirstInClass(s, cls) == j
  {
    FirstInClassSpec(s, cls);
  }

  lemma FirstInClassNone(s: string, cls: CharClass)
    requires !HasInClass(s, cls)
    ensures FirstInClass(s, cls) == |s| && s[..|s|] == s
  {
    FirstInClassSpec(s, cls);
  }

  /** The first component is the text before the first separator; the others are the split of the rest. */
  lemma {:induction false} SplitAtFirst(s: string, cls: CharClass)
    ensures var i := FirstInClass(s, cls);
      Split(s, cls)[0] == s[..i] &&
      (i == |s| ==> |Split(s, cls)| == 1) &&
      (i < |s| ==> Split(s, cls)[1..] == Split(s[i + 1..], cls))
  {
    if s != [] {
      if InClass(s[0], cls) {
        var rest := Split(s[1..], cls);
        assert Split(s, cls) == [""] + rest;
        assert ([""] + rest)[1..] == rest;
      } else {
        SplitAtFirst(s[1..], cls);
        SplitAtFirstStep(s, cls);
      }
    }
  }

  /** The inductive step of `SplitAtFirst`, for a first character outside `cls`. */
  lemma {:induction false} SplitAtFirstStep(s: string, cls: CharClass)
    requires s != [] && !InClass(s[0], cls)
    requires var j := FirstInClass(s[1..], cls);
      Split(s[1..], cls)[0] == s[1..][..j] &&
      (j == |s| - 1 ==> |Split(s[1..], cls)| == 1) &&
      (j < |s| - 1 ==> Split(s[1..], cls)[1..] == Split(s[1..][j + 1..], cls))
    ensures var i := FirstInClass(s, cls);
      Split(s, cls)[0] == s[..i] &&
      (i == |s| ==> |Split(s, cls)| == 1) &&
      (i < |s| ==> Split(s, cls)[1..] == Split(s[i + 1..], cls))
  {
    var rest := Split(s[1..], cls);
    var j := FirstInClass(s[1..], cls);
    assert FirstInClass(s, cls) == j + 1;
    var r := Split(s, cls);
    assert r == [[s[0]] + rest[0]] + rest[1..];
    assert s[..j + 1] == [s[0]] + s[1..][..j];
    if j < |s| - 1 {
      assert s[1..][j + 1..] == s[j + 2..];
    }
  }

  // ---------------------------------------------------------------------------
  // Searching
  // ---------------------------------------------------------------------------

  predicate StartsWith(s: string, p: string) {
    |p| <= |s| && s[..|p|] == p
  }

  predicate EndsWith(s: string, p: string) {
    |p| <= |s| && s[|s| - |p|..] == p
  }

  /** `s.contains(p)`: `p` occurs in `s` at some position. */
  predicate Contains(s: string, p: string)
    decreases |s|
  {
    StartsWith(s, p) || (s != [] && Contains(s[1..], p))
  }

  lemma {:induction false} ContainsAt(s: string, p: string, i: nat)
    requires i + |p| <= |s| && s[i..i + |p|] == p
    ensures Contains(s, p)
  {
    if i > 0 {
      assert s[1..][i - 1..i - 1 + |p|] == s[i..i + |p|];
      ContainsAt(s[1..], p, i - 1);
    }
  }

  /** An occurrence is no longer than the text, and the text holds its first character. */
  lemma {:induction false} ContainsBounds(s: string, p: string)
    requires Contains(s, p)
    ensures |p| <= |s|
    ensures p != [] ==> p[0] in s
    decreases |s|
  {
    if !StartsWith(s, p) {
      ContainsBounds(s[1..], p);
      if p != [] {
        assert p[0] in s[1..];
      }
    } else if p != [] {
      assert s[0] == p[0];
    }
  }

  lemma {:induction false} ContainsAppend(a: string, b: string, p: string)
    requires Contains(b, p)
    ensures Contains(a + b, p)
  {
    if a != [] {
      assert (a + b)[1..] == a[1..] + b;
      ContainsAppend(a[1..], b, p);
    } else {
      assert a + b == b;
    }
  }

  /**
   * `s.components(separatedBy: p).count - 1`: the number of non-overlapping
   * occurrences of `p` found scanning `s` from the left.
   */
  function Occurrences(s: string, p: string): (n: nat)
    requires p != []
    ensures n > 0 <==> Contains(s, p)
    decreases |s|
  {
    if s == [] then 0
    else if StartsWith(s, p) then 1 + Occurrences(s[|p|..], p)
    else Occurrences(s[1..], p)
  }

  // ---------------------------------------------------------------------------
  // Case mapping
  // ---------------------------------------------------------------------------

  function LowerChar(c: char): (r: char)
    ensures !('A' <= r <= 'Z')
  {
    if 'A' <= c <= 'Z' then (c as int + 32) as char else c
  }

  /** `lowercased()`, for the Latin letters A-Z. */
  function Lowercase(s: string): (r: string)
    ensures |r| == |s|
    ensures forall i :: 0 <= i < |s| ==> r[i] == LowerChar(s[i])
  {
    seq(|s|, i requires 0 <= i < |s| => LowerChar(s[i]))
  }

  // ---------------------------------------------------------------------------
  // Decimal numbers
  // ---------------------------------------------------------------------------

  function DigitChar(d: nat): (c: char)
    requires d < 10
    ensures IsDigit(c) && DigitValue(c) == d
  {
    (48 + d) as char
  }

  function DigitValue(c: char): (d: nat)
    requires IsDigit(c)
    ensures d < 10
  {
    c as int - 48
  }

  predicate AllDigits(s: string) {
    forall i :: 0 <= i < |s| ==> IsDigit(s[i])
  }

  /** `"\(n)"` for a non-negative integer: its decimal digits, without leading zeros. */
  function NatToString(n: nat): (s: string)
    ensures |s| >= 1 && AllDigits(s)
    ensures |s| > 1 ==> s[0] != '0'
  {
    if n < 10 then [DigitChar(n)] else NatToString(n / 10) + [DigitChar(n % 10)]
  }

  /** `"\(i)"` for any integer. */
  function IntToString(i: int): (s: string)
    ensures |s| >= 1
    ensures i < 0 <==> s[0] == '-'
  {
    if i < 0 then "-" + NatToString(-i) else NatToString(i)
  }

  /** The value of a string of decimal digits. */
  function DigitsValue(s: string): nat
    requires AllDigits(s)
  {
    if s == [] then 0 else DigitsValue(s[..|s| - 1]) * 10 + DigitValue(s[|s| - 1])
  }

  /** Reading back the decimal rendering of `n` gives `n`. */
  lemma {:induction false} NatToStringRoundTrip(n: nat)
    ensures DigitsValue(NatToString(n)) == n
  {
    if n >= 10 {
      var s := NatToString(n);
      NatToStringRoundTrip(n / 10);
      assert s[..|s| - 1] == NatToString(n / 10);
    }
  }

  /** `String(format: "%02d", i)`: at least two characters, zero-padded on the left. */
  function ZeroPad2(i: int): (s: string)
    ensures |s| >= 2
    ensures 0 <= i < 100 ==> |s| == 2 && AllDigits(s) && DigitsValue(s) == i
  {
    if 0 <= i < 10 then
      var s := "0" + NatToString(i);
      assert s[..1] == "0" && DigitsValue("0") == 0;
      s
    else if 0 <= i < 100 then
      NatToStringRoundTrip(i);
      NatToString(i)
    else
      IntToString(i)
  }
}
