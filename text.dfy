/**
 * The string rules the portal relies on, stated over `seq<char>`:
 * JavaScript's `trim`, ASCII case folding, `startsWith` / `endsWith` / `includes`,
 * `split` on one character, decimal rendering of naturals, `parseInt(s, 10)` and
 * `padStart(2, '0')`.
 */
module Text {
  import opened Common

  predicate IsDigit(c: char) { '0' <= c <= '9' }
  predicate IsLower(c: char) { 'a' <= c <= 'z' }
  predicate IsUpper(c: char) { 'A' <= c <= 'Z' }
  predicate IsAsciiAlnum(c: char) { IsDigit(c) || IsLower(c) || IsUpper(c) }

  predicate AllDigits(s: string) { forall i :: 0 <= i < |s| ==> IsDigit(s[i]) }
  predicate AllLower(s: string) { forall i :: 0 <= i < |s| ==> IsLower(s[i]) }

  predicate StartsWith(s: string, prefix: string) { |prefix| <= |s| && s[..|prefix|] == prefix }
  predicate EndsWith(s: string, suffix: string) { |suffix| <= |s| && s[|s| - |suffix|..] == suffix }

  /** `s.includes(t)`: `t` occurs in `s` at some offset. */
  predicate Contains(s: string, t: string)
    decreases |s|
  {
    StartsWith(s, t) || (s != [] && Contains(s[1..], t))
  }

  /** `Contains` means occurring at an offset, in both directions. */
  lemma {:induction false} ContainsIff(s: string, t: string)
    ensures Contains(s, t) <==> exists i :: 0 <= i <= |s| - |t| && StartsWith(s[i..], t)
    decreases |s|
  {
    if StartsWith(s, t) {
      assert s[0..] == s;
    } else if s != [] {
      ContainsIff(s[1..], t);
      if Contains(s[1..], t) {
        var i :| 0 <= i <= |s[1..]| - |t| && StartsWith(s[1..][i..], t);
        assert s[1..][i..] == s[i + 1..];
      }
      if exists i :: 0 <= i <= |s| - |t| && StartsWith(s[i..], t) {
        var i :| 0 <= i <= |s| - |t| && StartsWith(s[i..], t);
        assert i != 0 by { assert s[0..] == s; }
        assert s[1..][i - 1..] == s[i..];
      }
    } else {
      assert s[0..] == s;
    }
  }

  // ---------------------------------------------------------------------------
  // Case folding (ASCII only)

  function LowerChar(c: char): (r: char)
    ensures IsUpper(c) ==> IsLower(r) && r as int == c as int + 32
    ensures !IsUpper(c) ==> r == c
  {
    if IsUpper(c) then (c as int + 32) as char else c
  }

  /** `s.toLowerCase()` restricted to ASCII letters. */
  function ToLower(s: string): (r: string)
    ensures |r| == |s|
    ensures forall i :: 0 <= i < |s| ==> r[i] == LowerChar(s[i])
  {
    seq(|s|, i requires 0 <= i < |s| => LowerChar(s[i]))
  }

  lemma ToLowerIdempotent(s: string)
    ensures ToLower(ToLower(s)) == ToLower(s)
  {
  }

  // ---------------------------------------------------------------------------
  // Whitespace and trim

  /**
   * The characters JavaScript's `trim` removes: the WhiteSpace and
   * LineTerminator productions of ECMAScript (including U+3000, the
   * ideographic space of Japanese input methods).
   */
  predicate IsSpace(c: char) {
    c == '\t' || c == '\n' || c == '\U{B}' || c == '\U{C}' || c == '\r' || c == ' '
    || c == '\U{A0}' || c == '\U{1680}' || ('\U{2000}' <= c <= '\U{200A}')
    || c == '\U{2028}' || c == '\U{2029}' || c == '\U{202F}' || c == '\U{205F}'
    || c == '\U{3000}' || c == '\U{FEFF}'
  }

  predicate AllSpace(s: string) { forall i :: 0 <= i < |s| ==> IsSpace(s[i]) }

  /** Index of the first non-space character of `s[from..]` ( |s| when there is none). */
  function SkipSpaces(s: string, from: nat): (k: nat)
    requires from <= |s|
    ensures from <= k <= |s|
    ensures forall i :: from <= i < k ==> IsSpace(s[i])
    ensures k < |s| ==> !IsSpace(s[k])
    decreases |s| - from
  {
    if from == |s| || !IsSpace(s[from]) then from else SkipSpaces(s, from + 1)
  }

  /** Length of `s[..upto]` once its trailing spaces are cut off. */
  function TrimmedEnd(s: string, upto: nat): (k: nat)
    requires upto <= |s|
    ensures k <= upto
    ensures forall i :: k <= i < upto ==> IsSpace(s[i])
    ensures k > 0 ==> !IsSpace(s[k - 1])
  {
    if upto == 0 || !IsSpace(s[upto - 1]) then upto else TrimmedEnd(s, upto - 1)
  }

  /** `s.trim()`. */
  function Trim(s: string): (r: string)
  {
    var start := SkipSpaces(s, 0);
    var end := TrimmedEnd(s, |s|);
    if end <= start then [] else s[start..end]
  }

  /** Trim removes only surrounding spaces: what is left is a slice of `s`
      with no space at either end, and everything cut away was a space. */
  lemma TrimSpec(s: string)
    ensures exists a, b :: (0 <= a <= b <= |s| && Trim(s) == s[a..b]
                            && AllSpace(s[..a]) && AllSpace(s[b..]))
    ensures Trim(s) != [] ==> !IsSpace(Trim(s)[0]) && !IsSpace(Trim(s)[|Trim(s)| - 1])
  {
    var start := SkipSpaces(s, 0);
    var end := TrimmedEnd(s, |s|);
    if end <= start {
      assert start == |s|;
      assert Trim(s) == s[start..start];
    } else {
      assert AllSpace(s[end..]) by {
        forall i | 0 <= i < |s[end..]| ensures IsSpace(s[end..][i]) {
          assert s[end..][i] == s[end + i];
        }
      }
      assert AllSpace(s[..start]);
      assert 0 <= start <= end <= |s| && Trim(s) == s[start..end];
    }
  }

  /** A string trims to empty exactly when it is all whitespace. */
  lemma TrimEmptyIff(s: string)
    ensures Trim(s) == [] <==> AllSpace(s)
  {
    var start := SkipSpaces(s, 0);
    var end := TrimmedEnd(s, |s|);
    if start < |s| {
      assert !IsSpace(s[start]);
      assert end > start;
      assert Trim(s)[0] == s[start];
    }
  }

  lemma TrimOfLower(s: string)
    ensures Trim(ToLower(s)) == ToLower(Trim(s))
  {
    var l := ToLower(s);
    assert forall i :: 0 <= i < |s| ==> (IsSpace(l[i]) <==> IsSpace(s[i]));
    SkipSpacesOfLower(s, 0);
    TrimmedEndOfLower(s, |s|);
  }

  lemma {:induction false} SkipSpacesOfLower(s: string, from: nat)
    requires from <= |s|
    ensures SkipSpaces(ToLower(s), from) == SkipSpaces(s, from)
    decreases |s| - from
  {
    if from < |s| && IsSpace(s[from]) {
      assert IsSpace(ToLower(s)[from]);
      SkipSpacesOfLower(s, from + 1);
    }
  }

  lemma {:induction false} TrimmedEndOfLower(s: string, upto: nat)
    requires upto <= |s|
    ensures TrimmedEnd(ToLower(s), upto) == TrimmedEnd(s, upto)
  {
    if upto > 0 && IsSpace(s[upto - 1]) {
      assert IsSpace(ToLower(s)[upto - 1]);
      TrimmedEndOfLower(s, upto - 1);
    }
  }

  // ---------------------------------------------------------------------------
  // Splitting on one character

  /** Index of the first `c` in `s`, or |s| when `c` does not occur. */
  function IndexOf(s: string, c: char): (k: nat)
    ensures k <= |s|
    ensures forall i :: 0 <= i < k ==> s[i] != c
    ensures k < |s| ==> s[k] == c
  {
    if s == [] then 0 else if s[0] == c then 0 else 1 + IndexOf(s[1..], c)
  }

  /** `s.split(c)` for a one-character separator: the pieces between the separators. */
  function Split(s: string, c: char): (parts: seq<string>)
    ensures |parts| >= 1
    ensures forall j :: 0 <= j < |parts| ==> c !in parts[j]
    decreases |s|
  {
    var k := IndexOf(s, c);
    if k == |s| then [s] else [s[..k]] + Split(s[k + 1..], c)
  }

  /** `parts.join(c)`. */
  function Join(parts: seq<string>, c: char): string
    requires |parts| >= 1
  {
    if |parts| == 1 then parts[0] else parts[0] + [c] + Join(parts[1..], c)
  }

  /** Splitting and joining on the same character gives the string back. */
  lemma {:induction false} JoinSplit(s: string, c: char)
    ensures Join(Split(s, c), c) == s
    decreases |s|
  {
    var k := IndexOf(s, c);
    if k < |s| {
      JoinSplit(s[k + 1..], c);
      assert s == s[..k] + [c] + s[k + 1..];
    }
  }

  /** Joining pieces that do not contain the separator and splitting again gives the pieces back. */
  lemma {:induction false} SplitJoin(parts: seq<string>, c: char)
    requires |parts| >= 1
    requires forall j :: 0 <= j < |parts| ==> c !in parts[j]
    ensures Split(Join(parts, c), c) == parts
    decreases |parts|
  {
    var s := Join(parts, c);
    if |parts| == 1 {
      IndexOfAbsent(s, c);
    } else {
      var rest := Join(parts[1..], c);
      assert s == parts[0] + [c] + rest;
      IndexOfAt(parts[0], c, rest);
      assert s[..|parts[0]|] == parts[0];
      assert s[|parts[0]| + 1..] == rest;
      SplitJoin(parts[1..], c);
    }
  }

  lemma IndexOfAbsent(s: string, c: char)
    requires c !in s
    ensures IndexOf(s, c) == |s|
  {
  }

  lemma IndexOfAt(a: string, c: char, b: string)
    requires c !in a
    ensures IndexOf(a + [c] + b, c) == |a|
  {
    var s := a + [c] + b;
    assert s[|a|] == c;
    assert forall i :: 0 <= i < |a| ==> s[i] == a[i];
  }

  /** The text before the first `c` (the whole string when `c` does not occur): `s.split(c)[0]`. */
  lemma SplitHead(s: string, c: char)
    ensures Split(s, c)[0] == s[..IndexOf(s, c)]
  {
  }

  // ---------------------------------------------------------------------------
  // Decimal numbers

  function DigitChar(d: nat): (c: char)
    requires d < 10
    ensures IsDigit(c)
  {
    (('0' as int) + d) as char
  }

  function DigitValue(c: char): (d: nat)
    requires IsDigit(c)
    ensures d < 10
  {
    (c as int) - ('0' as int)
  }

  /** `n.toString()` for a natural number: decimal digits without leading zeros. */
  function NatToString(n: nat): (r: string)
    ensures |r| >= 1 && AllDigits(r)
    ensures |r| > 1 ==> r[0] != '0'
    decreases n
  {
    if n < 10 then [DigitChar(n)] else NatToString(n / 10) + [DigitChar(n % 10)]
  }

  /** The value of a string of decimal digits (0 for the empty string). */
  function DigitsValue(s: string): nat
    requires AllDigits(s)
  {
    if s == [] then 0 else 10 * DigitsValue(s[..|s| - 1]) + DigitValue(s[|s| - 1])
  }

  /** A non-empty string of decimal digits, as a natural; anything else is rejected. */
  function ParseNat(s: string): (r: Option<nat>)
    ensures r.Some? <==> s != [] && AllDigits(s)
  {
    if s != [] && AllDigits(s) then Some(DigitsValue(s)) else None
  }

  lemma {:induction false} DigitsValueOfNatToString(n: nat)
    ensures DigitsValue(NatToString(n)) == n
    decreases n
  {
    var s := NatToString(n);
    if n >= 10 {
      DigitsValueOfNatToString(n / 10);
      assert s[..|s| - 1] == NatToString(n / 10);
    }
  }

  /** Decimal rendering is inverted by decimal parsing. */
  lemma ParseNatToString(n: nat)
    ensures ParseNat(NatToString(n)) == Some(n)
  {
    DigitsValueOfNatToString(n);
  }

  /** Leading zeros do not change the value of a digit string. */
  lemma {:induction false} DigitsValueLeadingZero(s: string)
    requires AllDigits(s)
    ensures AllDigits("0" + s) && DigitsValue("0" + s) == DigitsValue(s)
    decreases |s|
  {
    var t := "0" + s;
    if s != [] {
      assert t[..|t| - 1] == "0" + s[..|s| - 1];
      DigitsValueLeadingZero(s[..|s| - 1]);
    }
  }

  /** `s.padStart(2, '0')`. */
  function Pad2(s: string): (r: string)
    ensures |r| == if |s| < 2 then 2 else |s|
    ensures EndsWith(r, s)
    ensures forall i :: 0 <= i < |r| - |s| ==> r[i] == '0'
  {
    if |s| == 0 then "00" else if |s| == 1 then "0" + s else s
  }

  /** A two-digit field: a value below 100 padded to two digits reads back as itself. */
  lemma ParsePad2(n: nat)
    requires n < 100
    ensures |Pad2(NatToString(n))| == 2
    ensures ParseNat(Pad2(NatToString(n))) == Some(n)
  {
    var s := NatToString(n);
    DigitsValueOfNatToString(n);
    if n >= 10 {
      assert |NatToString(n / 10)| == 1;
    }
    if |s| == 1 {
      DigitsValueLeadingZero(s);
    }
  }

  // ---------------------------------------------------------------------------
  // parseInt

  /** A JavaScript number as far as the portal uses one: an integer or NaN. */
  datatype Number = Int(i: int) | NaN

  /** Length of the longest prefix of `s` made of decimal digits. */
  function DigitPrefix(s: string): (k: nat)
    ensures k <= |s| && AllDigits(s[..k])
    ensures k < |s| ==> !IsDigit(s[k])
  {
    if s == [] || !IsDigit(s[0]) then 0
    else
      var k := 1 + DigitPrefix(s[1..]);
      assert s[..k] == [s[0]] + s[1..][..k - 1];
      k
  }

  /**
   * `parseInt(s, 10)`: skip leading whitespace, read an optional sign, then the
   * longest run of decimal digits; NaN when that run is empty. Trailing text
   * after the digits is ignored.
   */
  function ParseInt(s: string): (r: Number)
  {
    var t := s[SkipSpaces(s, 0)..];
    var negative := |t| > 0 && t[0] == '-';
    var u := if |t| > 0 && (t[0] == '-' || t[0] == '+') then t[1..] else t;
    var k := DigitPrefix(u);
    if k == 0 then NaN
    else
      var v: int := DigitsValue(u[..k]);
      Int(if negative then -v else v)
  }

  /** `parseInt` reads back what `toString` wrote. */
  lemma ParseIntOfNatToString(n: nat)
    ensures ParseInt(NatToString(n)) == Int(n)
  {
    var s := NatToString(n);
    assert !IsSpace(s[0]);
    assert SkipSpaces(s, 0) == 0;
    assert s[0..] == s;
    var k := DigitPrefix(s);
    assert k == |s|;
    assert s[..k] == s;
    DigitsValueOfNatToString(n);
  }

  /** `parseInt` of a string with no digit at all is NaN (the empty select value, for one). */
  lemma ParseIntNoDigits(s: string)
    requires forall i :: 0 <= i < |s| ==> !IsDigit(s[i])
    ensures ParseInt(s) == NaN
  {
    var t := s[SkipSpaces(s, 0)..];
    var u := if |t| > 0 && (t[0] == '-' || t[0] == '+') then t[1..] else t;
    if |u| > 0 {
      assert u[0] in s;
    }
  }
}
