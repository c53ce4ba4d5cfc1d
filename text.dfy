/**
  The string operations the cleaning pipeline relies on: Python's
  `str.strip()`, `str.lower()`, the substring test `sub in s`, `str(int)`
  and `sep.join(xs)`.
 */
module Text {

  // ---------------------------------------------------------------------
  // Whitespace and strip()
  // ---------------------------------------------------------------------

  /** Python's `str.isspace()` for one character. */
  predicate IsSpace(c: char) {
    || ('\t' <= c <= '\r')
    || ('\U{1C}' <= c <= ' ')
    || c == '\U{85}' || c == '\U{A0}' || c == '\U{1680}'
    || ('\U{2000}' <= c <= '\U{200A}')
    || c == '\U{2028}' || c == '\U{2029}' || c == '\U{202F}' || c == '\U{205F}' || c == '\U{3000}'
  }

  /** Drops the leading whitespace: the result is the longest suffix of `s` not starting with whitespace. */
  function TrimStart(s: string): (r: string)
    ensures |r| <= |s| && r == s[|s| - |r|..]
    ensures forall k :: 0 <= k < |s| - |r| ==> IsSpace(s[k])
    ensures |r| > 0 ==> !IsSpace(r[0])
    decreases |s|
  {
    if |s| > 0 && IsSpace(s[0]) then TrimStart(s[1..]) else s
  }

  /** Drops the trailing whitespace: the result is the longest prefix of `s` not ending with whitespace. */
  function TrimEnd(s: string): (r: string)
    ensures |r| <= |s| && r == s[..|r|]
    ensures forall k :: |r| <= k < |s| ==> IsSpace(s[k])
    ensures |r| > 0 ==> !IsSpace(r[|r| - 1])
    decreases |s|
  {
    if |s| > 0 && IsSpace(s[|s| - 1]) then TrimEnd(s[..|s| - 1]) else s
  }

  /** Python's `s.strip()`: the whitespace at both ends removed. */
  function Strip(s: string): string {
    TrimEnd(TrimStart(s))
  }

  /** `s.strip()` has length zero: the test that marks a skill row as empty. */
  predicate IsBlank(s: string) {
    |Strip(s)| == 0
  }

  lemma {:induction false} TrimStartAllSpace(s: string)
    requires forall k :: 0 <= k < |s| ==> IsSpace(s[k])
    ensures TrimStart(s) == ""
    decreases |s|
  {
    if |s| > 0 {
      TrimStartAllSpace(s[1..]);
    }
  }

  /** A string is blank exactly when every one of its characters is whitespace. */
  lemma BlankIffAllSpace(s: string)
    ensures IsBlank(s) <==> forall k :: 0 <= k < |s| ==> IsSpace(s[k])
  {
    if forall k :: 0 <= k < |s| ==> IsSpace(s[k]) {
      TrimStartAllSpace(s);
    } else {
      var k :| 0 <= k < |s| && !IsSpace(s[k]);
      NonSpaceNotBlank(s, k);
    }
  }

  /** A string with a character that is not whitespace is not blank. */
  lemma NonSpaceNotBlank(s: string, k: nat)
    requires k < |s| && !IsSpace(s[k])
    ensures |Strip(s)| > 0
  {
    var t := TrimStart(s);
    var i := |s| - |t|;
    assert k >= i;
    assert t[k - i] == s[k];
    TrimEndNonEmpty(t, k - i);
  }

  /** Trimming the end of a string keeps it non-empty when some character of it is not whitespace. */
  lemma TrimEndNonEmpty(t: string, k: nat)
    requires k < |t| && !IsSpace(t[k])
    ensures |TrimEnd(t)| > k
  {
  }



  /**
    Strip removes whitespace only: the result is a slice `s[i..j]` of the
    input with only whitespace before `i` and after `j`, and it neither
    starts nor ends with whitespace.
   */
  lemma StripIsSlice(s: string) returns (i: nat, j: nat)
    ensures i <= j <= |s| && Strip(s) == s[i..j]
    ensures forall k :: 0 <= k < i ==> IsSpace(s[k])
    ensures forall k :: j <= k < |s| ==> IsSpace(s[k])
    ensures |Strip(s)| > 0 ==> !IsSpace(Strip(s)[0]) && !IsSpace(Strip(s)[|Strip(s)| - 1])
  {
    var t := TrimStart(s);
    var u := TrimEnd(t);
    i := |s| - |t|;
    j := i + |u|;
    PrefixOfSuffix(s, i, |u|);
    forall k | j <= k < |s|
      ensures IsSpace(s[k])
    {
      assert s[k] == t[k - i];
    }
  }

  /** The first `n` characters of the suffix from `i` are the slice from `i` to `i + n`. */
  lemma PrefixOfSuffix(s: string, i: nat, n: nat)
    requires i + n <= |s|
    ensures s[i..][..n] == s[i..i + n]
  {
  }

  // ---------------------------------------------------------------------
  // Case folding
  // ---------------------------------------------------------------------

  /**
    `str.lower()` on one character, for the Latin capitals A-Z and the
    Cyrillic capitals U+0400-U+042F (the alphabets of the sheets); every
    other character is left as it is.
   */
  function LowerChar(c: char): char {
    if 'A' <= c <= 'Z' || '\U{410}' <= c <= '\U{42F}' then (c as int + 32) as char
    else if '\U{400}' <= c <= '\U{40F}' then (c as int + 80) as char
    else c
  }

  /** `s.lower()`, character by character. */
  function Lower(s: string): string {
    seq(|s|, k requires 0 <= k < |s| => LowerChar(s[k]))
  }

  // ---------------------------------------------------------------------
  // Substring test
  // ---------------------------------------------------------------------

  /** Python's `sub in s` for two strings. */
  predicate Contains(s: string, sub: string)
    decreases |s|
  {
    sub <= s || (|s| > 0 && Contains(s[1..], sub))
  }

  /** `sub` is found in `s` starting at index `i`. */
  predicate OccursAt(s: string, sub: string, i: int) {
    0 <= i && i + |sub| <= |s| && s[i..i + |sub|] == sub
  }

  /** A substring found by Contains is found at some index. */
  lemma {:induction false} ContainsHasOccurrence(s: string, sub: string) returns (i: nat)
    requires Contains(s, sub)
    ensures OccursAt(s, sub, i)
    decreases |s|
  {
    if sub <= s {
      i := 0;
    } else {
      var i' := ContainsHasOccurrence(s[1..], sub);
      i := i' + 1;
      assert s[i..i + |sub|] == s[1..][i'..i' + |sub|];
    }
  }

  /** An occurrence at any index makes Contains true. */
  lemma {:induction false} OccurrenceContains(s: string, sub: string, i: int)
    requires OccursAt(s, sub, i)
    ensures Contains(s, sub)
    decreases |s|
  {
    if i == 0 {
      assert sub <= s;
    } else {
      assert s[1..][i - 1..i - 1 + |sub|] == s[i..i + |sub|];
      OccurrenceContains(s[1..], sub, i - 1);
    }
  }

  /** Contains is exactly "occurs at some index". */
  lemma ContainsIffOccurs(s: string, sub: string)
    ensures Contains(s, sub) <==> exists i :: OccursAt(s, sub, i)
  {
    if Contains(s, sub) {
      var i := ContainsHasOccurrence(s, sub);
    }
    if exists i :: OccursAt(s, sub, i) {
      var i :| OccursAt(s, sub, i);
      OccurrenceContains(s, sub, i);
    }
  }

  /** Every string contains itself and contains the empty string. */
  lemma ContainsSelfAndEmpty(s: string)
    ensures Contains(s, s) && Contains(s, "")
  {
    assert s <= s;
    assert "" <= s;
  }

  /** A non-empty substring brings its first character into the string. */
  lemma ContainsFirstChar(s: string, sub: string)
    requires Contains(s, sub) && |sub| > 0
    ensures sub[0] in s
  {
    var i := ContainsHasOccurrence(s, sub);
    assert s[i] == sub[0];
  }

  /** Case folding preserves occurrences: `sub in s` implies `sub.lower() in s.lower()`. */
  lemma ContainsLower(s: string, sub: string)
    requires Contains(s, sub)
    ensures Contains(Lower(s), Lower(sub))
  {
    var i := ContainsHasOccurrence(s, sub);
    assert Lower(s)[i..i + |sub|] == Lower(sub);
    OccurrenceContains(Lower(s), Lower(sub), i);
  }

  /** An occurrence inside a slice is an occurrence in the slice. */
  lemma OccurrenceInSlice(s: string, sub: string, o: nat, i: nat, j: nat)
    requires OccursAt(s, sub, o) && i <= o && o + |sub| <= j <= |s|
    ensures Contains(s[i..j], sub)
  {
    OccursInSlice(s, sub, o, i, j);
    OccurrenceContains(s[i..j], sub, o - i);
  }

  /** An occurrence lying within a slice is an occurrence in the slice, shifted by the slice's start. */
  lemma OccursInSlice(s: string, sub: string, o: nat, i: nat, j: nat)
    requires OccursAt(s, sub, o) && i <= o && o + |sub| <= j <= |s|
    ensures OccursAt(s[i..j], sub, o - i)
  {
    var t := s[i..j];
    assert forall k :: o - i <= k < o - i + |sub| ==> t[k] == s[i + k];
    assert t[o - i..o - i + |sub|] == s[o..o + |sub|];
  }


  /**
    An occurrence of a word that neither starts nor ends with whitespace
    survives stripping the text around it.
   */
  lemma ContainsStrip(s: string, sub: string)
    requires Contains(s, sub)
    requires |sub| > 0 ==> !IsSpace(sub[0]) && !IsSpace(sub[|sub| - 1])
    ensures Contains(Strip(s), sub)
  {
    var o := ContainsHasOccurrence(s, sub);
    var i, j := StripIsSlice(s);
    if |sub| == 0 {
      ContainsSelfAndEmpty(Strip(s));
    } else {
      OccurrenceInside(s, sub, o, i, j);
      OccurrenceInSlice(s, sub, o, i, j);
    }
  }

  /** An occurrence that neither starts nor ends with whitespace lies inside any slice with only whitespace around it. */
  lemma OccurrenceInside(s: string, sub: string, o: nat, i: nat, j: nat)
    requires OccursAt(s, sub, o) && |sub| > 0 && !IsSpace(sub[0]) && !IsSpace(sub[|sub| - 1])
    requires i <= j <= |s|
    requires forall k :: 0 <= k < i ==> IsSpace(s[k])
    requires forall k :: j <= k < |s| ==> IsSpace(s[k])
    ensures i <= o && o + |sub| <= j
  {
    var n := |sub|;
    assert s[o] == sub[0] by { assert s[o..o + n][0] == s[o]; }
    assert s[o + n - 1] == sub[n - 1] by { assert s[o..o + n][n - 1] == s[o + n - 1]; }
  }

  // ---------------------------------------------------------------------
  // Decimal numerals: str(int)
  // ---------------------------------------------------------------------

  predicate IsDigit(c: char) {
    '0' <= c <= '9'
  }

  function DigitChar(d: nat): (c: char)
    requires d < 10
    ensures IsDigit(c) && c as int - '0' as int == d
  {
    ('0' as int + d) as char
  }

  /** `str(n)` for a non-negative integer: its decimal digits, without leading zeros. */
  function NatToString(n: nat): (r: string)
    ensures |r| > 0 && AllDigits(r)
    ensures r[0] == '0' ==> n == 0
    decreases n
  {
    if n < 10 then [DigitChar(n)] else NatToString(n / 10) + [DigitChar(n % 10)]
  }

  /** `str(n)` for any integer: a minus sign before the digits of a negative number. */
  function IntToString(n: int): string {
    if n < 0 then "-" + NatToString(-n) else NatToString(n)
  }

  predicate AllDigits(s: string) {
    forall k :: 0 <= k < |s| ==> IsDigit(s[k])
  }

  /** The number a string of decimal digits denotes. */
  function DigitsValue(s: string): nat
    requires AllDigits(s)
  {
    if |s| == 0 then 0
    else
      assert IsDigit(s[|s| - 1]);
      DigitsValue(s[..|s| - 1]) * 10 + (s[|s| - 1] as int - '0' as int)
  }

  /** A decimal integer numeral as `str(int)` writes it: an optional minus sign and at least one digit. */
  predicate IsNumeral(s: string) {
    if |s| > 0 && s[0] == '-' then |s| > 1 && AllDigits(s[1..]) else |s| > 0 && AllDigits(s)
  }

  /** The integer an `IsNumeral` string denotes. */
  function NumeralValue(s: string): int
    requires IsNumeral(s)
  {
    if |s| > 0 && s[0] == '-' then 0 - DigitsValue(s[1..]) else DigitsValue(s)
  }

  lemma {:induction false} NatToStringValue(n: nat)
    ensures DigitsValue(NatToString(n)) == n
    decreases n
  {
    if n >= 10 {
      NatToStringValue(n / 10);
      var r := NatToString(n);
      assert r[..|r| - 1] == NatToString(n / 10);
    }
  }

  /** Reading back `str(n)` gives `n`, for every integer. */
  lemma IntToStringRoundTrip(n: int)
    ensures IsNumeral(IntToString(n)) && NumeralValue(IntToString(n)) == n
  {
    if n < 0 {
      NatToStringValue(-n);
      assert IntToString(n)[1..] == NatToString(-n);
    } else {
      NatToStringValue(n);
    }
  }

  // ---------------------------------------------------------------------
  // sep.join(xs) and its inverse
  // ---------------------------------------------------------------------

  /** Python's `sep.join(xs)`. */
  function Join(xs: seq<string>, sep: string): string
    decreases |xs|
  {
    if |xs| == 0 then ""
    else if |xs| == 1 then xs[0]
    else xs[0] + sep + Join(xs[1..], sep)
  }

  /** Python's `s.split(sep)` for a non-empty separator: cut at each leftmost occurrence. */
  function Split(s: string, sep: string): (parts: seq<string>)
    requires |sep| > 0
    ensures |parts| > 0
    decreases |s|
  {
    if |s| < |sep| then [s]
    else if s[..|sep|] == sep then [""] + Split(s[|sep|..], sep)
    else
      var rest := Split(s[1..], sep);
      [[s[0]] + rest[0]] + rest[1..]
  }

  /** A piece free of the separator's first character is glued to the first part of what follows it. */
  lemma {:induction false} SplitPrefix(x: string, rest: string, sep: string)
    requires |sep| > 0 && sep[0] !in x
    ensures Split(x + rest, sep) == [x + Split(rest, sep)[0]] + Split(rest, sep)[1..]
    decreases |x|
  {
    if |x| > 0 {
      var s := x + rest;
      assert s[0] == x[0];
      if |s| < |sep| {
        assert Split(rest, sep) == [rest];
      } else {
        assert s[..|sep|] != sep by { assert s[..|sep|][0] == x[0]; }
        assert s[1..] == x[1..] + rest;
        SplitPrefix(x[1..], rest, sep);
        assert [x[0]] + (x[1..] + Split(rest, sep)[0]) == x + Split(rest, sep)[0];
      }
    } else {
      var parts := Split(rest, sep);
      assert x + rest == rest;
      assert x + parts[0] == parts[0];
      assert parts == [parts[0]] + parts[1..];
    }
  }

  /**
    Splitting at the separator undoes joining with it, for a non-empty list
    whose items do not contain the separator's first character.
   */
  lemma {:induction false} SplitJoin(xs: seq<string>, sep: string)
    requires |sep| > 0 && |xs| > 0
    requires forall k :: 0 <= k < |xs| ==> sep[0] !in xs[k]
    ensures Split(Join(xs, sep), sep) == xs
    decreases |xs|
  {
    if |xs| == 1 {
      SplitPrefix(xs[0], "", sep);
      assert xs[0] + "" == xs[0];
    } else {
      var tail := Join(xs[1..], sep);
      assert Join(xs, sep) == xs[0] + (sep + tail);
      SplitPrefix(xs[0], sep + tail, sep);
      assert (sep + tail)[..|sep|] == sep;
      assert (sep + tail)[|sep|..] == tail;
      SplitJoin(xs[1..], sep);
      assert |sep + tail| >= |sep|;
      assert Split(sep + tail, sep) == [""] + xs[1..];
      assert xs[0] + "" == xs[0];
      assert Split(Join(xs, sep), sep) == [xs[0]] + xs[1..];
    }
  }
}
