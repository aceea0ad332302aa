/** The conventional Option datatype. */
module Wrappers {
  datatype Option<+T> = None | Some(value: T)
}

/**
 * The few operations on Python `str` values that the relay relies on:
 * substring membership (`sub in s`), `lower()`, `strip()`, `int(s)` and
 * `str(n)`, over Dafny strings (sequences of Unicode scalar values).
 */
module Text {
  import opened Wrappers

  /** The characters for which Python's `str.isspace()` holds; `strip()` and the regex class `\s` use this set. */
  predicate IsSpace(c: char) {
    ('\t' <= c <= '\r') || ('\U{1C}' <= c <= '\U{1F}') || c == ' ' || c == '\U{85}' || c == '\U{A0}'
    || c == '\U{1680}' || ('\U{2000}' <= c <= '\U{200A}') || c == '\U{2028}' || c == '\U{2029}'
    || c == '\U{202F}' || c == '\U{205F}' || c == '\U{3000}'
  }

  predicate IsDigit(c: char) {
    '0' <= c <= '9'
  }

  function DigitValue(c: char): (d: nat)
    requires IsDigit(c)
    ensures d < 10
  {
    c as int - '0' as int
  }

  function DigitChar(d: nat): (c: char)
    requires d < 10
    ensures IsDigit(c) && DigitValue(c) == d
  {
    ('0' as int + d) as char
  }

  /** `c.lower()` for the ASCII letters; every other character is left as it is. */
  function LowerChar(c: char): char {
    if 'A' <= c <= 'Z' then (c as int + 32) as char else c
  }

  function Lower(s: string): (r: string)
    ensures |r| == |s|
    ensures forall i :: 0 <= i < |s| ==> r[i] == LowerChar(s[i])
  {
    if s == [] then [] else [LowerChar(s[0])] + Lower(s[1..])
  }

  /** Lowering a character never turns a space into a non-space or back. */
  lemma LowerCharKeepsSpaces(c: char)
    ensures IsSpace(LowerChar(c)) == IsSpace(c)
  {
  }

  predicate StartsWith(s: string, prefix: string) {
    |prefix| <= |s| && s[..|prefix|] == prefix
  }

  /** `sub` occurs in `s` starting at index `i`. */
  predicate OccursAt(s: string, sub: string, i: nat) {
    i + |sub| <= |s| && s[i..i + |sub|] == sub
  }

  /** Python's `sub in s`. */
  predicate Contains(s: string, sub: string)
    decreases |s|
  {
    StartsWith(s, sub) || (|s| > 0 && Contains(s[1..], sub))
  }

  /** The scan agrees with the textbook definition of substring occurrence. */
  lemma {:induction false} ContainsIff(s: string, sub: string)
    ensures Contains(s, sub) <==> exists i: nat :: OccursAt(s, sub, i)
    decreases |s|
  {
    if StartsWith(s, sub) {
      assert OccursAt(s, sub, 0);
    } else if |s| == 0 {
      forall i: nat ensures !OccursAt(s, sub, i) {
      }
    } else {
      ContainsIff(s[1..], sub);
      if Contains(s[1..], sub) {
        var i: nat :| OccursAt(s[1..], sub, i);
        assert s[i + 1..i + 1 + |sub|] == s[1..][i..i + |sub|];
        assert OccursAt(s, sub, i + 1);
      } else {
        forall i: nat ensures !OccursAt(s, sub, i) {
          if i == 0 && |sub| <= |s| {
            assert s[..|sub|] == s[0..0 + |sub|];
          } else if i > 0 && i + |sub| <= |s| {
            assert s[i..i + |sub|] == s[1..][i - 1..i - 1 + |sub|];
            assert !OccursAt(s[1..], sub, i - 1);
          }
        }
      }
    }
  }

  /** A substring of a substring is a substring. */
  lemma ContainsTransitive(s: string, mid: string, sub: string)
    requires Contains(s, mid) && Contains(mid, sub)
    ensures Contains(s, sub)
  {
    ContainsIff(s, mid);
    ContainsIff(mid, sub);
    var i: nat :| OccursAt(s, mid, i);
    var k: nat :| OccursAt(mid, sub, k);
    assert forall m :: 0 <= m < |sub| ==> sub[m] == mid[k + m] == s[i + k + m];
    assert s[i + k..i + k + |sub|] == sub;
    assert OccursAt(s, sub, i + k);
    ContainsIff(s, sub);
  }

  /** A string cannot contain a substring that has a character it lacks. */
  lemma NotContainsMissingChar(s: string, sub: string, c: char)
    requires c in sub && c !in s
    ensures !Contains(s, sub)
  {
    var m :| 0 <= m < |sub| && sub[m] == c;
    forall i: nat ensures !OccursAt(s, sub, i) {
      if i + |sub| <= |s| {
        assert s[i..i + |sub|][m] == s[i + m] != c;
      }
    }
    ContainsIff(s, sub);
  }

  /** Whatever occurs in one part of a concatenation occurs in the whole. */
  lemma ContainsInConcat(a: string, b: string, sub: string)
    requires Contains(a, sub) || Contains(b, sub)
    ensures Contains(a + b, sub)
  {
    ContainsIff(a, sub);
    ContainsIff(b, sub);
    var s := a + b;
    if Contains(a, sub) {
      var i: nat :| OccursAt(a, sub, i);
      assert s[i..i + |sub|] == a[i..i + |sub|];
      assert OccursAt(s, sub, i);
    } else {
      var i: nat :| OccursAt(b, sub, i);
      assert s[|a| + i..|a| + i + |sub|] == b[i..i + |sub|];
      assert OccursAt(s, sub, |a| + i);
    }
    ContainsIff(s, sub);
  }

  /** No leading and no trailing space. */
  predicate Trimmed(s: string) {
    s == [] || (!IsSpace(s[0]) && !IsSpace(s[|s| - 1]))
  }

  /** The index of the first non-space at or after `i`. */
  function LeftEdge(s: string, i: nat): (k: nat)
    requires i <= |s|
    ensures i <= k <= |s|
    ensures forall m :: i <= m < k ==> IsSpace(s[m])
    ensures k < |s| ==> !IsSpace(s[k])
    decreases |s| - i
  {
    if i < |s| && IsSpace(s[i]) then LeftEdge(s, i + 1) else i
  }

  /** The end of `s[lo..j]` once its trailing spaces are dropped. */
  function RightEdge(s: string, lo: nat, j: nat): (k: nat)
    requires lo <= j <= |s|
    ensures lo <= k <= j
    ensures forall m :: k <= m < j ==> IsSpace(s[m])
    ensures k > lo ==> !IsSpace(s[k - 1])
    decreases j
  {
    if j > lo && IsSpace(s[j - 1]) then RightEdge(s, lo, j - 1) else j
  }

  /** Python's `s.strip()`: the slice left once leading and trailing spaces are dropped. */
  function Strip(s: string): (r: string)
    ensures Trimmed(r)
    ensures exists i, k ::
      && 0 <= i <= k <= |s| && r == s[i..k]
      && (forall m :: 0 <= m < i ==> IsSpace(s[m]))
      && (forall m :: k <= m < |s| ==> IsSpace(s[m]))
    ensures r == [] <==> forall m :: 0 <= m < |s| ==> IsSpace(s[m])
  {
    var i := LeftEdge(s, 0);
    var k := RightEdge(s, i, |s|);
    assert k > i ==> s[i..k][0] == s[i] && s[i..k][k - i - 1] == s[k - 1];
    s[i..k]
  }

  /** Stripping a string that has no edge spaces changes nothing. */
  lemma StripTrimmed(s: string)
    requires Trimmed(s)
    ensures Strip(s) == s
  {
    if s != [] {
      assert LeftEdge(s, 0) == 0;
      assert RightEdge(s, 0, |s|) == |s|;
      assert s[0..|s|] == s;
    }
  }

  /** `s.strip().lower().strip() == s.strip().lower()`: lowering a stripped string leaves nothing to strip. */
  lemma LowerOfStrippedIsStripped(s: string)
    ensures Strip(Lower(Strip(s))) == Lower(Strip(s))
  {
    var m := Strip(s);
    var lm := Lower(m);
    if m != [] {
      LowerCharKeepsSpaces(m[0]);
      LowerCharKeepsSpaces(m[|m| - 1]);
    }
    StripTrimmed(lm);
  }

  /** Python's `str(n)` for a non-negative integer. */
  function NatToString(n: nat): (r: string)
    ensures |r| > 0 && IsDigit(r[0]) && forall i :: 0 <= i < |r| ==> IsDigit(r[i])
    decreases n
  {
    if n < 10 then [DigitChar(n)] else NatToString(n / 10) + [DigitChar(n % 10)]
  }

  /** Python's `str(i)`. */
  function IntToString(i: int): (r: string)
    ensures |r| > 0 && (r[0] == '-' <==> i < 0)
    ensures i >= 0 ==> IsDigitGroup(r) && DigitsValue(r) == i
    ensures i < 0 ==> IsDigitGroup(r[1..]) && DigitsValue(r[1..]) == -i
  {
    NatToStringIsDigitGroup(if i < 0 then -i else i);
    if i < 0 then
      var digits := NatToString(-i);
      assert ("-" + digits)[1..] == digits;
      "-" + digits
    else NatToString(i)
  }

  /** The value of a run of decimal digits, skipping the `_` separators Python allows in `int()` literals. */
  function DigitsValue(d: string): nat
    requires forall i :: 0 <= i < |d| ==> IsDigit(d[i]) || d[i] == '_'
  {
    if d == [] then 0
    else if d[|d| - 1] == '_' then DigitsValue(d[..|d| - 1])
    else DigitsValue(d[..|d| - 1]) * 10 + DigitValue(d[|d| - 1])
  }

  /** Digits with single underscores between them, as `int()` accepts after its optional sign. */
  predicate IsDigitGroup(d: string) {
    && |d| > 0 && IsDigit(d[0]) && IsDigit(d[|d| - 1])
    && (forall i :: 0 <= i < |d| ==> IsDigit(d[i]) || d[i] == '_')
    && (forall i :: 0 <= i < |d| - 1 ==> d[i] == '_' ==> d[i + 1] != '_')
  }

  /** Python's `int(s)` on a string: surrounding spaces, an optional sign, then a digit group; `None` where Python raises `ValueError`. */
  function ParseInt(s: string): Option<int> {
    var t := Strip(s);
    if |t| > 0 && (t[0] == '+' || t[0] == '-') then
      var d := t[1..];
      var v: int := if IsDigitGroup(d) then DigitsValue(d) else 0;
      if IsDigitGroup(d) then Some(if t[0] == '-' then -v else v) else None
    else if IsDigitGroup(t) then Some(DigitsValue(t))
    else None
  }

  /** `int(s)` succeeds exactly on an optionally signed digit group between spaces, and only a `-` makes it negative. */
  lemma ParseIntAccepts(s: string)
    ensures ParseInt(s).Some? <==> var t := Strip(s);
      IsDigitGroup(t) || (|t| > 0 && (t[0] == '+' || t[0] == '-') && IsDigitGroup(t[1..]))
    ensures ParseInt(s).Some? && ParseInt(s).value < 0 ==> Strip(s)[0] == '-'
  {
  }

  lemma {:induction false} DigitsValueOfNat(n: nat)
    ensures DigitsValue(NatToString(n)) == n
    decreases n
  {
    var r := NatToString(n);
    if n >= 10 {
      DigitsValueOfNat(n / 10);
      assert r[..|r| - 1] == NatToString(n / 10);
    }
  }

  /** `str(n)` is a digit group with no edge spaces, and its value is `n`. */
  lemma NatToStringIsDigitGroup(n: nat)
    ensures var r := NatToString(n);
      IsDigitGroup(r) && Trimmed(r) && r[0] != '+' && r[0] != '-' && DigitsValue(r) == n
  {
    DigitsValueOfNat(n);
  }

  /** `int(str(i)) == i`. */
  lemma ParseIntOfIntToString(i: int)
    ensures ParseInt(IntToString(i)) == Some(i)
  {
    var n: nat := if i < 0 then -i else i;
    var digits := NatToString(n);
    NatToStringIsDigitGroup(n);
    if i < 0 {
      var s := "-" + digits;
      assert Trimmed(s) by {
        assert s[|s| - 1] == digits[|digits| - 1];
      }
      StripTrimmed(s);
      assert s[1..] == digits;
    } else {
      StripTrimmed(digits);
    }
  }
}
