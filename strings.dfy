/**
 * The few Python string operations the handlers rely on: `str()` of a
 * non-negative integer and its inverse (how a numeric string identity finds
 * its row again), `str.lower()`, the `in` test on strings and `str.replace`.
 */
module Strings {
  import opened Wrappers

  predicate IsDigit(c: char) {
    '0' <= c <= '9'
  }

  function DigitChar(d: nat): (c: char)
    requires d < 10
    ensures IsDigit(c) && c as int - '0' as int == d
  {
    (d + '0' as int) as char
  }

  /** Python's `str(n)` for `n >= 0`: the shortest decimal numeral. */
  function NatToString(n: nat): (s: string)
    ensures |s| > 0
    ensures forall i :: 0 <= i < |s| ==> IsDigit(s[i])
    ensures |s| > 1 ==> s[0] != '0'
    decreases n
  {
    if n < 10 then [DigitChar(n)] else NatToString(n / 10) + [DigitChar(n % 10)]
  }

  function DigitValue(c: char): nat
    requires IsDigit(c)
  {
    c as int - '0' as int
  }

  /** The value of a string of decimal digits, read left to right. */
  function DigitsValue(s: string): nat
    requires forall i :: 0 <= i < |s| ==> IsDigit(s[i])
  {
    if s == [] then 0
    else DigitsValue(s[..|s| - 1]) * 10 + DigitValue(s[|s| - 1])
  }

  /**
   * A decimal numeral read back as a number, as the database does when a
   * string identity is compared with an integer primary key; `None` for a
   * string that is not a numeral.
   */
  function ParseNat(s: string): (r: Option<nat>)
    ensures r.Some? <==> s != [] && forall i :: 0 <= i < |s| ==> IsDigit(s[i])
  {
    if s != [] && forall i :: 0 <= i < |s| ==> IsDigit(s[i]) then Some(DigitsValue(s)) else None
  }

  /** Reading back `str(n)` gives `n`. */
  lemma {:induction false} ParseNatToString(n: nat)
    ensures ParseNat(NatToString(n)) == Some(n)
    decreases n
  {
    var s := NatToString(n);
    if n >= 10 {
      ParseNatToString(n / 10);
      var t := NatToString(n / 10);
      assert s[..|s| - 1] == t;
      assert DigitsValue(s) == DigitsValue(t) * 10 + n % 10;
    }
  }

  /** Distinct numbers have distinct numerals. */
  lemma NatToStringInjective(a: nat, b: nat)
    requires NatToString(a) == NatToString(b)
    ensures a == b
  {
    ParseNatToString(a);
    ParseNatToString(b);
  }

  /** `str.lower()` on one character; ASCII capitals only. */
  function LowerChar(c: char): char {
    if 'A' <= c <= 'Z' then (c as int + 32) as char else c
  }

  /** `str.lower()`, character by character. */
  function Lower(s: string): (r: string)
    ensures |r| == |s|
  {
    if s == [] then [] else [LowerChar(s[0])] + Lower(s[1..])
  }

  lemma {:induction false} LowerAt(s: string, i: nat)
    requires i < |s|
    ensures Lower(s)[i] == LowerChar(s[i])
    decreases |s|
  {
    if i > 0 {
      LowerAt(s[1..], i - 1);
    }
  }

  predicate IsLowerLetter(c: char) {
    'a' <= c <= 'z'
  }

  function UpperChar(c: char): char
    requires IsLowerLetter(c)
  {
    (c as int - 32) as char
  }

  /**
   * A case-insensitive comparison with a lower-case word, stated without
   * `Lower`: `Lower(s) == t` exactly when `s` spells `t` with each letter in
   * either case.
   */
  lemma LowerEqualsIff(s: string, t: string)
    requires forall i :: 0 <= i < |t| ==> IsLowerLetter(t[i])
    ensures Lower(s) == t <==>
              |s| == |t| && forall i :: 0 <= i < |s| ==> SpellsLetter(s[i], t[i])
  {
    if |s| == |t| {
      var l := Lower(s);
      forall i | 0 <= i < |s|
        ensures l[i] == t[i] <==> SpellsLetter(s[i], t[i])
      {
        LowerAt(s, i);
        LowerCharSpells(s[i], t[i]);
      }
      if forall i :: 0 <= i < |s| ==> SpellsLetter(s[i], t[i]) {
        assert l == t;
      }
    }
  }

  lemma LowerCharSpells(c: char, l: char)
    requires IsLowerLetter(l)
    ensures LowerChar(c) == l <==> SpellsLetter(c, l)
  {
  }

  /** `c` is the lower-case letter `l` written in either case. */
  predicate SpellsLetter(c: char, l: char)
    requires IsLowerLetter(l)
  {
    c == l || c == UpperChar(l)
  }

  /** Python's `pat in s` on strings. */
  function IsSubstring(pat: string, s: string): bool
    decreases |s|
  {
    |pat| <= |s| && (s[..|pat|] == pat || IsSubstring(pat, s[1..]))
  }

  /** `pat` occurs in `s` starting at position `i`. */
  predicate OccursAt(pat: string, s: string, i: int) {
    0 <= i && i + |pat| <= |s| && s[i..i + |pat|] == pat
  }

  /** `IsSubstring` agrees with the positional definition of an occurrence. */
  lemma {:induction false} IsSubstringIff(pat: string, s: string)
    ensures IsSubstring(pat, s) <==> exists i :: OccursAt(pat, s, i)
    decreases |s|
  {
    if |pat| <= |s| && |s| > 0 {
      IsSubstringIff(pat, s[1..]);
      if exists i :: OccursAt(pat, s, i) {
        var i :| OccursAt(pat, s, i);
        if i > 0 {
          assert OccursAt(pat, s[1..], i - 1);
        }
      }
      if s[..|pat|] == pat {
        assert OccursAt(pat, s, 0);
      } else if IsSubstring(pat, s[1..]) {
        var j :| OccursAt(pat, s[1..], j);
        assert OccursAt(pat, s, j + 1);
      }
    } else if |pat| <= |s| {
      assert OccursAt(pat, s, 0);
    }
  }

  /** Every character of a pattern that occurs in `s` is a character of `s`. */
  lemma OccurrenceChars(pat: string, s: string, c: char)
    requires IsSubstring(pat, s) && c in pat
    ensures c in s
  {
    IsSubstringIff(pat, s);
    var i :| OccursAt(pat, s, i);
    var j :| 0 <= j < |pat| && pat[j] == c;
    assert s[i..i + |pat|][j] == c;
  }

  /**
   * Python's `s.replace(pat, rep)` for a non-empty `pat`: every occurrence,
   * found left to right without overlap, is replaced.
   */
  function ReplaceAll(s: string, pat: string, rep: string): (r: string)
    requires |pat| > 0
    ensures !IsSubstring(pat, s) ==> r == s
    decreases |s|
  {
    if |s| < |pat| then s
    else if s[..|pat|] == pat then rep + ReplaceAll(s[|pat|..], pat, rep)
    else [s[0]] + ReplaceAll(s[1..], pat, rep)
  }

  /** A string that is exactly the pattern becomes exactly the replacement. */
  lemma ReplaceAllWhole(pat: string, rep: string)
    requires |pat| > 0
    ensures ReplaceAll(pat, pat, rep) == rep
  {
    assert pat[..|pat|] == pat;
    assert pat[|pat|..] == [];
  }

  /** An occurrence in `b` is an occurrence in `a + b`. */
  lemma {:induction false} IsSubstringPrepend(pat: string, a: string, b: string)
    requires IsSubstring(pat, b)
    ensures IsSubstring(pat, a + b)
    decreases |a|
  {
    if a == [] {
      assert a + b == b;
    } else {
      assert (a + b)[1..] == a[1..] + b;
      IsSubstringPrepend(pat, a[1..], b);
    }
  }

  /** Where `pat` does not start before position `m`, replacement copies the first `m` characters. */
  lemma {:induction false} ReplaceAllPrefix(s: string, pat: string, rep: string, m: nat)
    requires |pat| > 0 && m <= |s|
    requires forall q :: 0 <= q < m ==> !OccursAt(pat, s, q)
    ensures ReplaceAll(s, pat, rep) == s[..m] + ReplaceAll(s[m..], pat, rep)
    decreases m
  {
    if m > 0 && |s| >= |pat| {
      assert !OccursAt(pat, s, 0);
      assert s[..|pat|] != pat;
      forall q | 0 <= q < m - 1
        ensures !OccursAt(pat, s[1..], q)
      {
        assert !OccursAt(pat, s, q + 1);
        if q + |pat| <= |s| - 1 {
          assert s[1..][q..q + |pat|] == s[q + 1..q + 1 + |pat|];
        }
      }
      ReplaceAllPrefix(s[1..], pat, rep, m - 1);
      assert s[1..][m - 1..] == s[m..];
      assert s[..m] == [s[0]] + s[1..][..m - 1];
    } else if m > 0 {
      assert s[..m] + s[m..] == s;
    }
  }

  /**
   * `s.replace(pat, rep)` keeps an occurrence of `other` at `i` that no
   * occurrence of `pat` overlaps.
   */
  lemma {:induction false} ReplaceAllKeepsOccurrence(s: string, pat: string, rep: string, other: string, i: nat)
    requires |pat| > 0 && |other| > 0
    requires OccursAt(other, s, i)
    requires forall q :: 0 <= q < i + |other| && i < q + |pat| ==> !OccursAt(pat, s, q)
    ensures IsSubstring(other, ReplaceAll(s, pat, rep))
    decreases |s|
  {
    if i == 0 {
      ReplaceAllPrefix(s, pat, rep, |other|);
      var r := ReplaceAll(s, pat, rep);
      assert r[..|other|] == s[..|other|] == other;
    } else if |s| < |pat| {
      IsSubstringIff(other, s);
    } else if s[..|pat|] == pat {
      assert OccursAt(pat, s, 0);
      var t := s[|pat|..];
      assert t[i - |pat|..i - |pat| + |other|] == s[i..i + |other|];
      forall q | 0 <= q < i - |pat| + |other| && i - |pat| < q + |pat|
        ensures !OccursAt(pat, t, q)
      {
        assert !OccursAt(pat, s, q + |pat|);
        if q + |pat| <= |t| {
          assert t[q..q + |pat|] == s[q + |pat|..q + 2 * |pat|];
        }
      }
      ReplaceAllKeepsOccurrence(t, pat, rep, other, i - |pat|);
      IsSubstringPrepend(other, rep, ReplaceAll(t, pat, rep));
    } else {
      var t := s[1..];
      assert t[i - 1..i - 1 + |other|] == s[i..i + |other|];
      forall q | 0 <= q < i - 1 + |other| && i - 1 < q + |pat|
        ensures !OccursAt(pat, t, q)
      {
        assert !OccursAt(pat, s, q + 1);
        if q + |pat| <= |t| {
          assert t[q..q + |pat|] == s[q + 1..q + 1 + |pat|];
        }
      }
      ReplaceAllKeepsOccurrence(t, pat, rep, other, i - 1);
      IsSubstringPrepend(other, [s[0]], ReplaceAll(t, pat, rep));
    }
  }
}
