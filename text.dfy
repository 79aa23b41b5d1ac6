/**
 * Character-level helpers shared by the two scripts: the whitespace sets
 * of Python's `str.strip()` and JavaScript's `String.prototype.trim()`,
 * trimming, ASCII lower-casing and substring search.
 */
module Text {

  /**
   * The characters for which Python's `str.isspace()` holds: what
   * `str.strip()` removes.
   */
  predicate IsPythonBlank(c: char) {
    || ('\t' <= c <= '\r')
    || ('\U{1C}' <= c <= ' ')
    || c == '\U{85}' || c == '\U{A0}' || c == '\U{1680}'
    || ('\U{2000}' <= c <= '\U{200A}')
    || c == '\U{2028}' || c == '\U{2029}'
    || c == '\U{202F}' || c == '\U{205F}' || c == '\U{3000}'
  }

  /**
   * The WhiteSpace and LineTerminator code points of ECMA-262: what
   * JavaScript's `String.prototype.trim()` removes. Unlike Python's set it
   * holds U+FEFF and lacks U+001C..U+001F and U+0085.
   */
  predicate IsJsBlank(c: char) {
    || ('\t' <= c <= '\r')
    || c == ' '
    || c == '\U{A0}' || c == '\U{1680}'
    || ('\U{2000}' <= c <= '\U{200A}')
    || c == '\U{2028}' || c == '\U{2029}'
    || c == '\U{202F}' || c == '\U{205F}' || c == '\U{3000}'
    || c == '\U{FEFF}'
  }

  /** Every character of `s` is blank (vacuously true of ""). */
  ghost predicate AllBlank(s: string, blank: char -> bool) {
    forall i :: 0 <= i < |s| ==> blank(s[i])
  }

  /** `sub` occurs in `s` starting at index `i`. */
  ghost predicate OccursAt(s: string, sub: string, i: nat) {
    i + |sub| <= |s| && s[i..i + |sub|] == sub
  }

  /** Reference definition of substring containment. */
  ghost predicate Occurs(s: string, sub: string) {
    exists i: nat :: OccursAt(s, sub, i)
  }

  /**
   * `r` is `s` with its leading and trailing blanks removed, `r` starting at
   * index `lo` of `s`: everything before and after `r` is blank, and `r`
   * itself neither starts nor ends with a blank.
   */
  ghost predicate TrimmedAt(s: string, r: string, lo: nat, blank: char -> bool) {
    && OccursAt(s, r, lo)
    && (forall i :: 0 <= i < lo ==> blank(s[i]))
    && (forall i :: lo + |r| <= i < |s| ==> blank(s[i]))
    && (r != [] ==> !blank(r[0]) && !blank(r[|r| - 1]))
  }

  /** The number of leading blanks of `s`. */
  function Leading(s: string, blank: char -> bool): (n: nat)
    ensures n <= |s|
    decreases |s|
  {
    if s != [] && blank(s[0]) then 1 + Leading(s[1..], blank) else 0
  }

  /** The number of trailing blanks of `s`. */
  function Trailing(s: string, blank: char -> bool): (n: nat)
    ensures n <= |s|
    decreases |s|
  {
    if s != [] && blank(s[|s| - 1]) then 1 + Trailing(s[..|s| - 1], blank) else 0
  }

  /** `Leading` counts blanks only, and stops at a non-blank. */
  lemma {:induction false} LeadingFacts(s: string, blank: char -> bool)
    ensures var n := Leading(s, blank);
      (forall i :: 0 <= i < n ==> blank(s[i])) && (n < |s| ==> !blank(s[n]))
    decreases |s|
  {
    if s != [] && blank(s[0]) {
      LeadingFacts(s[1..], blank);
      assert forall i :: 1 <= i < |s| ==> s[i] == s[1..][i - 1];
    }
  }

  /** `Trailing` counts blanks only, and stops at a non-blank. */
  lemma {:induction false} TrailingFacts(s: string, blank: char -> bool)
    ensures var n := Trailing(s, blank);
      (forall i :: |s| - n <= i < |s| ==> blank(s[i])) && (n < |s| ==> !blank(s[|s| - n - 1]))
    decreases |s|
  {
    if s != [] && blank(s[|s| - 1]) {
      TrailingFacts(s[..|s| - 1], blank);
      assert forall i :: 0 <= i < |s| - 1 ==> s[i] == s[..|s| - 1][i];
    }
  }

  /** `s` without its leading and trailing `blank` characters: `s.strip()` in Python, `s.trim()` in JavaScript. */
  function Trim(s: string, blank: char -> bool): string {
    var t := s[Leading(s, blank)..];
    t[..|t| - Trailing(t, blank)]
  }

  /**
   * What trimming keeps: the part of `s` between its leading and trailing
   * blanks, which is empty exactly when `s` is all blank.
   */
  lemma TrimFacts(s: string, blank: char -> bool)
    ensures TrimmedAt(s, Trim(s, blank), Leading(s, blank), blank)
    ensures Trim(s, blank) == [] <==> AllBlank(s, blank)
  {
    var lo := Leading(s, blank);
    var t := s[lo..];
    var hi := |t| - Trailing(t, blank);
    var r := Trim(s, blank);
    assert r == t[..hi] && lo + hi <= |s|;
    assert OccursAt(s, r, lo);
    assert forall i :: 0 <= i < lo ==> blank(s[i]) by {
      LeadingFacts(s, blank);
    }
    assert forall i :: lo + hi <= i < |s| ==> blank(s[i]) by {
      TrailingFacts(t, blank);
      assert forall i :: lo + hi <= i < |s| ==> s[i] == t[i - lo];
    }
    assert r != [] ==> !blank(r[0]) && !blank(r[|r| - 1]) by {
      if r != [] {
        LeadingFacts(s, blank);
        TrailingFacts(t, blank);
        assert r[0] == s[lo] && r[|r| - 1] == t[hi - 1];
      }
    }
    assert r == [] <==> AllBlank(s, blank) by {
      if r != [] {
        assert s[lo] == r[0];
      }
    }
  }

  /** ASCII lower-casing of one character; every other character is unchanged. */
  function LowerChar(c: char): char {
    if 'A' <= c <= 'Z' then (c as int - 'A' as int + 'a' as int) as char else c
  }

  /** ASCII lower-casing of a string. */
  function Lower(s: string): string {
    seq(|s|, i requires 0 <= i < |s| => LowerChar(s[i]))
  }

  /** Python's `sub in s`, by a left-to-right scan. */
  function Contains(s: string, sub: string): (r: bool)
    ensures r <==> Occurs(s, sub)
    decreases |s|
  {
    if sub <= s then
      assert OccursAt(s, sub, 0);
      true
    else if s == [] then
      false
    else
      var r := Contains(s[1..], sub);
      OccursShift(s, sub);
      r
  }

  /** Occurrences in `s` past index 0 are exactly the occurrences in `s[1..]`, shifted. */
  lemma OccursShift(s: string, sub: string)
    requires s != [] && !(sub <= s)
    ensures Occurs(s, sub) <==> Occurs(s[1..], sub)
  {
    if Occurs(s, sub) {
      var i: nat :| OccursAt(s, sub, i);
      assert i != 0;
      assert s[1..][i - 1..i - 1 + |sub|] == s[i..i + |sub|];
      assert OccursAt(s[1..], sub, i - 1);
    }
    if Occurs(s[1..], sub) {
      var i: nat :| OccursAt(s[1..], sub, i);
      assert s[1..][i..i + |sub|] == s[i + 1..i + 1 + |sub|];
      assert OccursAt(s, sub, i + 1);
    }
  }

  /** Trimming has one answer: any two trimmings of the same string agree. */
  lemma TrimmedUnique(s: string, r1: string, lo1: nat, r2: string, lo2: nat, blank: char -> bool)
    requires TrimmedAt(s, r1, lo1, blank) && TrimmedAt(s, r2, lo2, blank)
    ensures r1 == r2
  {
    if r1 != [] && r2 != [] {
      assert s[lo1] == r1[0] && s[lo2] == r2[0];
      assert lo1 == lo2;
      assert s[lo1 + |r1| - 1] == r1[|r1| - 1] && s[lo2 + |r2| - 1] == r2[|r2| - 1];
      assert |r1| == |r2|;
    }
  }

  /** `blank` holds of a character exactly when it holds of its lower-case form. */
  ghost predicate CaseBlind(blank: char -> bool) {
    forall c: char :: blank(LowerChar(c)) <==> blank(c)
  }

  /** Neither whitespace set contains an ASCII letter. */
  lemma BlanksAreCaseBlind()
    ensures CaseBlind(IsPythonBlank) && CaseBlind(IsJsBlank)
  {
  }

  /** Lower-casing preserves trimming: if `r` is `s` trimmed, `Lower(r)` is `Lower(s)` trimmed. */
  lemma LowerKeepsTrimmed(s: string, r: string, lo: nat, blank: char -> bool)
    requires CaseBlind(blank) && TrimmedAt(s, r, lo, blank)
    ensures TrimmedAt(Lower(s), Lower(r), lo, blank)
  {
    var ls, lr := Lower(s), Lower(r);
    assert OccursAt(ls, lr, lo) by {
      assert ls[lo..lo + |lr|] == lr;
    }
    assert forall i :: 0 <= i < |s| ==> (blank(ls[i]) <==> blank(s[i])) by {
      forall i | 0 <= i < |s| ensures blank(ls[i]) <==> blank(s[i]) {
        assert ls[i] == LowerChar(s[i]);
      }
    }
    assert lr != [] ==> !blank(lr[0]) && !blank(lr[|lr| - 1]) by {
      if lr != [] {
        assert lr[0] == LowerChar(r[0]) && lr[|lr| - 1] == LowerChar(r[|r| - 1]);
      }
    }
  }

  /** Stripping and lower-casing commute: `s.strip().lower() == s.lower().strip()`. */
  lemma TrimLowerCommute(s: string, blank: char -> bool)
    requires CaseBlind(blank)
    ensures Lower(Trim(s, blank)) == Trim(Lower(s), blank)
  {
    var lo := Leading(s, blank);
    TrimFacts(s, blank);
    LowerKeepsTrimmed(s, Trim(s, blank), lo, blank);
    var ls := Lower(s);
    TrimFacts(ls, blank);
    TrimmedUnique(ls, Lower(Trim(s, blank)), lo, Trim(ls, blank), Leading(ls, blank), blank);
  }

  /** A substring of the trimmed text is a substring of the whole text. */
  lemma OccursInTrim(s: string, sub: string, blank: char -> bool)
    requires Occurs(Lower(Trim(s, blank)), sub)
    ensures Occurs(Lower(s), sub)
  {
    var r := Trim(s, blank);
    var lo := Leading(s, blank);
    TrimFacts(s, blank);
    var i: nat :| OccursAt(Lower(r), sub, i);
    assert Lower(s)[lo + i..lo + i + |sub|] == Lower(r)[i..i + |sub|];
    assert OccursAt(Lower(s), sub, lo + i);
  }
}
