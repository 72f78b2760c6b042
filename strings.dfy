/** The string operations the handlers rely on: JavaScript white space and
    `trim`, ASCII lower-casing, and searching for a pattern. */
module Strings {
  import opened Common

  /** The characters matched by `\s` in a JavaScript regular expression, which are
      also the ones `String.prototype.trim` removes. */
  predicate IsSpace(c: char)
  {
    || c == ' ' || c == '\t' || c == '\n' || c == '\r' || c == '\U{000B}' || c == '\U{000C}'
    || c == '\U{00A0}' || c == '\U{1680}' || ('\U{2000}' <= c <= '\U{200A}')
    || c == '\U{2028}' || c == '\U{2029}' || c == '\U{202F}' || c == '\U{205F}'
    || c == '\U{3000}' || c == '\U{FEFF}'
  }

  predicate AllSpace(s: string)
  {
    forall i :: 0 <= i < |s| ==> IsSpace(s[i])
  }

  /** Neither end of `s` is white space. */
  predicate Trimmed(s: string)
  {
    s == [] || (!IsSpace(s[0]) && !IsSpace(s[|s| - 1]))
  }

  /** Drops the longest all-space prefix. */
  function TrimStart(s: string): (r: string)
    ensures |r| <= |s| && r == s[|s| - |r|..]
    ensures AllSpace(s[..|s| - |r|])
    ensures r == [] || !IsSpace(r[0])
  {
    if s != [] && IsSpace(s[0]) then
      var r := TrimStart(s[1..]);
      SpaceBeforeSuffix(s, r);
      r
    else s
  }

  /** A suffix of `s[1..]` preceded there by white space only is a suffix of `s`
      preceded by white space only, when `s` starts with white space. */
  lemma SpaceBeforeSuffix(s: string, r: string)
    requires s != [] && IsSpace(s[0])
    requires |r| <= |s| - 1 && r == s[1..][|s| - 1 - |r|..] && AllSpace(s[1..][..|s| - 1 - |r|])
    ensures r == s[|s| - |r|..] && AllSpace(s[..|s| - |r|])
  {
    var p := s[..|s| - |r|];
    forall i | 0 <= i < |p| ensures IsSpace(p[i]) {
      if i > 0 {
        assert p[i] == s[1..][..|s| - 1 - |r|][i - 1];
      }
    }
  }

  /** Drops the longest all-space suffix. */
  function TrimEnd(s: string): (r: string)
    ensures |r| <= |s| && r == s[..|r|]
    ensures AllSpace(s[|r|..])
    ensures r == [] || !IsSpace(r[|r| - 1])
  {
    if s != [] && IsSpace(s[|s| - 1]) then
      var r := TrimEnd(s[..|s| - 1]);
      SpaceAfterPrefix(s, r);
      r
    else s
  }

  /** A prefix of `s[..|s| - 1]` followed there by white space only is a prefix of `s`
      followed by white space only, when `s` ends with white space. */
  lemma SpaceAfterPrefix(s: string, r: string)
    requires s != [] && IsSpace(s[|s| - 1])
    requires |r| <= |s| - 1 && r == s[..|s| - 1][..|r|] && AllSpace(s[..|s| - 1][|r|..])
    ensures r == s[..|r|] && AllSpace(s[|r|..])
  {
    var q := s[|r|..];
    forall i | 0 <= i < |q| ensures IsSpace(q[i]) {
      if i < |q| - 1 {
        assert q[i] == s[..|s| - 1][|r|..][i];
      }
    }
  }

  /** `String.prototype.trim`: the text left after dropping white space at both ends,
      that is, a prefix of `TrimStart(s)` followed there by white space only. */
  function Trim(s: string): (r: string)
    ensures Trimmed(r)
    ensures |r| <= |TrimStart(s)| && r == TrimStart(s)[..|r|]
    ensures AllSpace(TrimStart(s)[|r|..])
  {
    var t := TrimStart(s);
    var r := TrimEnd(t);
    PrefixOfTrimmedStart(t, r);
    r
  }

  /** Trimming the end of text whose first character is not white space leaves a trimmed string. */
  lemma PrefixOfTrimmedStart(t: string, r: string)
    requires t == [] || !IsSpace(t[0])
    requires r == TrimEnd(t)
    ensures Trimmed(r)
  {
    if r != [] {
      assert r[0] == t[0];
    }
  }

  lemma {:induction false} TrimEndPadded(core: string, pad: string)
    requires core == [] || !IsSpace(core[|core| - 1])
    requires AllSpace(pad)
    ensures TrimEnd(core + pad) == core
    decreases |pad|
  {
    if pad == [] {
      assert core + pad == core;
      if core != [] {
        assert !IsSpace(core[|core| - 1]);
      }
    } else {
      var s := core + pad;
      assert IsSpace(s[|s| - 1]);
      assert s[..|s| - 1] == core + pad[..|pad| - 1];
      TrimEndPadded(core, pad[..|pad| - 1]);
    }
  }

  lemma {:induction false} TrimStartPadded(pad: string, rest: string)
    requires rest == [] || !IsSpace(rest[0])
    requires AllSpace(pad)
    ensures TrimStart(pad + rest) == rest
    decreases |pad|
  {
    if pad == [] {
      assert pad + rest == rest;
    } else {
      var s := pad + rest;
      assert IsSpace(s[0]);
      assert s[1..] == pad[1..] + rest;
      TrimStartPadded(pad[1..], rest);
    }
  }

  /** Trimming undoes padding with white space on both sides. */
  lemma TrimPadded(left: string, core: string, right: string)
    requires AllSpace(left) && AllSpace(right) && Trimmed(core)
    ensures Trim(left + core + right) == core
  {
    if core == [] {
      assert AllSpace(left + right);
      assert left + core + right == (left + right) + [];
      TrimStartPadded(left + right, []);
      TrimEndPadded([], []);
    } else {
      assert left + core + right == left + (core + right);
      TrimStartPadded(left, core + right);
      TrimEndPadded(core, right);
    }
  }

  /** A string that is already trimmed is left alone. */
  lemma TrimOfTrimmed(s: string)
    requires Trimmed(s)
    ensures Trim(s) == s
  {
    TrimPadded([], s, []);
    assert [] + s + [] == s;
  }

  /** ASCII lower-casing of one character. */
  function LowerChar(c: char): char
  {
    if 'A' <= c <= 'Z' then (c as int + 32) as char else c
  }

  /** `String.prototype.toLowerCase`, for the ASCII letters. */
  function ToLower(s: string): (r: string)
    ensures |r| == |s| && forall i :: 0 <= i < |s| ==> r[i] == LowerChar(s[i])
  {
    seq(|s|, i requires 0 <= i < |s| => LowerChar(s[i]))
  }

  /** No ASCII upper-case letter occurs in `s`. */
  predicate LowerCased(s: string)
  {
    forall i :: 0 <= i < |s| ==> !('A' <= s[i] <= 'Z')
  }

  /** `pat` occurs in `s` starting at index `j`. */
  predicate OccursAt(s: string, pat: string, j: int)
  {
    0 <= j && j + |pat| <= |s| && s[j..j + |pat|] == pat
  }

  /** `s.indexOf(pat, from)`: the first occurrence at or after `from`. */
  function IndexOf(s: string, pat: string, from: nat): (r: Option<nat>)
    ensures r.Some? ==> from <= r.value && OccursAt(s, pat, r.value)
    ensures forall j :: from <= j && (r.None? || j < r.value) ==> !OccursAt(s, pat, j)
    decreases |s| - from
  {
    if from + |pat| > |s| then None
    else if s[from..from + |pat|] == pat then Some(from)
    else IndexOf(s, pat, from + 1)
  }

  /** `s.lastIndexOf(c)`. */
  function LastIndexOf(s: string, c: char): (r: Option<nat>)
    ensures r.Some? ==> r.value < |s| && s[r.value] == c
    ensures forall j :: 0 <= j < |s| && (r.None? || r.value < j) ==> s[j] != c
  {
    if s == [] then None
    else if s[|s| - 1] == c then Some(|s| - 1)
    else LastIndexOf(s[..|s| - 1], c)
  }

  /** `c` does not occur in `s`. */
  predicate NoChar(s: string, c: char)
  {
    forall i :: 0 <= i < |s| ==> s[i] != c
  }

  /** A pattern one of whose characters is absent does not occur. */
  lemma AbsentPattern(s: string, pat: string, k: nat, from: nat)
    requires k < |pat| && NoChar(s, pat[k])
    ensures IndexOf(s, pat, from) == None
  {
    forall j | from <= j ensures !OccursAt(s, pat, j) {
      if j + |pat| <= |s| {
        assert s[j..j + |pat|][k] == s[j + k];
      }
    }
  }

  /** A search that finds nothing from `from` finds nothing from any later start. */
  lemma LaterSearchAbsent(s: string, pat: string, from: nat, later: nat)
    requires from <= later && IndexOf(s, pat, from).None?
    ensures IndexOf(s, pat, later).None?
  {
  }

  /** `IndexOf` finds the occurrence that nothing before it precedes. */
  lemma FirstOccurrence(s: string, pat: string, from: nat, at: nat)
    requires from <= at && OccursAt(s, pat, at)
    requires forall j :: from <= j < at ==> !OccursAt(s, pat, j)
    ensures IndexOf(s, pat, from) == Some(at)
  {
  }

  /** The first index at or after `from` that is not white space (or `|s|`). */
  function SkipSpaces(s: string, from: nat): (e: nat)
    requires from <= |s|
    ensures from <= e <= |s| && AllSpace(s[from..e]) && (e == |s| || !IsSpace(s[e]))
    decreases |s| - from
  {
    if from < |s| && IsSpace(s[from]) then
      var e := SkipSpaces(s, from + 1);
      assert s[from..e] == [s[from]] + s[from + 1..e];
      e
    else from
  }

  /** `SkipSpaces` stops at the first non-space character. */
  lemma {:induction false} SkipSpacesTo(s: string, from: nat, e: nat)
    requires from <= e <= |s| && AllSpace(s[from..e]) && (e == |s| || !IsSpace(s[e]))
    ensures SkipSpaces(s, from) == e
    decreases e - from
  {
    if from < e {
      assert s[from..e][0] == s[from];
      assert s[from + 1..e] == s[from..e][1..];
      SkipSpacesTo(s, from + 1, e);
    }
  }

  predicate IsDigit(c: char)
  {
    '0' <= c <= '9'
  }

  predicate AllDigits(s: string)
  {
    forall i :: 0 <= i < |s| ==> IsDigit(s[i])
  }

  /** The number a string of decimal digits denotes. */
  function DecimalValue(s: string): nat
    requires AllDigits(s)
  {
    if s == [] then 0 else DecimalValue(s[..|s| - 1]) * 10 + (s[|s| - 1] as int - '0' as int)
  }

  /** Decimal digits of a natural number: no leading zero, and they denote `n`. */
  function NatToDecimal(n: nat): (r: string)
    ensures r != [] && AllDigits(r) && DecimalValue(r) == n
    ensures r[0] == '0' ==> n == 0
    decreases n
  {
    var d := ['0', '1', '2', '3', '4', '5', '6', '7', '8', '9'][n % 10];
    assert d as int - '0' as int == n % 10;
    if n < 10 then [d]
    else
      var r := NatToDecimal(n / 10) + [d];
      assert r[..|r| - 1] == NatToDecimal(n / 10);
      r
  }

  /** `String(n)` for an integer `n`: a minus sign exactly when `n` is negative,
      then the digits of its magnitude. */
  function IntToDecimal(n: int): (r: string)
    ensures r != [] && (r[0] == '-' <==> n < 0)
    ensures var digits := if n < 0 then r[1..] else r;
      digits != [] && AllDigits(digits) && DecimalValue(digits) == if n < 0 then -n else n
    ensures var digits := if n < 0 then r[1..] else r;
      digits[0] == '0' ==> n == 0
  {
    if n < 0 then
      var r := "-" + NatToDecimal(-n);
      assert r[1..] == NatToDecimal(-n);
      r
    else NatToDecimal(n)
  }
}
