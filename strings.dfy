/**
 * The string operations the front end relies on, written out: `toLowerCase`,
 * `includes`, `trim`, the decimal rendering of an integer id (`String(n)`,
 * template interpolation) and `parseInt`, and the code-unit order used by
 * `Array.prototype.sort` on strings.
 */
module Strings {
  import opened Seqs

  // ---------------------------------------------------------------------------
  // Case mapping and substring search
  // ---------------------------------------------------------------------------

  /** `toLowerCase` on one character, restricted to the ASCII letters. */
  function LowerChar(c: char): char {
    if 'A' <= c <= 'Z' then (c as int + 32) as char else c
  }

  /** `toLowerCase` on a whole string, character by character. */
  function Lower(s: string): string {
    seq(|s|, i requires 0 <= i < |s| => LowerChar(s[i]))
  }

  /** Lowering distributes over concatenation, as a per-character map must. */
  lemma LowerAppend(a: string, b: string)
    ensures Lower(a + b) == Lower(a) + Lower(b)
  {
  }

  /** `sub` sits in `s` starting at index `i`. */
  predicate OccursAt(s: string, sub: string, i: int) {
    0 <= i && i + |sub| <= |s| && s[i..i + |sub|] == sub
  }

  /** `s.includes(sub)`: some index of `s` starts an occurrence of `sub`. */
  predicate Contains(s: string, sub: string) {
    exists i | 0 <= i <= |s| :: OccursAt(s, sub, i)
  }

  /** Every string includes the empty string. */
  lemma ContainsEmpty(s: string)
    ensures Contains(s, "")
  {
    assert OccursAt(s, "", 0);
  }

  /** A string never includes anything longer than itself. */
  lemma ContainsLonger(s: string, sub: string)
    requires |sub| > |s|
    ensures !Contains(s, sub)
  {
  }

  /** An occurrence inside either half is an occurrence inside the concatenation. */
  lemma ContainsInConcat(a: string, b: string, sub: string)
    requires Contains(a, sub) || Contains(b, sub)
    ensures Contains(a + b, sub)
  {
    if Contains(a, sub) {
      var i :| 0 <= i <= |a| && OccursAt(a, sub, i);
      assert (a + b)[i..i + |sub|] == a[i..i + |sub|];
      assert OccursAt(a + b, sub, i);
    } else {
      var i :| 0 <= i <= |b| && OccursAt(b, sub, i);
      assert (a + b)[|a| + i..|a| + i + |sub|] == b[i..i + |sub|];
      assert OccursAt(a + b, sub, |a| + i);
    }
  }

  /** Every string includes itself. */
  lemma ContainsSelf(s: string)
    ensures Contains(s, s)
  {
    assert OccursAt(s, s, 0);
  }

  /** `text.toLowerCase().includes(query.toLowerCase())`. */
  predicate ContainsIgnoringCase(text: string, query: string) {
    Contains(Lower(text), Lower(query))
  }

  /**
   * `text.toLowerCase().includes(query.trim().toLowerCase())`, the match
   * used by every search box except the shared widget.
   */
  predicate ContainsTrimmedQuery(text: string, query: string) {
    ContainsIgnoringCase(text, Trim(query))
  }

  // ---------------------------------------------------------------------------
  // trim
  // ---------------------------------------------------------------------------

  /**
   * The white space and line terminators that `trim` removes (and that
   * `parseInt` skips): the ASCII ones, no-break space, the two Unicode line
   * terminators and the byte-order mark.
   */
  predicate IsSpace(c: char) {
    c == ' ' || c == '\t' || c == '\n' || c == '\r' || c == '\U{000B}' || c == '\U{000C}'
    || c == '\U{00A0}' || c == '\U{2028}' || c == '\U{2029}' || c == '\U{FEFF}'
  }

  predicate AllSpace(s: string) {
    forall k | 0 <= k < |s| :: IsSpace(s[k])
  }

  /** Drops the leading white space: what is left is a suffix of `s` that does not start with white space. */
  function TrimStart(s: string): (r: string)
    ensures |r| <= |s| && r == s[|s| - |r|..]
    ensures AllSpace(s[..|s| - |r|])
    ensures r != [] ==> !IsSpace(r[0])
  {
    if |s| > 0 && IsSpace(s[0]) then
      var r := TrimStart(s[1..]);
      var pre, rest := s[..|s| - |r|], s[1..][..|s| - 1 - |r|];
      assert forall k | 1 <= k < |pre| :: pre[k] == rest[k - 1];
      r
    else s
  }

  /** Drops the trailing white space: what is left is a prefix of `s` that does not end with white space. */
  function TrimEnd(s: string): (r: string)
    ensures |r| <= |s| && r == s[..|r|]
    ensures AllSpace(s[|r|..])
    ensures r != [] ==> !IsSpace(r[|r| - 1])
  {
    if |s| > 0 && IsSpace(s[|s| - 1]) then
      var r := TrimEnd(s[..|s| - 1]);
      assert s[..|s| - 1][|r|..] == s[|r|..|s| - 1];
      assert s[|r|..] == s[|r|..|s| - 1] + [s[|s| - 1]];
      r
    else s
  }

  /** `s.trim()`. */
  function Trim(s: string): string {
    TrimEnd(TrimStart(s))
  }

  /**
   * `trim` cuts the slice `s[i..j]` out of `s`: everything cut is white space,
   * and the slice neither starts nor ends with white space.
   */
  lemma TrimSlice(s: string) returns (i: nat, j: nat)
    ensures i <= j <= |s| && Trim(s) == s[i..j]
    ensures AllSpace(s[..i]) && AllSpace(s[j..])
    ensures i < j ==> !IsSpace(s[i]) && !IsSpace(s[j - 1])
  {
    var t := TrimStart(s);
    var r := TrimEnd(t);
    i := |s| - |t|;
    j := i + |r|;
    assert t[..|r|] == s[i..j];
    assert s[j..] == t[|r|..];
  }

  /** `s.trim()` is empty exactly when `s` is all white space (so `!s.trim()` means "blank"). */
  lemma TrimEmptyIff(s: string)
    ensures Trim(s) == "" <==> AllSpace(s)
  {
    var i, j := TrimSlice(s);
    if Trim(s) == "" {
      forall k | 0 <= k < |s| ensures IsSpace(s[k]) {
        if k < i { assert s[..i][k] == s[k]; } else { assert s[j..][k - j] == s[k]; }
      }
    }
  }

  /** A string that starts with something other than white space is left alone by `TrimStart`. */
  lemma TrimStartNoSpace(s: string)
    requires s != [] && !IsSpace(s[0])
    ensures TrimStart(s) == s
  {
  }

  /** A string that ends with something other than white space is left alone by `TrimEnd`. */
  lemma TrimEndNoSpace(s: string)
    requires s != [] && !IsSpace(s[|s| - 1])
    ensures TrimEnd(s) == s
  {
  }

  /** Trimming twice is trimming once. */
  lemma TrimIdempotent(s: string)
    ensures Trim(Trim(s)) == Trim(s)
  {
    var i, j := TrimSlice(s);
    var r := Trim(s);
    if r != [] {
      assert r[0] == s[i] && r[|r| - 1] == s[j - 1];
      TrimStartNoSpace(r);
      TrimEndNoSpace(r);
    }
  }

  /** `!s || !s.trim()` as the forms write it: empty after trimming. */
  predicate IsBlank(s: string) {
    Trim(s) == ""
  }

  /** A blank query (white space only) is found in every text. */
  lemma BlankQueryMatchesAll(text: string, query: string)
    requires IsBlank(query)
    ensures ContainsTrimmedQuery(text, query)
  {
    assert Lower("") == "";
    ContainsEmpty(Lower(text));
  }

  /** Typing an entry's own display text keeps that entry: the trimmed text occurs inside it. */
  lemma ContainsTrimmedSelf(text: string)
    ensures ContainsTrimmedQuery(text, text)
  {
    var i, j := TrimSlice(text);
    ContainsIgnoringCaseSlice(text, i, j);
  }

  /** Any slice of a text is found in it, case ignored. */
  lemma ContainsIgnoringCaseSlice(text: string, i: nat, j: nat)
    requires i <= j <= |text|
    ensures ContainsIgnoringCase(text, text[i..j])
  {
    var lt, lq := Lower(text), Lower(text[i..j]);
    assert lt[i..j] == lq;
    assert OccursAt(lt, lq, i);
  }

  /** A query found, case ignored, in one part of a concatenation is found in the whole. */
  lemma ContainsIgnoringCaseInConcat(a: string, b: string, query: string)
    requires ContainsIgnoringCase(a, query) || ContainsIgnoringCase(b, query)
    ensures ContainsIgnoringCase(a + b, query)
  {
    LowerAppend(a, b);
    ContainsInConcat(Lower(a), Lower(b), Lower(query));
  }

  /** The same for a trimmed query. */
  lemma ContainsTrimmedInConcat(a: string, b: string, query: string)
    requires ContainsTrimmedQuery(a, query) || ContainsTrimmedQuery(b, query)
    ensures ContainsTrimmedQuery(a + b, query)
  {
    ContainsIgnoringCaseInConcat(a, b, Trim(query));
  }

  /** White space added before and after a string does not change whether it is blank. */
  lemma BlankIgnoresPadding(before: string, s: string, after: string)
    requires AllSpace(before) && AllSpace(after)
    ensures IsBlank(before + s + after) <==> IsBlank(s)
  {
    var t := before + s + after;
    TrimEmptyIff(t);
    TrimEmptyIff(s);
    if AllSpace(s) {
      forall k | 0 <= k < |t| ensures IsSpace(t[k]) {
        if k < |before| { assert t[k] == before[k]; }
        else if k < |before| + |s| { assert t[k] == s[k - |before|]; }
        else { assert t[k] == after[k - |before| - |s|]; }
      }
    }
    if AllSpace(t) {
      forall k | 0 <= k < |s| ensures IsSpace(s[k]) {
        assert t[|before| + k] == s[k];
      }
    }
  }

  /** A string with white space at either end is nobody's trimmed form. */
  lemma NotATrimmedForm(s: string, str: string)
    requires Trim(str) != str
    ensures Trim(s) != str
  {
    TrimIdempotent(s);
  }

  // ---------------------------------------------------------------------------
  // Decimal rendering of integers, `parseInt`
  // ---------------------------------------------------------------------------

  function DigitChar(d: nat): char
    requires d < 10
  {
    ('0' as int + d) as char
  }

  predicate IsDecimalDigit(c: char) {
    '0' <= c <= '9'
  }

  /** The decimal form of a natural number, most significant digit first, without leading zeros. */
  function NatToString(n: nat): (r: string)
    ensures 1 <= |r|
    ensures forall k | 0 <= k < |r| :: IsDecimalDigit(r[k])
    ensures n > 0 ==> r[0] != '0'
    ensures n == 0 ==> r == "0"
  {
    if n < 10 then [DigitChar(n)] else NatToString(n / 10) + [DigitChar(n % 10)]
  }

  /** `String(n)` (and `${n}`) for an integer-valued number. */
  function IntToString(n: int): string {
    if n < 0 then "-" + NatToString(-n) else NatToString(n)
  }

  /** The value of `c` as a digit in base `radix` (10 or 16), if it is one. */
  function DigitValue(c: char, radix: nat): Option<nat> {
    var v :=
      if '0' <= c <= '9' then c as int - '0' as int
      else if 'a' <= c <= 'z' then c as int - 'a' as int + 10
      else if 'A' <= c <= 'Z' then c as int - 'A' as int + 10
      else radix;
    if v < radix then Some(v) else None
  }

  /** Length of the longest prefix of `s` made of digits in base `radix`. */
  function DigitRun(s: string, radix: nat): (n: nat)
    ensures n <= |s|
    ensures forall k | 0 <= k < n :: DigitValue(s[k], radix).Some?
    ensures n < |s| ==> DigitValue(s[n], radix).None?
  {
    if |s| > 0 && DigitValue(s[0], radix).Some? then 1 + DigitRun(s[1..], radix) else 0
  }

  lemma ProductIsNat(a: nat, b: nat)
    ensures a * b >= 0
  {
  }

  /** The number written by a string of digits, most significant first. */
  function DigitsValue(s: string, radix: nat): nat
    requires forall k | 0 <= k < |s| :: DigitValue(s[k], radix).Some?
  {
    if s == [] then 0
    else
      var init := s[..|s| - 1];
      assert forall k | 0 <= k < |init| :: init[k] == s[k];
      var high := DigitsValue(init, radix);
      ProductIsNat(high, radix);
      high * radix + DigitValue(s[|s| - 1], radix).value
  }

  predicate HasHexPrefix(s: string) {
    |s| >= 2 && s[0] == '0' && (s[1] == 'x' || s[1] == 'X')
  }

  /** The unsigned part of `parseInt`: base 16 after `0x`/`0X`, base 10 otherwise; `None` when no digit follows. */
  function ParseUnsigned(u: string): Option<nat> {
    var radix := if HasHexPrefix(u) then 16 else 10;
    var w := if HasHexPrefix(u) then u[2..] else u;
    var n := DigitRun(w, radix);
    if n == 0 then None else Some(DigitsValue(w[..n], radix))
  }

  /**
   * `parseInt(s)` with no radix: skip leading white space, take an optional
   * sign, then the unsigned part. `None` stands for `NaN` (no digit at all).
   */
  function ParseInt(s: string): Option<int> {
    var t := TrimStart(s);
    if |t| > 0 && t[0] == '-' then
      match ParseUnsigned(t[1..])
      case Some(v) => Some(0 - v as int)
      case None => None
    else if |t| > 0 && t[0] == '+' then
      match ParseUnsigned(t[1..])
      case Some(v) => Some(v)
      case None => None
    else
      match ParseUnsigned(t)
      case Some(v) => Some(v)
      case None => None
  }

  /** A string made only of decimal digits is read back in full by `DigitRun`. */
  lemma {:induction false} DigitRunAllDigits(s: string)
    requires forall k | 0 <= k < |s| :: IsDecimalDigit(s[k])
    ensures DigitRun(s, 10) == |s|
  {
    if |s| > 0 {
      DigitRunAllDigits(s[1..]);
    }
  }

  /** Reading the decimal form of `n` gives `n` back. */
  lemma {:induction false} DigitsValueOfNatToString(n: nat)
    ensures DigitsValue(NatToString(n), 10) == n
  {
    var s := NatToString(n);
    if n >= 10 {
      DigitsValueOfNatToString(n / 10);
      assert s[..|s| - 1] == NatToString(n / 10);
    }
  }

  /** The unsigned reader recovers a natural number from its decimal form. */
  lemma ParseUnsignedOfNatToString(n: nat)
    ensures ParseUnsigned(NatToString(n)) == Some(n)
  {
    var d := NatToString(n);
    assert !HasHexPrefix(d);
    DigitRunAllDigits(d);
    assert d[..|d|] == d;
    DigitsValueOfNatToString(n);
  }

  /** `parseInt` on a string that starts with neither white space nor a sign is the unsigned reading. */
  lemma ParseIntUnsigned(t: string)
    requires t != [] && !IsSpace(t[0]) && t[0] != '-' && t[0] != '+'
    ensures ParseInt(t) == ParseUnsigned(t)
  {
    TrimStartNoSpace(t);
  }

  /** `parseInt` on `"-" + u` is the negated unsigned reading of `u`. */
  lemma ParseIntMinus(u: string)
    ensures ParseInt("-" + u) == if ParseUnsigned(u).Some? then Some(0 - ParseUnsigned(u).value as int) else None
  {
    var t := "-" + u;
    assert t[0] == '-';
    TrimStartNoSpace(t);
    assert t[1..] == u;
  }

  /** `parseInt(String(n)) === n` for every integer `n`. */
  lemma ParseIntOfIntToString(n: int)
    ensures ParseInt(IntToString(n)) == Some(n)
  {
    if n < 0 {
      var m: nat := -n;
      assert IntToString(n) == "-" + NatToString(m);
      ParseIntOfNegative(m);
    } else {
      ParseIntOfNatToString(n);
    }
  }

  lemma ParseIntOfNegative(m: nat)
    ensures ParseInt("-" + NatToString(m)) == Some(0 - m)
  {
    var d := NatToString(m);
    ParseUnsignedOfNatToString(m);
    ParseIntMinus(d);
  }

  lemma ParseIntOfNatToString(n: nat)
    ensures ParseInt(NatToString(n)) == Some(n)
  {
    var d := NatToString(n);
    assert IsDecimalDigit(d[0]);
    ParseIntUnsigned(d);
    ParseUnsignedOfNatToString(n);
  }

  /** `s.slice(k)`: everything from index `k` on, or "" past the end. */
  function Slice(s: string, k: nat): (r: string)
    ensures |s| >= k ==> s == s[..k] + r
  {
    if |s| >= k then s[k..] else ""
  }

  // ---------------------------------------------------------------------------
  // Lexicographic order (`Array.prototype.sort` on strings)
  // ---------------------------------------------------------------------------

  /** `a < b` in lexicographic character order; a proper prefix comes first. */
  predicate Below(a: string, b: string) {
    if a == [] then b != []
    else if b == [] then false
    else if a[0] != b[0] then a[0] < b[0]
    else Below(a[1..], b[1..])
  }

  lemma {:induction false} BelowIrreflexive(a: string)
    ensures !Below(a, a)
  {
    if a != [] {
      BelowIrreflexive(a[1..]);
    }
  }

  lemma {:induction false} BelowTransitive(a: string, b: string, c: string)
    requires Below(a, b) && Below(b, c)
    ensures Below(a, c)
  {
    if a != [] && b != [] && c != [] && a[0] == b[0] && b[0] == c[0] {
      BelowTransitive(a[1..], b[1..], c[1..]);
    }
  }

  /** Two different strings are ordered one way or the other. */
  lemma {:induction false} BelowTotal(a: string, b: string)
    requires a != b
    ensures Below(a, b) || Below(b, a)
  {
    if a != [] && b != [] && a[0] == b[0] {
      assert a == [a[0]] + a[1..] && b == [b[0]] + b[1..];
      BelowTotal(a[1..], b[1..]);
    }
  }

  /** Every pair is in increasing order, so no string occurs twice. */
  predicate StrictlySorted(s: seq<string>) {
    forall i, j | 0 <= i < j < |s| :: Below(s[i], s[j])
  }

  /** One insertion step of the sort: `x` goes before the first element it is below. */
  function Insert(x: string, s: seq<string>): seq<string> {
    if s == [] then [x]
    else if Below(x, s[0]) then [x] + s
    else [s[0]] + Insert(x, s[1..])
  }

  /** `s.sort()` with the default comparison: insertion sort in lexicographic order. */
  function Sort(s: seq<string>): seq<string> {
    if s == [] then [] else Insert(s[0], Sort(s[1..]))
  }

  lemma {:induction false} InsertElements(x: string, s: seq<string>)
    ensures |Insert(x, s)| == |s| + 1
    ensures forall y :: y in Insert(x, s) <==> y == x || y in s
  {
    if s != [] && !Below(x, s[0]) {
      InsertElements(x, s[1..]);
      assert s == [s[0]] + s[1..];
    }
  }

  /** Inserting a new string into a strictly sorted list keeps it strictly sorted. */
  lemma {:induction false} InsertStrictlySorted(x: string, s: seq<string>)
    requires StrictlySorted(s) && x !in s
    ensures StrictlySorted(Insert(x, s))
  {
    if s == [] {
    } else if Below(x, s[0]) {
      forall j | 0 <= j < |s| ensures Below(x, s[j]) {
        if j > 0 {
          BelowTransitive(x, s[0], s[j]);
        }
      }
    } else {
      var t := s[1..];
      InsertStrictlySorted(x, t);
      InsertElements(x, t);
      BelowTotal(x, s[0]);
      var r := Insert(x, t);
      forall k | 0 <= k < |r| ensures Below(s[0], r[k]) {
        if r[k] != x {
          assert r[k] in r;
          var m :| 0 <= m < |t| && t[m] == r[k];
          assert s[m + 1] == r[k];
        }
      }
    }
  }

  /**
   * Sorting a list without duplicates yields a strictly sorted list with the
   * same elements, so it is free of duplicates too.
   */
  lemma {:induction false} SortDistinct(s: seq<string>)
    requires NoDuplicates(s)
    ensures StrictlySorted(Sort(s))
    ensures |Sort(s)| == |s|
    ensures forall y :: y in Sort(s) <==> y in s
  {
    if s != [] {
      var t := s[1..];
      assert NoDuplicates(t);
      SortDistinct(t);
      assert s[0] !in t;
      InsertStrictlySorted(s[0], Sort(t));
      InsertElements(s[0], Sort(t));
      assert s == [s[0]] + t;
    }
  }

  /** A strictly sorted list has no duplicates. */
  lemma StrictlySortedDistinct(s: seq<string>)
    requires StrictlySorted(s)
    ensures NoDuplicates(s)
  {
    forall i, j | 0 <= i < j < |s| ensures s[i] != s[j] {
      BelowIrreflexive(s[i]);
    }
  }
}
