/**
 * The array operations the front end builds its lists with: `filter`, the
 * de-duplication done by `[...new Set(xs)]`, and `sort`, together with the
 * relations used to state what they keep (order-preserving subsequence,
 * no duplicates, sortedness).
 */
module Seqs {

  /** A value that may be absent (`null`, `undefined`, `NaN` or a failed call, depending on the use). */
  datatype Option<+T> = None | Some(value: T)

  // ---------------------------------------------------------------------------
  // filter
  // ---------------------------------------------------------------------------

  /** `s.filter(p)`: the elements that satisfy `p`, in their original order. */
  function Filter<T>(s: seq<T>, p: T -> bool): (r: seq<T>)
    ensures |r| <= |s|
    ensures forall k | 0 <= k < |r| :: p(r[k])
  {
    if s == [] then []
    else if p(s[0]) then [s[0]] + Filter(s[1..], p)
    else Filter(s[1..], p)
  }

  /** `sub` can be obtained from `s` by deleting elements (order kept). */
  predicate IsSubsequence<T(==)>(sub: seq<T>, s: seq<T>) {
    if sub == [] then true
    else if s == [] then false
    else if sub[0] == s[0] then IsSubsequence(sub[1..], s[1..])
    else IsSubsequence(sub, s[1..])
  }

  /** Dropping the head of a subsequence leaves a subsequence. */
  lemma {:induction false} SubsequenceOfTail<T>(sub: seq<T>, s: seq<T>)
    requires sub != [] && IsSubsequence(sub, s)
    ensures IsSubsequence(sub[1..], s)
    decreases |s|, 1
  {
    if sub[0] != s[0] {
      SubsequenceOfTail(sub, s[1..]);
    }
    SubsequenceOfLonger(sub[1..], s);
  }

  /** A subsequence of the tail of `s` is a subsequence of `s`. */
  lemma {:induction false} SubsequenceOfLonger<T>(sub: seq<T>, s: seq<T>)
    requires s != [] && IsSubsequence(sub, s[1..])
    ensures IsSubsequence(sub, s)
    decreases |s|, 0
  {
    if sub != [] && sub[0] == s[0] {
      SubsequenceOfTail(sub, s[1..]);
    }
  }

  /** Every element of a subsequence is an element of the whole. */
  lemma {:induction false} SubsequenceMembers<T>(sub: seq<T>, s: seq<T>)
    requires IsSubsequence(sub, s)
    ensures forall k | 0 <= k < |sub| :: sub[k] in s
  {
    if sub != [] && s != [] {
      if sub[0] == s[0] {
        SubsequenceMembers(sub[1..], s[1..]);
        forall k | 1 <= k < |sub| ensures sub[k] in s {
          assert sub[k] == sub[1..][k - 1];
        }
      } else {
        SubsequenceMembers(sub, s[1..]);
      }
    }
  }

  /** `filter` yields an order-preserving subsequence of its input. */
  lemma {:induction false} FilterIsSubsequence<T>(s: seq<T>, p: T -> bool)
    ensures IsSubsequence(Filter(s, p), s)
  {
    if s != [] {
      FilterIsSubsequence(s[1..], p);
      if p(s[0]) {
        var r := Filter(s, p);
        assert r[0] == s[0] && r[1..] == Filter(s[1..], p);
      } else {
        SubsequenceOfLonger(Filter(s[1..], p), s);
      }
    }
  }

  /** `filter` keeps every copy of an accepted element and no copy of a rejected one. */
  lemma {:induction false} FilterCounts<T>(s: seq<T>, p: T -> bool, x: T)
    ensures multiset(Filter(s, p))[x] == if p(x) then multiset(s)[x] else 0
  {
    if s != [] {
      FilterCounts(s[1..], p, x);
      assert s == [s[0]] + s[1..];
    }
  }

  /** Every copy of an element that satisfies `p` is kept, and no copy of any other. */
  lemma FilterCountsAll<T>(s: seq<T>, p: T -> bool)
    ensures forall x :: multiset(Filter(s, p))[x] == if p(x) then multiset(s)[x] else 0
  {
    forall x ensures multiset(Filter(s, p))[x] == if p(x) then multiset(s)[x] else 0 {
      FilterCounts(s, p, x);
    }
  }

  /** Every element that satisfies `p` is kept. */
  lemma FilterKeepsMatching<T>(s: seq<T>, p: T -> bool)
    ensures forall k | 0 <= k < |s| && p(s[k]) :: s[k] in Filter(s, p)
  {
    forall k | 0 <= k < |s| && p(s[k]) ensures s[k] in Filter(s, p) {
      FilterCounts(s, p, s[k]);
      assert s[k] in multiset(s);
    }
  }

  /** Filtering by a predicate that accepts everything returns the input unchanged. */
  lemma {:induction false} FilterKeepsAll<T>(s: seq<T>, p: T -> bool)
    requires forall k | 0 <= k < |s| :: p(s[k])
    ensures Filter(s, p) == s
  {
    if s != [] {
      FilterKeepsAll(s[1..], p);
    }
  }

  /** When exactly the element at `i` is rejected, filtering cuts out that one element. */
  lemma {:induction false} FilterRemovesOne<T>(s: seq<T>, p: T -> bool, i: int)
    requires 0 <= i < |s| && !p(s[i])
    requires forall j | 0 <= j < |s| && j != i :: p(s[j])
    ensures Filter(s, p) == s[..i] + s[i + 1..]
  {
    var tail := s[1..];
    if i == 0 {
      assert forall k | 0 <= k < |tail| :: p(tail[k]) by {
        forall k | 0 <= k < |tail| ensures p(tail[k]) { assert tail[k] == s[k + 1]; }
      }
      FilterKeepsAll(tail, p);
      assert s[..0] + s[1..] == tail;
    } else {
      assert p(s[0]);
      assert forall j | 0 <= j < |tail| && j != i - 1 :: p(tail[j]) by {
        forall j | 0 <= j < |tail| && j != i - 1 ensures p(tail[j]) { assert tail[j] == s[j + 1]; }
      }
      FilterRemovesOne(tail, p, i - 1);
      assert Filter(s, p) == [s[0]] + Filter(tail, p);
      assert tail[..i - 1] == s[1..i] && tail[i..] == s[i + 1..];
      assert [s[0]] + s[1..i] == s[..i];
    }
  }

  /** Filtering twice with the same predicate is filtering once. */
  lemma FilterIdempotent<T>(s: seq<T>, p: T -> bool)
    ensures Filter(Filter(s, p), p) == Filter(s, p)
  {
    FilterKeepsAll(Filter(s, p), p);
  }

  /** A subsequence relation holds between a sequence and itself. */
  lemma {:induction false} SubsequenceReflexive<T>(s: seq<T>)
    ensures IsSubsequence(s, s)
  {
    if s != [] {
      SubsequenceReflexive(s[1..]);
    }
  }

  // ---------------------------------------------------------------------------
  // Exactly-one-match lookups
  // ---------------------------------------------------------------------------

  /** Index `i` holds the one and only element of `s` that satisfies `p`. */
  predicate OnlyMatchAt<T>(s: seq<T>, p: T -> bool, i: int) {
    0 <= i < |s| && p(s[i]) && forall j | 0 <= j < |s| && j != i :: !p(s[j])
  }

  /** `const valid = s.filter(p); return valid.length === 1 ? id(valid[0]) : -1`. */
  function UniqueId<T>(s: seq<T>, p: T -> bool, id: T -> int): int {
    var valid := Filter(s, p);
    if |valid| == 1 then id(valid[0]) else -1
  }

  /** Filtering by a predicate that rejects everything returns the empty list. */
  lemma {:induction false} FilterKeepsNone<T>(s: seq<T>, p: T -> bool)
    requires forall k | 0 <= k < |s| :: !p(s[k])
    ensures Filter(s, p) == []
  {
    if s != [] {
      FilterKeepsNone(s[1..], p);
    }
  }

  lemma {:induction false} FilterOnlyMatch<T>(s: seq<T>, p: T -> bool, i: int)
    requires OnlyMatchAt(s, p, i)
    ensures Filter(s, p) == [s[i]]
  {
    if i == 0 {
      FilterKeepsNone(s[1..], p);
    } else {
      assert OnlyMatchAt(s[1..], p, i - 1);
      FilterOnlyMatch(s[1..], p, i - 1);
    }
  }

  lemma {:induction false} FilterSingletonIndex<T>(s: seq<T>, p: T -> bool) returns (i: int)
    requires |Filter(s, p)| == 1
    ensures OnlyMatchAt(s, p, i) && Filter(s, p) == [s[i]]
  {
    if p(s[0]) {
      i := 0;
      FilterKeepsMatching(s[1..], p);
      forall j | 0 < j < |s| ensures !p(s[j]) {
        assert s[j] == s[1..][j - 1];
      }
    } else {
      var k := FilterSingletonIndex(s[1..], p);
      i := k + 1;
    }
  }

  /**
   * The lookup returns the id of the element that alone satisfies `p`, and
   * -1 when no element or more than one element does.
   */
  lemma UniqueIdSpec<T>(s: seq<T>, p: T -> bool, id: T -> int)
    ensures forall i | OnlyMatchAt(s, p, i) :: UniqueId(s, p, id) == id(s[i])
    ensures (forall i | 0 <= i < |s| :: !OnlyMatchAt(s, p, i)) ==> UniqueId(s, p, id) == -1
  {
    forall i | OnlyMatchAt(s, p, i) ensures UniqueId(s, p, id) == id(s[i]) {
      FilterOnlyMatch(s, p, i);
    }
    if |Filter(s, p)| == 1 {
      var i := FilterSingletonIndex(s, p);
      assert OnlyMatchAt(s, p, i);
    }
  }

  // ---------------------------------------------------------------------------
  // Duplicates and `[...new Set(s)]`
  // ---------------------------------------------------------------------------

  predicate NoDuplicates<T(==)>(s: seq<T>) {
    forall i, j | 0 <= i < j < |s| :: s[i] != s[j]
  }

  /** `[...new Set(s)]`: the first occurrence of every element, in order of first occurrence. */
  function Dedup<T(==,!new)>(s: seq<T>): (r: seq<T>)
    ensures NoDuplicates(r)
    ensures forall x :: x in r <==> x in s
    ensures |r| <= |s|
  {
    if s == [] then []
    else
      var init := s[..|s| - 1];
      var prev := Dedup(init);
      assert s == init + [s[|s| - 1]];
      if s[|s| - 1] in prev then prev else prev + [s[|s| - 1]]
  }
}
