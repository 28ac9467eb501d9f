/** The list operations the pages build their views from: JavaScript's `Array.prototype.filter`,
    `slice` and `findIndex`, and the case-insensitive search test shared by the blog and FAQ pages. */
module Listing {
  import opened Text

  /** `r` is `s` with some elements left out and the rest kept in their order. */
  predicate IsSubsequence<T(==)>(r: seq<T>, s: seq<T>)
    decreases |s|
  {
    if |r| == 0 then true
    else if |s| == 0 then false
    else if r[0] == s[0] then IsSubsequence(r[1..], s[1..])
    else IsSubsequence(r, s[1..])
  }

  /** Every list is a subsequence of itself. */
  lemma {:induction false} SubsequenceOfItself<T>(s: seq<T>)
    ensures IsSubsequence(s, s)
    decreases |s|
  {
    if |s| > 0 {
      SubsequenceOfItself(s[1..]);
    }
  }

  /** `s.filter(keep)`: the elements for which `keep` holds, in their order in `s`. */
  function Filter<T(==)>(s: seq<T>, keep: T -> bool): (r: seq<T>)
    ensures forall x | x in r :: x in s && keep(x)
    ensures forall x | x in s && keep(x) :: x in r
    ensures IsSubsequence(r, s)
    ensures |r| <= |s|
    ensures forall x | x in s :: multiset(r)[x] == if keep(x) then multiset(s)[x] else 0
  {
    if |s| == 0 then []
    else
      assert s == [s[0]] + s[1..];
      if keep(s[0]) then [s[0]] + Filter(s[1..], keep)
      else Filter(s[1..], keep)
  }

  /** A filter that keeps every element returns the list unchanged. */
  lemma {:induction false} FilterKeepsAll<T>(s: seq<T>, keep: T -> bool)
    requires forall x | x in s :: keep(x)
    ensures Filter(s, keep) == s
  {
    if |s| > 0 {
      var rest := s[1..];
      forall x | x in rest ensures keep(x) {
        assert x in s;
      }
      FilterKeepsAll(rest, keep);
      assert keep(s[0]);
      assert Filter(s, keep) == [s[0]] + Filter(rest, keep);
      assert s == [s[0]] + rest;
    }
  }

  /** Filtering twice with the same test is filtering once. */
  lemma {:induction false} FilterIdempotent<T>(s: seq<T>, keep: T -> bool)
    ensures Filter(Filter(s, keep), keep) == Filter(s, keep)
  {
    FilterKeepsAll(Filter(s, keep), keep);
  }

  /** The position JavaScript's `slice` uses for an index: a negative one counts back from the end,
      and either kind is clamped to the list. */
  function SliceIndex(i: int, n: nat): (k: nat)
    ensures k <= n
    ensures 0 <= i <= n ==> k == i
    ensures i > n ==> k == n
  {
    if i < 0 then (if n + i < 0 then 0 else n + i)
    else if i > n then n
    else i
  }

  /** `s.slice(start, end)`: the elements from the start position up to the end position, empty when
      the end does not come after the start. */
  function JsSlice<T>(s: seq<T>, start: int, end: int): (r: seq<T>)
    ensures |r| <= |s|
    ensures 0 <= start <= end <= |s| ==> r == s[start..end]
    ensures 0 <= start && start <= end ==> |r| <= end - start
    ensures start >= |s| ==> r == []
  {
    var lo := SliceIndex(start, |s|);
    var hi := SliceIndex(end, |s|);
    if lo < hi then s[lo..hi] else []
  }

  /** `s.findIndex(p)`: the first position whose element satisfies `p`, or -1. */
  function FindIndex<T>(s: seq<T>, p: T -> bool): (i: int)
    ensures -1 <= i < |s|
    ensures i >= 0 ==> p(s[i]) && forall j | 0 <= j < i :: !p(s[j])
    ensures i == -1 <==> forall j | 0 <= j < |s| :: !p(s[j])
  {
    if |s| == 0 then -1
    else if p(s[0]) then 0
    else
      var k := FindIndex(s[1..], p);
      if k == -1 then -1 else k + 1
  }

  /** The search test of the blog and FAQ pages: the lower-cased term occurs in one of the entry's
      text fields or in one of its tags. */
  predicate MatchesSearch(fields: seq<string>, tags: seq<string>, term: string) {
    (exists f | f in fields :: ContainsIgnoreCase(f, term)) ||
    (exists t | t in tags :: ContainsIgnoreCase(t, term))
  }

  /** An empty search matches every entry that has a text field. */
  lemma EmptySearchMatches(fields: seq<string>, tags: seq<string>)
    requires |fields| > 0
    ensures MatchesSearch(fields, tags, "")
  {
    ContainsEmpty(ToLower(fields[0]));
    assert ToLower("") == "";
    assert ContainsIgnoreCase(fields[0], "");
  }
}
