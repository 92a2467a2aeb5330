/** Sequence operations the engines share: JavaScript's `find`/`findIndex`,
    `filter`, and the bounded `unshift`-then-`pop` used by the history and coop logs. */
module Seqs {
  import opened Wrappers

  /** Index of the first element satisfying `p` (`Array.prototype.findIndex`;
      `find` returns the element at this index). */
  function FindFirst<T>(p: T -> bool, s: seq<T>): (r: Option<nat>)
    ensures r.Some? ==> r.value < |s| && p(s[r.value])
    ensures r.Some? ==> forall j :: 0 <= j < r.value ==> !p(s[j])
    ensures r.None? <==> forall j :: 0 <= j < |s| ==> !p(s[j])
  {
    if |s| == 0 then None
    else if p(s[0]) then Some(0)
    else match FindFirst(p, s[1..])
      case None => None
      case Some(i) => Some(i + 1)
  }

  /** `r` is `s` with some elements left out: the elements of `r` occur in `s`
      in the same order. */
  ghost predicate Subsequence<T>(r: seq<T>, s: seq<T>)
    decreases |s|
  {
    |r| == 0 || (|s| > 0 && if r[0] == s[0] then Subsequence(r[1..], s[1..]) else Subsequence(r, s[1..]))
  }

  /** The elements of `s` satisfying `p`, in their original order (`Array.prototype.filter`). */
  function Filter<T>(p: T -> bool, s: seq<T>): (r: seq<T>)
    ensures |r| <= |s|
    ensures Subsequence(r, s)
    ensures forall i :: 0 <= i < |r| ==> r[i] in s && p(r[i])
    ensures forall i :: 0 <= i < |s| && p(s[i]) ==> s[i] in r
  {
    if |s| == 0 then []
    else
      var rest := Filter(p, s[1..]);
      if p(s[0]) then
        assert ([s[0]] + rest)[1..] == rest;
        [s[0]] + rest
      else
        assert rest != [] ==> rest[0] != s[0];
        rest
  }

  /** `Filter` keeps every copy of a kept element and no copy of a dropped one. */
  lemma {:induction false} FilterCounts<T(!new)>(p: T -> bool, s: seq<T>)
    ensures forall x :: multiset(Filter(p, s))[x] == if p(x) then multiset(s)[x] else 0
  {
    if |s| > 0 {
      FilterCounts(p, s[1..]);
      assert s == [s[0]] + s[1..];
      assert multiset(s) == multiset{s[0]} + multiset(s[1..]);
      assert multiset([s[0]] + Filter(p, s[1..])) == multiset{s[0]} + multiset(Filter(p, s[1..]));
    }
  }

  /** Filtering distributes over concatenation: the kept elements stay in order. */
  lemma {:induction false} FilterAppend<T>(p: T -> bool, a: seq<T>, b: seq<T>)
    ensures Filter(p, a + b) == Filter(p, a) + Filter(p, b)
  {
    if |a| == 0 {
      assert a + b == b;
    } else {
      assert (a + b)[1..] == a[1..] + b;
      FilterAppend(p, a[1..], b);
    }
  }

  /** Filtering keeps the whole sequence when every element qualifies. */
  lemma {:induction false} FilterKeepsAll<T>(p: T -> bool, s: seq<T>)
    requires forall i :: 0 <= i < |s| ==> p(s[i])
    ensures Filter(p, s) == s
  {
    if |s| > 0 {
      FilterKeepsAll(p, s[1..]);
    }
  }

  /** `s` with its first element satisfying `p` replaced by `f` of it; unchanged when
      no element satisfies `p` (find-then-assign on an object held in an array). */
  function UpdateFirst<T>(p: T -> bool, f: T -> T, s: seq<T>): (r: seq<T>)
    ensures |r| == |s|
    ensures match FindFirst(p, s)
      case None => r == s
      case Some(i) => r[i] == f(s[i]) && forall j :: 0 <= j < |s| && j != i ==> r[j] == s[j]
  {
    match FindFirst(p, s)
    case None => s
    case Some(i) => s[i := f(s[i])]
  }

  /** `x` put in front of `s` (`unshift`), then the last element dropped (`pop`)
      once the length exceeds `cap`. The pop happens at most once. */
  function PushFrontCapped<T>(x: T, s: seq<T>, cap: nat): (r: seq<T>)
    requires cap > 0
    ensures |s| < cap ==> r == [x] + s
    ensures |s| >= cap ==> |r| == |s| && r == [x] + s[..|s| - 1]
    ensures |s| <= cap ==> |r| <= cap
    ensures |r| > 0 && r[0] == x
  {
    var grown := [x] + s;
    if |grown| > cap then grown[..|grown| - 1] else grown
  }
}
