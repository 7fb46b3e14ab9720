/** Sequence helpers shared by the store and the pages: the array methods
    `filter` and `find` of the source, and what "order-preserving
    subsequence" means. */
module Seqs {

  datatype Option<+T> = None | Some(value: T)

  /** `r` is `s` with some elements deleted and the rest kept in order. */
  predicate SubsequenceOf<T(==)>(r: seq<T>, s: seq<T>)
    decreases |s|
  {
    if r == [] then true
    else if s == [] then false
    else (r[0] == s[0] && SubsequenceOf(r[1..], s[1..])) || SubsequenceOf(r, s[1..])
  }

  /** `s.filter(p)`: the elements satisfying `p`, in their original order. */
  function Filter<T(==,!new)>(p: T -> bool, s: seq<T>): (r: seq<T>)
    ensures |r| <= |s|
    ensures forall x :: x in r <==> x in s && p(x)
    ensures SubsequenceOf(r, s)
    ensures forall x :: multiset(r)[x] == if p(x) then multiset(s)[x] else 0
  {
    if s == [] then []
    else if p(s[0]) then
      var rest := Filter(p, s[1..]);
      assert ([s[0]] + rest)[1..] == rest;
      assert s == [s[0]] + s[1..];
      [s[0]] + rest
    else
      assert s == [s[0]] + s[1..];
      Filter(p, s[1..])
  }

  /** One step of `Filter`, as an equation. */
  lemma FilterCons<T(!new)>(p: T -> bool, x: T, s: seq<T>)
    ensures Filter(p, [x] + s) == if p(x) then [x] + Filter(p, s) else Filter(p, s)
  {
    assert ([x] + s)[0] == x && ([x] + s)[1..] == s;
  }

  /** Filtering by a test and by its negation splits a sequence in two. */
  lemma {:induction false} FilterSplit<T(!new)>(p: T -> bool, q: T -> bool, s: seq<T>)
    requires forall x :: q(x) == !p(x)
    ensures multiset(Filter(p, s)) + multiset(Filter(q, s)) == multiset(s)
    ensures |Filter(p, s)| + |Filter(q, s)| == |s|
  {
    if s != [] {
      assert s == [s[0]] + s[1..];
      FilterCons(p, s[0], s[1..]);
      FilterCons(q, s[0], s[1..]);
      FilterSplit(p, q, s[1..]);
    }
  }

  /** A filter that every element passes returns its input unchanged. */
  lemma {:induction false} FilterKeepsAll<T(!new)>(p: T -> bool, s: seq<T>)
    requires forall x :: x in s ==> p(x)
    ensures Filter(p, s) == s
  {
    if s != [] {
      assert s == [s[0]] + s[1..];
      FilterKeepsAll(p, s[1..]);
    }
  }

  /** Filtering distributes over concatenation, so a filter never reorders. */
  lemma {:induction false} FilterAppend<T(!new)>(p: T -> bool, s: seq<T>, t: seq<T>)
    ensures Filter(p, s + t) == Filter(p, s) + Filter(p, t)
  {
    if s == [] {
      assert s + t == t;
    } else {
      assert (s + t)[1..] == s[1..] + t;
      FilterAppend(p, s[1..], t);
    }
  }

  /** Filtering by `p` and then by `q` is filtering once by their
      conjunction. */
  lemma {:induction false} FilterFilter<T(!new)>(p: T -> bool, q: T -> bool, pq: T -> bool, s: seq<T>)
    requires forall x :: pq(x) == (p(x) && q(x))
    ensures Filter(pq, s) == Filter(q, Filter(p, s))
  {
    if s != [] {
      assert s == [s[0]] + s[1..];
      FilterFilter(p, q, pq, s[1..]);
      FilterCons(p, s[0], s[1..]);
      FilterCons(pq, s[0], s[1..]);
      FilterCons(q, s[0], Filter(p, s[1..]));
    }
  }

  /** Two tests that agree on every element filter alike. */
  lemma {:induction false} FilterExt<T(!new)>(p: T -> bool, q: T -> bool, s: seq<T>)
    requires forall x :: x in s ==> p(x) == q(x)
    ensures Filter(p, s) == Filter(q, s)
  {
    if s != [] {
      assert forall x :: x in s[1..] ==> x in s;
      FilterExt(p, q, s[1..]);
    }
  }

  /** `s.find(p)`: the first element satisfying `p`, if any. */
  function Find<T(==,!new)>(p: T -> bool, s: seq<T>): (r: Option<T>)
    ensures r.None? <==> forall x :: x in s ==> !p(x)
    ensures r.Some? ==> p(r.value) && exists i :: 0 <= i < |s| && s[i] == r.value && NoneBefore(p, s, i)
  {
    if s == [] then None
    else if p(s[0]) then
      assert NoneBefore(p, s, 0);
      Some(s[0])
    else
      var r := Find(p, s[1..]);
      if r.Some? then
        var i :| 0 <= i < |s[1..]| && s[1..][i] == r.value && NoneBefore(p, s[1..], i);
        assert s[i + 1] == r.value && NoneBefore(p, s, i + 1);
        r
      else r
  }

  /** No element before position `i` of `s` satisfies `p`. */
  predicate NoneBefore<T>(p: T -> bool, s: seq<T>, i: int)
    requires 0 <= i <= |s|
  {
    forall j :: 0 <= j < i ==> !p(s[j])
  }

  /** Two elements found by the same search are the same element: the
      first match is unique. */
  lemma FindIsFirst<T(!new)>(p: T -> bool, s: seq<T>, i: nat)
    requires i < |s| && p(s[i]) && NoneBefore(p, s, i)
    ensures Find(p, s) == Some(s[i])
  {
    var r := Find(p, s);
    var k :| 0 <= k < |s| && s[k] == r.value && NoneBefore(p, s, k);
    assert !(k < i) && !(i < k);
  }
}
