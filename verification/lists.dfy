/** Sequence helpers shared by the feeds: keeping the present results of a
    partial mapping, and counting. */
module Lists {
  import opened Base

  /** `f` applied to each element, keeping the present results in order. */
  function FilterMap<A, B(!new)>(s: seq<A>, f: A -> Option<B>): (r: seq<B>)
    ensures |r| <= |s|
    ensures forall y :: y in r <==> exists i :: 0 <= i < |s| && f(s[i]) == Some(y)
  {
    if s == [] then []
    else
      var rest := FilterMap(s[1..], f);
      assert forall i :: 0 < i < |s| ==> s[i] == s[1..][i - 1];
      match f(s[0])
      case Some(y) => [y] + rest
      case None => rest
  }

  /** When every element maps, the result is the mapping, element by element. */
  lemma {:induction false} FilterMapTotal<A, B(!new)>(s: seq<A>, f: A -> Option<B>)
    requires forall i :: 0 <= i < |s| ==> f(s[i]).Some?
    ensures |FilterMap(s, f)| == |s|
    ensures forall i :: 0 <= i < |s| ==> FilterMap(s, f)[i] == f(s[i]).value
  {
    if s != [] {
      FilterMapTotal(s[1..], f);
    }
  }

  /** The elements satisfying `p`, in order. */
  function Filter<A(!new)>(s: seq<A>, p: A -> bool): (r: seq<A>)
    ensures |r| <= |s|
    ensures forall x :: x in r <==> x in s && p(x)
    ensures multiset(r) <= multiset(s)
    ensures forall k :: 0 <= k < |r| ==> p(r[k])
  {
    if s == [] then []
    else
      var rest := Filter(s[1..], p);
      assert s == [s[0]] + s[1..];
      if p(s[0]) then [s[0]] + rest else rest
  }

  /** Filtering a sequence with a known head. */
  lemma FilterCons<A(!new)>(x: A, y: seq<A>, p: A -> bool)
    ensures Filter([x] + y, p) == (if p(x) then [x] else []) + Filter(y, p)
  {
    assert ([x] + y)[1..] == y;
  }

  /** Filtering distributes over concatenation. */
  lemma {:induction false} FilterConcat<A(!new)>(a: seq<A>, b: seq<A>, p: A -> bool)
    ensures Filter(a + b, p) == Filter(a, p) + Filter(b, p)
  {
    if a == [] {
      assert a + b == b;
    } else {
      HeadSplit(a, b);
      FilterCons(a[0], a[1..] + b, p);
      FilterCons(a[0], a[1..], p);
      FilterConcat(a[1..], b, p);
      PrependKeepsTail(if p(a[0]) then [a[0]] else [], Filter(a[1..] + b, p), Filter(a[1..], p), Filter(b, p));
    }
  }

  /** A non-empty sequence is its head before its tail, also inside a
      concatenation. */
  lemma HeadSplit<A>(a: seq<A>, b: seq<A>)
    requires a != []
    ensures a == [a[0]] + a[1..]
    ensures a + b == [a[0]] + (a[1..] + b)
  {
  }

  /** Putting the same prefix in front keeps a common tail. */
  lemma PrependKeepsTail<A>(h: seq<A>, x: seq<A>, y: seq<A>, tail: seq<A>)
    requires x == y + tail
    ensures h + x == (h + y) + tail
  {
  }

  /** The number of elements satisfying `p`. */
  function Count<A>(s: seq<A>, p: A -> bool): (n: nat)
    ensures n <= |s|
  {
    if s == [] then 0 else (if p(s[0]) then 1 else 0) + Count(s[1..], p)
  }

  /** `|Filter(s, p)|` is the count of `p` over `s`. */
  lemma {:induction false} FilterCount<A(!new)>(s: seq<A>, p: A -> bool)
    ensures |Filter(s, p)| == Count(s, p)
  {
    if s != [] {
      FilterCount(s[1..], p);
    }
  }

  /** Filtering twice counts the elements that pass both tests. */
  lemma {:induction false} FilterFilterCount<A(!new)>(s: seq<A>, p: A -> bool, q: A -> bool, pq: A -> bool)
    requires forall x :: pq(x) == (p(x) && q(x))
    ensures |Filter(Filter(s, p), q)| == Count(s, pq)
  {
    if s != [] {
      FilterFilterCount(s[1..], p, q, pq);
    }
  }

  /** No element occurs twice. */
  predicate Distinct<A(==)>(s: seq<A>) {
    forall i, j :: 0 <= i < j < |s| ==> s[i] != s[j]
  }

  /** The position of the first occurrence of `x`. */
  function FirstIndex<A(==)>(s: seq<A>, x: A): (k: nat)
    requires x in s
    ensures k < |s| && s[k] == x && x !in s[..k]
  {
    if s[0] == x then 0
    else
      var k := FirstIndex(s[1..], x);
      assert s[..k + 1] == [s[0]] + s[1..][..k];
      k + 1
  }

  /** `Array.from(new Set(s))`: the elements of `s` without repetition, each
      where it first occurs. */
  function Dedup<A(==,!new)>(s: seq<A>): (r: seq<A>)
    ensures Distinct(r)
    ensures forall x :: x in r <==> x in s
  {
    if s == [] then []
    else
      var init := s[..|s| - 1];
      var d := Dedup(init);
      assert s == init + [s[|s| - 1]];
      if s[|s| - 1] in d then d else d + [s[|s| - 1]]
  }

  /** The elements keep the order of their first occurrences. */
  lemma {:induction false} DedupFirstOrder<A(!new)>(s: seq<A>)
    ensures forall i, j :: 0 <= i < j < |Dedup(s)| ==>
      FirstIndex(s, Dedup(s)[i]) < FirstIndex(s, Dedup(s)[j])
  {
    if s != [] {
      var init := s[..|s| - 1];
      var last := s[|s| - 1];
      var d := Dedup(init);
      DedupFirstOrder(init);
      assert s == init + [last];
      forall x | x in init ensures FirstIndex(s, x) == FirstIndex(init, x) {
        FirstIndexPrefix(init, [last], x);
      }
      if last !in d {
        assert last !in init;
        assert FirstIndex(s, last) == |s| - 1;
      }
    }
  }

  lemma {:induction false} FirstIndexPrefix<A>(a: seq<A>, b: seq<A>, x: A)
    requires x in a
    ensures FirstIndex(a + b, x) == FirstIndex(a, x)
  {
    if a[0] != x {
      assert (a + b)[1..] == a[1..] + b;
      FirstIndexPrefix(a[1..], b, x);
    }
  }

  /** A distinct sequence holds each element at most once. */
  lemma {:induction false} DistinctCount<A>(s: seq<A>, x: A)
    requires Distinct(s)
    ensures multiset(s)[x] <= 1
  {
    if s != [] {
      assert s == [s[0]] + s[1..];
      DistinctCount(s[1..], x);
      if s[0] == x {
        assert x !in s[1..];
      }
    }
  }

  /** A rearrangement of a distinct sequence is distinct. */
  lemma DistinctPermutation<A>(s: seq<A>, t: seq<A>)
    requires Distinct(s) && multiset(s) == multiset(t)
    ensures Distinct(t)
  {
    forall i, j | 0 <= i < j < |t| ensures t[i] != t[j] {
      if t[i] == t[j] {
        assert t == t[..j] + t[j..];
        assert t[i] in t[..j] && t[j] in t[j..];
        assert multiset(t)[t[i]] >= 2;
        DistinctCount(s, t[i]);
      }
    }
  }
}
