/** Stable sorting of a sequence by a comparison that is a total preorder.
    The components sort with `Array.prototype.sort` and a comparator; since that
    sort is stable, its result is the one insertion sort produces: each element
    goes after every earlier element that is not greater than it. */
module Sorting {
  import JsText
  import opened Lists

  /** `le` is total and transitive: a comparator that never contradicts itself. */
  ghost predicate TotalPreorder<T(!new)>(le: (T, T) -> bool) {
    && (forall a, b :: le(a, b) || le(b, a))
    && (forall a, b, c :: le(a, b) && le(b, c) ==> le(a, c))
  }

  predicate SortedBy<T>(s: seq<T>, le: (T, T) -> bool) {
    forall i, j :: 0 <= i < j < |s| ==> le(s[i], s[j])
  }

  /** Places `x` after every element of `s` that is not greater than it. */
  function Insert<T(!new)>(x: T, s: seq<T>, le: (T, T) -> bool): (r: seq<T>)
    requires TotalPreorder(le)
    requires SortedBy(s, le)
    ensures SortedBy(r, le)
    ensures multiset(r) == multiset(s) + multiset{x}
  {
    if s == [] || !le(s[0], x) then
      BelowAll(x, s, le);
      PrependSorted(x, s, le);
      [x] + s
    else
      var rest := Insert(x, s[1..], le);
      assert forall j :: 0 <= j < |s[1..]| ==> le(s[0], s[1..][j]) by {
        forall j | 0 <= j < |s[1..]| ensures le(s[0], s[1..][j]) {
          assert s[1..][j] == s[j + 1];
        }
      }
      BelowInsert(s[0], s[1..], x, rest, le);
      PrependSorted(s[0], rest, le);
      assert s == [s[0]] + s[1..];
      [s[0]] + rest
  }

  /** An element not greater than any element of a sorted sequence keeps it
      sorted when put in front. */
  lemma PrependSorted<T>(x: T, s: seq<T>, le: (T, T) -> bool)
    requires SortedBy(s, le)
    requires forall j :: 0 <= j < |s| ==> le(x, s[j])
    ensures SortedBy([x] + s, le)
  {
    var r := [x] + s;
    forall i, j | 0 <= i < j < |r| ensures le(r[i], r[j]) {
      assert r[j] == s[j - 1];
      if i > 0 { assert r[i] == s[i - 1]; }
    }
  }

  /** An element smaller than the first of a sorted sequence is not greater
      than any of it. */
  lemma BelowAll<T(!new)>(x: T, s: seq<T>, le: (T, T) -> bool)
    requires TotalPreorder(le)
    requires SortedBy(s, le)
    requires s == [] || !le(s[0], x)
    ensures forall j :: 0 <= j < |s| ==> le(x, s[j])
  {
    if s != [] {
      assert le(x, s[0]);
      forall j | 0 <= j < |s| ensures le(x, s[j]) {
        if j > 0 { assert le(s[0], s[j]); }
      }
    }
  }

  /** A lower bound of `t` and of `x` bounds anything holding the elements
      of `t` and `x`. */
  lemma BelowInsert<T>(a: T, t: seq<T>, x: T, rest: seq<T>, le: (T, T) -> bool)
    requires le(a, x)
    requires forall j :: 0 <= j < |t| ==> le(a, t[j])
    requires multiset(rest) == multiset(t) + multiset{x}
    ensures forall j :: 0 <= j < |rest| ==> le(a, rest[j])
  {
    forall j | 0 <= j < |rest| ensures le(a, rest[j]) {
      assert rest[j] in multiset(rest);
      if rest[j] != x {
        assert rest[j] in multiset(t);
        var k :| 0 <= k < |t| && t[k] == rest[j];
      }
    }
  }

  /** The elements `le` ties with `x`: neither is greater than the other. */
  function TiedWith<T>(le: (T, T) -> bool, x: T): T -> bool {
    y => le(x, y) && le(y, x)
  }

  /** Inserting `z` appends it to its own tie class and leaves every other
      class as it was: it goes after the elements it ties with. */
  lemma {:induction false} InsertKeepsTies<T(!new)>(z: T, s: seq<T>, le: (T, T) -> bool, x: T)
    requires TotalPreorder(le)
    requires SortedBy(s, le)
    ensures Filter(Insert(z, s, le), TiedWith(le, x))
         == Filter(s, TiedWith(le, x)) + (if TiedWith(le, x)(z) then [z] else [])
  {
    var p := TiedWith(le, x);
    var tail := if p(z) then [z] else [];
    if s == [] || !le(s[0], z) {
      assert Insert(z, s, le) == [z] + s;
      if p(z) {
        AboveHasNoTies(z, s, le, x);
      }
      FrontKeepsTies(z, s, p);
    } else {
      var rest := Insert(z, s[1..], le);
      assert Insert(z, s, le) == [s[0]] + rest;
      assert s == [s[0]] + s[1..];
      InsertKeepsTies(z, s[1..], le, x);
      FilterAfterHead(s[0], rest, s[1..], p, tail);
    }
  }

  /** `z` put in front of a sequence holding nothing of its own class ends
      that class; every other class is unchanged. */
  lemma FrontKeepsTies<T(!new)>(z: T, s: seq<T>, p: T -> bool)
    requires p(z) ==> Filter(s, p) == []
    ensures Filter([z] + s, p) == Filter(s, p) + (if p(z) then [z] else [])
  {
    FilterCons(z, s, p);
    if p(z) {
      PrependKeepsTail([z], [], [], []);
    }
  }

  /** A common head keeps two filtered sequences related by a common tail. */
  lemma FilterAfterHead<T(!new)>(h: T, a: seq<T>, b: seq<T>, p: T -> bool, tail: seq<T>)
    requires Filter(a, p) == Filter(b, p) + tail
    ensures Filter([h] + a, p) == Filter([h] + b, p) + tail
  {
    FilterCons(h, a, p);
    FilterCons(h, b, p);
    PrependKeepsTail(if p(h) then [h] else [], Filter(a, p), Filter(b, p), tail);
  }

  /** When `z` is below the first element of a sorted sequence, nothing in it
      ties with anything `z` ties with. */
  lemma AboveHasNoTies<T(!new)>(z: T, s: seq<T>, le: (T, T) -> bool, x: T)
    requires TotalPreorder(le)
    requires SortedBy(s, le)
    requires s == [] || !le(s[0], z)
    requires TiedWith(le, x)(z)
    ensures Filter(s, TiedWith(le, x)) == []
  {
  }

  /** Sorts `s` by `le`, keeping equal elements in their input order: each
      tie class comes out exactly as it went in. */
  function SortBy<T(!new)>(s: seq<T>, le: (T, T) -> bool): (r: seq<T>)
    requires TotalPreorder(le)
    ensures SortedBy(r, le)
    ensures multiset(r) == multiset(s)
    ensures |r| == |s|
    ensures forall x :: Filter(r, TiedWith(le, x)) == Filter(s, TiedWith(le, x))
  {
    if s == [] then []
    else
      var init, last := s[..|s| - 1], s[|s| - 1];
      assert s == init + [last];
      var sorted := SortBy(init, le);
      var r := Insert(last, sorted, le);
      assert |r| == |multiset(r)|;
      assert forall x :: Filter(r, TiedWith(le, x)) == Filter(s, TiedWith(le, x)) by {
        forall x ensures Filter(r, TiedWith(le, x)) == Filter(s, TiedWith(le, x)) {
          InsertKeepsTies(last, sorted, le, x);
          FilterConcat(init, [last], TiedWith(le, x));
          FilterCons(last, [], TiedWith(le, x));
          assert [last] + [] == [last];
        }
      }
      r
  }

  /** Sorting keeps exactly the elements it was given. */
  lemma SortByMembers<T(!new)>(s: seq<T>, le: (T, T) -> bool, x: T)
    requires TotalPreorder(le)
    ensures x in SortBy(s, le) <==> x in s
  {
    var r := SortBy(s, le);
    assert x in r <==> x in multiset(r);
    assert x in s <==> x in multiset(s);
  }

  /** Code-point order on strings is a total preorder (it stands in for
      `localeCompare`). */
  lemma StrLeIsTotalPreorder()
    ensures TotalPreorder(JsText.StrLe)
  {
    forall a, b ensures JsText.StrLe(a, b) || JsText.StrLe(b, a) {
      JsText.StrLeTotal(a, b);
    }
    forall a, b, c | JsText.StrLe(a, b) && JsText.StrLe(b, c) ensures JsText.StrLe(a, c) {
      JsText.StrLeTransitive(a, b, c);
    }
  }
}
