/**
 * `Array.prototype.filter` and `Array.prototype.sort` with a comparator, as the services
 * use them. The sort's result is a stable permutation of the input, ordered by the
 * comparator. It is defined once, generically, as an insertion sort over a total
 * preorder, and then used with the departure-time order of the route search and the
 * string order of the destination list.
 */
module Sorting {

  /** `s.filter(p)`: the elements satisfying `p`, in their original order. */
  function Filter<T(!new)>(s: seq<T>, p: T -> bool): (r: seq<T>)
    ensures |r| <= |s|
  {
    if s == [] then []
    else
      var rest := Filter(s[1..], p);
      if p(s[0]) then [s[0]] + rest else rest
  }

  /** `filter` keeps exactly the elements that satisfy `p`. */
  lemma {:induction false} FilterMembers<T(!new)>(s: seq<T>, p: T -> bool)
    ensures forall x :: x in Filter(s, p) <==> x in s && p(x)
  {
    if s != [] {
      FilterMembers(s[1..], p);
      assert forall x :: x in s <==> x == s[0] || x in s[1..];
    }
  }

  /**
   * `Filter` works piece by piece and keeps a single element exactly when it satisfies
   * `p`, so the result is the satisfying elements with their order and multiplicity.
   */
  lemma {:induction false} FilterIsFilter<T(!new)>(a: seq<T>, b: seq<T>, p: T -> bool)
    ensures Filter(a + b, p) == Filter(a, p) + Filter(b, p)
    ensures |a| == 1 ==> Filter(a, p) == if p(a[0]) then a else []
  {
    if a == [] {
      assert a + b == b;
    } else {
      FilterIsFilter(a[1..], b, p);
      FilterCons(a, b, p);
    }
  }

  /** One step of `FilterIsFilter`: the head of `a` is kept or dropped in both places alike. */
  lemma FilterCons<T(!new)>(a: seq<T>, b: seq<T>, p: T -> bool)
    requires a != []
    requires Filter(a[1..] + b, p) == Filter(a[1..], p) + Filter(b, p)
    ensures Filter(a + b, p) == Filter(a, p) + Filter(b, p)
    ensures |a| == 1 ==> Filter(a, p) == if p(a[0]) then a else []
  {
    var head := if p(a[0]) then [a[0]] else [];
    FilterConcatHead(a, b, p);
    assert Filter(a, p) == head + Filter(a[1..], p);
    assert head + (Filter(a[1..], p) + Filter(b, p)) == (head + Filter(a[1..], p)) + Filter(b, p);
    if |a| == 1 {
      assert a[1..] == [];
    }
  }

  /** `Filter` of `a + b` decides on the head of `a` first. */
  lemma FilterConcatHead<T(!new)>(a: seq<T>, b: seq<T>, p: T -> bool)
    requires a != []
    ensures Filter(a + b, p) == (if p(a[0]) then [a[0]] else []) + Filter(a[1..] + b, p)
  {
    assert (a + b)[0] == a[0];
    assert (a + b)[1..] == a[1..] + b;
  }

  /** `le` is a total preorder: any two values compare, and comparison chains. */
  ghost predicate TotalPreorder<T(!new)>(le: (T, T) -> bool) {
    (forall a, b :: le(a, b) || le(b, a)) &&
    (forall a, b, c :: le(a, b) && le(b, c) ==> le(a, c))
  }

  /** Every earlier element is `le` every later one. */
  ghost predicate SortedBy<T>(s: seq<T>, le: (T, T) -> bool) {
    forall i, j :: 0 <= i < j < |s| ==> le(s[i], s[j])
  }

  /** Places `x` before the first element it is `le`, keeping a sorted sequence sorted. */
  function Insert<T(!new)>(x: T, s: seq<T>, le: (T, T) -> bool): (r: seq<T>)
    requires TotalPreorder(le) && SortedBy(s, le)
    ensures multiset(r) == multiset(s) + multiset{x}
    ensures SortedBy(r, le)
  {
    if s == [] then [x]
    else if le(x, s[0]) then [x] + s
    else
      var rest := Insert(x, s[1..], le);
      assert s == [s[0]] + s[1..];
      HeadBelowAll(s[0], s[1..], x, rest, le);
      [s[0]] + rest
  }

  /** A value `le` every element of `xs` and `x` is `le` every element of a permutation of both. */
  lemma HeadBelowAll<T>(h: T, xs: seq<T>, x: T, rest: seq<T>, le: (T, T) -> bool)
    requires forall j :: 0 <= j < |xs| ==> le(h, xs[j])
    requires le(h, x) && multiset(rest) == multiset(xs) + multiset{x}
    ensures forall j :: 0 <= j < |rest| ==> le(h, rest[j])
  {
    forall j | 0 <= j < |rest| ensures le(h, rest[j]) {
      var y := rest[j];
      assert y in multiset(rest);
      if y != x {
        assert y in multiset(xs);
        var k :| 0 <= k < |xs| && xs[k] == y;
      }
    }
  }

  /** The comparator sort: a permutation of `s`, sorted by `le`. */
  function SortBy<T(!new)>(s: seq<T>, le: (T, T) -> bool): (r: seq<T>)
    requires TotalPreorder(le)
    ensures multiset(r) == multiset(s)
    ensures SortedBy(r, le)
  {
    if s == [] then []
    else
      assert s == [s[0]] + s[1..];
      Insert(s[0], SortBy(s[1..], le), le)
  }

  /** Sorting keeps the length and exactly the elements of the input. */
  lemma SortByMembers<T(!new)>(s: seq<T>, le: (T, T) -> bool)
    requires TotalPreorder(le)
    ensures |SortBy(s, le)| == |s|
    ensures forall x :: x in SortBy(s, le) <==> x in s
  {
    var r := SortBy(s, le);
    assert |r| == |multiset(r)| == |multiset(s)| == |s|;
    forall x ensures x in r <==> x in s {
      assert x in r <==> x in multiset(r);
      assert x in s <==> x in multiset(s);
    }
  }

  /**
   * Inserting `x` puts it before every element of its own class: among elements that
   * `p` selects (all of them mutually `le`), `x` comes first.
   */
  lemma {:induction false} InsertStable<T(!new)>(x: T, s: seq<T>, le: (T, T) -> bool, p: T -> bool)
    requires TotalPreorder(le) && SortedBy(s, le)
    requires forall a, b :: p(a) && p(b) ==> le(a, b)
    ensures Filter(Insert(x, s, le), p) == (if p(x) then [x] else []) + Filter(s, p)
  {
    if s == [] {
      assert Insert(x, s, le) == [x];
      FilterIsFilter([x], [], p);
    } else if le(x, s[0]) {
      FilterIsFilter([x], s, p);
    } else {
      InsertStable(x, s[1..], le, p);
      assert !(p(x) && p(s[0]));
      InsertStableStep(x, s, Insert(x, s[1..], le), p);
    }
  }

  /** The step of `InsertStable` where `x` goes past the head, which is not of its class. */
  lemma InsertStableStep<T(!new)>(x: T, s: seq<T>, rest: seq<T>, p: T -> bool)
    requires s != [] && !(p(x) && p(s[0]))
    requires Filter(rest, p) == (if p(x) then [x] else []) + Filter(s[1..], p)
    ensures Filter([s[0]] + rest, p) == (if p(x) then [x] else []) + Filter(s, p)
  {
    var hx := if p(x) then [x] else [];
    var h0 := if p(s[0]) then [s[0]] else [];
    FilterIsFilter([s[0]], rest, p);
    FilterIsFilter([s[0]], s[1..], p);
    assert [s[0]] + s[1..] == s;
    calc {
      Filter([s[0]] + rest, p);
      h0 + Filter(rest, p);
      h0 + (hx + Filter(s[1..], p));
      hx + (h0 + Filter(s[1..], p));
      hx + Filter(s, p);
    }
  }

  /**
   * `SortBy` is stable, as `Array.prototype.sort` is: elements the comparator cannot tell
   * apart (any set `p` selects whose members are mutually `le`) keep their input order.
   */
  lemma {:induction false} SortByStable<T(!new)>(s: seq<T>, le: (T, T) -> bool, p: T -> bool)
    requires TotalPreorder(le)
    requires forall a, b :: p(a) && p(b) ==> le(a, b)
    ensures Filter(SortBy(s, le), p) == Filter(s, p)
  {
    if s != [] {
      SortByStable(s[1..], le, p);
      InsertStable(s[0], SortBy(s[1..], le), le, p);
      FilterIsFilter([s[0]], s[1..], p);
      assert [s[0]] + s[1..] == s;
    }
  }

  // ---------------------------------------------------------------------------
  // String order

  /** Lexicographic order on strings by character code (a prefix comes first). */
  predicate StringLe(a: string, b: string) {
    a == [] || (b != [] && (a[0] < b[0] || (a[0] == b[0] && StringLe(a[1..], b[1..]))))
  }

  lemma {:induction false} StringLeTotal(a: string, b: string)
    ensures StringLe(a, b) || StringLe(b, a)
  {
    if a != [] && b != [] && a[0] == b[0] {
      StringLeTotal(a[1..], b[1..]);
    }
  }

  lemma {:induction false} StringLeAntisymmetric(a: string, b: string)
    requires StringLe(a, b) && StringLe(b, a)
    ensures a == b
  {
    if a != [] && b != [] {
      StringLeAntisymmetric(a[1..], b[1..]);
      assert a == [a[0]] + a[1..] && b == [b[0]] + b[1..];
    }
  }

  lemma {:induction false} StringLeTransitive(a: string, b: string, c: string)
    requires StringLe(a, b) && StringLe(b, c)
    ensures StringLe(a, c)
  {
    if a != [] && b != [] && c != [] && a[0] == b[0] && b[0] == c[0] {
      StringLeTransitive(a[1..], b[1..], c[1..]);
    }
  }

  /** The string order is a total preorder, so `SortBy` applies to it. */
  lemma StringLeIsTotalPreorder()
    ensures TotalPreorder(StringLe)
  {
    forall a, b ensures StringLe(a, b) || StringLe(b, a) {
      StringLeTotal(a, b);
    }
    forall a, b, c | StringLe(a, b) && StringLe(b, c) ensures StringLe(a, c) {
      StringLeTransitive(a, b, c);
    }
  }
}
