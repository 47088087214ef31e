/** Logs of calls made by the plugin, and the two views the properties are
    stated with: the entries of a given kind, in order, and how often one entry
    occurs. */
module Traces {

  /** The elements of `s` that satisfy `p`, in their original order. */
  function Filter<T(==)>(s: seq<T>, p: T -> bool): (r: seq<T>)
    ensures |r| <= |s|
  {
    if s == [] then [] else (if p(s[0]) then [s[0]] else []) + Filter(s[1..], p)
  }

  /** The number of occurrences of `x` in `s`. */
  function Count<T(==)>(s: seq<T>, x: T): (n: nat)
    ensures n <= |s|
  {
    if s == [] then 0 else (if s[0] == x then 1 else 0) + Count(s[1..], x)
  }

  /** `Filter` keeps exactly the elements of `s` that satisfy `p`. */
  lemma {:induction false} FilterMembers<T>(s: seq<T>, p: T -> bool, x: T)
    ensures x in Filter(s, p) <==> x in s && p(x)
  {
    if s != [] {
      FilterMembers(s[1..], p, x);
      assert s == [s[0]] + s[1..];
    }
  }

  /** `x` occurs in `s` exactly when its count is positive. */
  lemma {:induction false} CountPositive<T>(s: seq<T>, x: T)
    ensures Count(s, x) > 0 <==> x in s
  {
    if s != [] {
      CountPositive(s[1..], x);
      assert s == [s[0]] + s[1..];
    }
  }

  lemma {:induction false} FilterAppend<T>(a: seq<T>, b: seq<T>, p: T -> bool)
    ensures Filter(a + b, p) == Filter(a, p) + Filter(b, p)
  {
    if a == [] {
      assert a + b == b;
    } else {
      var head := if p(a[0]) then [a[0]] else [];
      assert (a + b)[0] == a[0];
      assert (a + b)[1..] == a[1..] + b;
      FilterAppend(a[1..], b, p);
      assert Filter(a + b, p) == head + (Filter(a[1..], p) + Filter(b, p));
    }
  }

  lemma {:induction false} CountAppend<T>(a: seq<T>, b: seq<T>, x: T)
    ensures Count(a + b, x) == Count(a, x) + Count(b, x)
  {
    if a == [] {
      assert a + b == b;
    } else {
      assert (a + b)[1..] == a[1..] + b;
      CountAppend(a[1..], b, x);
    }
  }

  lemma FilterOne<T>(x: T, p: T -> bool)
    ensures Filter([x], p) == if p(x) then [x] else []
  {
    assert [x][1..] == [];
  }

  lemma CountOne<T>(x: T, y: T)
    ensures Count([x], y) == if x == y then 1 else 0
  {
    assert [x][1..] == [];
  }

  /** Nothing of a log whose every entry fails `p` is kept. */
  lemma {:induction false} FilterNone<T>(s: seq<T>, p: T -> bool)
    requires forall i :: 0 <= i < |s| ==> !p(s[i])
    ensures Filter(s, p) == []
  {
    if s != [] {
      FilterNone(s[1..], p);
    }
  }

  lemma {:induction false} CountNone<T>(s: seq<T>, x: T)
    requires forall i :: 0 <= i < |s| ==> s[i] != x
    ensures Count(s, x) == 0
  {
    if s != [] {
      CountNone(s[1..], x);
    }
  }

  // Short literal logs, element by element.

  lemma FilterThree<T>(a: T, b: T, c: T, p: T -> bool)
    ensures Filter([a, b, c], p) == Filter([a], p) + Filter([b], p) + Filter([c], p)
  {
    assert [a, b, c] == [a] + ([b] + [c]);
    FilterAppend([a], [b] + [c], p);
    FilterAppend([b], [c], p);
  }

  lemma CountThree<T>(a: T, b: T, c: T, x: T)
    ensures Count([a, b, c], x) == Count([a], x) + Count([b], x) + Count([c], x)
  {
    assert [a, b, c] == [a] + ([b] + [c]);
    CountAppend([a], [b] + [c], x);
    CountAppend([b], [c], x);
  }

  lemma FilterFour<T>(a: T, b: T, c: T, d: T, p: T -> bool)
    ensures Filter([a, b, c, d], p) == Filter([a], p) + Filter([b], p) + Filter([c], p) + Filter([d], p)
  {
    assert [a, b, c, d] == [a] + [b, c, d];
    FilterAppend([a], [b, c, d], p);
    FilterThree(b, c, d, p);
  }

  lemma CountFour<T>(a: T, b: T, c: T, d: T, x: T)
    ensures Count([a, b, c, d], x) == Count([a], x) + Count([b], x) + Count([c], x) + Count([d], x)
  {
    assert [a, b, c, d] == [a] + [b, c, d];
    CountAppend([a], [b, c, d], x);
    CountThree(b, c, d, x);
  }

  lemma FilterFive<T>(a: T, b: T, c: T, d: T, e: T, p: T -> bool)
    ensures Filter([a, b, c, d, e], p)
         == Filter([a], p) + Filter([b], p) + Filter([c], p) + Filter([d], p) + Filter([e], p)
  {
    assert [a, b, c, d, e] == [a] + [b, c, d, e];
    FilterAppend([a], [b, c, d, e], p);
    FilterFour(b, c, d, e, p);
  }

  lemma CountFive<T>(a: T, b: T, c: T, d: T, e: T, x: T)
    ensures Count([a, b, c, d, e], x)
         == Count([a], x) + Count([b], x) + Count([c], x) + Count([d], x) + Count([e], x)
  {
    assert [a, b, c, d, e] == [a] + [b, c, d, e];
    CountAppend([a], [b, c, d, e], x);
    CountFour(b, c, d, e, x);
  }
}
