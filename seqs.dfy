/** Sequence helpers shared by the model: Python's list comprehension with a condition. */
module Seqs {
  import opened Wrappers

  /** `[x for x in s if p(x)]`: the elements of `s` that satisfy `p`, in their order. */
  function Filter<T>(s: seq<T>, p: T -> bool): (r: seq<T>)
    ensures |r| <= |s|
    ensures forall i :: 0 <= i < |r| ==> p(r[i])
  {
    if s == [] then [] else (if p(s[0]) then [s[0]] else []) + Filter(s[1..], p)
  }

  /** Filtering keeps every occurrence of a selected value and none of the others. */
  lemma {:induction false} FilterMultiplicity<T>(s: seq<T>, p: T -> bool, x: T)
    ensures multiset(Filter(s, p))[x] == if p(x) then multiset(s)[x] else 0
  {
    if s != [] {
      FilterMultiplicity(s[1..], p, x);
      assert s == [s[0]] + s[1..];
    }
  }

  lemma FilterMembership<T>(s: seq<T>, p: T -> bool, x: T)
    ensures x in Filter(s, p) <==> x in s && p(x)
  {
    FilterMultiplicity(s, p, x);
    assert x in Filter(s, p) <==> multiset(Filter(s, p))[x] > 0;
    assert x in s <==> multiset(s)[x] > 0;
  }

  lemma {:induction false} FilterAppend<T>(a: seq<T>, b: seq<T>, p: T -> bool)
    ensures Filter(a + b, p) == Filter(a, p) + Filter(b, p)
  {
    if a == [] {
      assert a + b == b;
    } else {
      var head := if p(a[0]) then [a[0]] else [];
      assert (a + b)[0] == a[0];
      assert (a + b)[1..] == a[1..] + b;
      calc {
        Filter(a + b, p);
        head + Filter(a[1..] + b, p);
        { FilterAppend(a[1..], b, p); }
        head + (Filter(a[1..], p) + Filter(b, p));
        (head + Filter(a[1..], p)) + Filter(b, p);
        Filter(a, p) + Filter(b, p);
      }
    }
  }

  /** Two filters can be applied in either order. */
  lemma {:induction false} FilterCommute<T>(s: seq<T>, p: T -> bool, q: T -> bool)
    ensures Filter(Filter(s, p), q) == Filter(Filter(s, q), p)
  {
    if s != [] {
      FilterCommute(s[1..], p, q);
      var x := s[0];
      FilterAppend(if p(x) then [x] else [], Filter(s[1..], p), q);
      FilterAppend(if q(x) then [x] else [], Filter(s[1..], q), p);
      assert Filter([x], p) == if p(x) then [x] else [];
      assert Filter([x], q) == if q(x) then [x] else [];
    }
  }

  /** Reordering the input reorders the filtered output and nothing more. */
  lemma FilterPermutation<T>(a: seq<T>, b: seq<T>, p: T -> bool)
    requires multiset(a) == multiset(b)
    ensures multiset(Filter(a, p)) == multiset(Filter(b, p))
  {
    forall x: T ensures multiset(Filter(a, p))[x] == multiset(Filter(b, p))[x] {
      FilterMultiplicity(a, p, x);
      FilterMultiplicity(b, p, x);
      assert multiset(a)[x] == multiset(b)[x];
    }
    MultisetExtensionality(multiset(Filter(a, p)), multiset(Filter(b, p)));
  }

  /**
   * Applies `f` to every element, in order, and fails as a whole as soon as
   * one application fails.
   */
  function MapAll<A, B>(xs: seq<A>, f: A -> Option<B>): Option<seq<B>> {
    if xs == [] then Some([])
    else match MapAll(xs[..|xs| - 1], f)
      case None => None
      case Some(ys) =>
        match f(xs[|xs| - 1])
        case None => None
        case Some(y) => Some(ys + [y])
  }

  /** One more element extends a successful `MapAll` by its image, or makes it fail. */
  lemma MapAllStep<A, B>(xs: seq<A>, i: nat, f: A -> Option<B>)
    requires i < |xs|
    ensures MapAll(xs[..i + 1], f) ==
      match MapAll(xs[..i], f)
      case None => None
      case Some(ys) => (match f(xs[i]) case None => None case Some(y) => Some(ys + [y]))
  {
    assert xs[..i + 1][..i] == xs[..i];
  }

  /** `MapAll` fails exactly when some element fails. */
  lemma {:induction false} MapAllFails<A, B>(xs: seq<A>, f: A -> Option<B>)
    ensures MapAll(xs, f).None? <==> exists i :: 0 <= i < |xs| && f(xs[i]).None?
  {
    if xs != [] {
      var init := xs[..|xs| - 1];
      MapAllFails(init, f);
      if MapAll(init, f).None? {
        var i :| 0 <= i < |init| && f(init[i]).None?;
        assert xs[i] == init[i];
      } else if f(xs[|xs| - 1]).Some? {
        forall i | 0 <= i < |xs| ensures f(xs[i]).Some? {
          if i < |init| {
            assert xs[i] == init[i];
          }
        }
      }
    }
  }

  /** When `MapAll` succeeds, its result lists `f` of each element, position by position. */
  lemma {:induction false} MapAllSucceeds<A, B>(xs: seq<A>, f: A -> Option<B>)
    ensures MapAll(xs, f).Some? ==>
      |MapAll(xs, f).value| == |xs| &&
      forall i :: 0 <= i < |xs| ==> f(xs[i]) == Some(MapAll(xs, f).value[i])
  {
    if xs != [] {
      var init := xs[..|xs| - 1];
      MapAllSucceeds(init, f);
      if MapAll(xs, f).Some? {
        assert forall i :: 0 <= i < |init| ==> xs[i] == init[i];
      }
    }
  }

  /** `[f(x).value for x in xs if f(x) is not None]`: the successful results, in order. */
  function Collect<A, B>(xs: seq<A>, f: A -> Option<B>): seq<B> {
    if xs == [] then []
    else
      var earlier := Collect(xs[..|xs| - 1], f);
      match f(xs[|xs| - 1])
      case None => earlier
      case Some(y) => earlier + [y]
  }

  /** A value is collected exactly when some element yields it. */
  lemma {:induction false} CollectMembers<A, B>(xs: seq<A>, f: A -> Option<B>, y: B)
    ensures y in Collect(xs, f) <==> exists i :: 0 <= i < |xs| && f(xs[i]) == Some(y)
  {
    if xs != [] {
      var init := xs[..|xs| - 1];
      CollectMembers(init, f, y);
      forall i | 0 <= i < |init| ensures init[i] == xs[i] { }
    }
  }

  /** `[y for x in xs for y in f(x)]`: the results of `f`, concatenated in order. */
  function FlatMap<A, B>(xs: seq<A>, f: A -> seq<B>): seq<B> {
    if xs == [] then [] else FlatMap(xs[..|xs| - 1], f) + f(xs[|xs| - 1])
  }

  lemma {:induction false} FlatMapAppend<A, B>(a: seq<A>, b: seq<A>, f: A -> seq<B>)
    ensures FlatMap(a + b, f) == FlatMap(a, f) + FlatMap(b, f)
    decreases |b|
  {
    if b == [] {
      assert a + b == a;
    } else {
      var init := b[..|b| - 1];
      FlatMapAppend(a, init, f);
      assert (a + b)[..|a + b| - 1] == a + init;
      assert (a + b)[|a + b| - 1] == b[|b| - 1];
    }
  }

  lemma FlatMapSingle<A, B>(x: A, f: A -> seq<B>)
    ensures FlatMap([x], f) == f(x)
  {
    assert [x][..0] == [];
  }

  /** An element whose image is empty can be dropped. */
  lemma FlatMapDropEmpty<A, B>(xs: seq<A>, i: nat, f: A -> seq<B>)
    requires i < |xs| && f(xs[i]) == []
    ensures FlatMap(xs, f) == FlatMap(xs[..i] + xs[i + 1..], f)
  {
    assert xs == xs[..i] + [xs[i]] + xs[i + 1..];
    FlatMapAppend(xs[..i] + [xs[i]], xs[i + 1..], f);
    FlatMapAppend(xs[..i], [xs[i]], f);
    FlatMapSingle(xs[i], f);
    FlatMapAppend(xs[..i], xs[i + 1..], f);
  }

  /** Reordering the inputs reorders the concatenation and nothing more. */
  lemma {:induction false} FlatMapPermutation<A, B>(a: seq<A>, b: seq<A>, f: A -> seq<B>)
    requires multiset(a) == multiset(b)
    ensures multiset(FlatMap(a, f)) == multiset(FlatMap(b, f))
    decreases |a|
  {
    if a != [] {
      var x := a[|a| - 1];
      var init := a[..|a| - 1];
      assert a == init + [x];
      assert x in multiset(b);
      var j :| 0 <= j < |b| && b[j] == x;
      var rest := b[..j] + b[j + 1..];
      assert b == b[..j] + [x] + b[j + 1..];
      assert multiset(b) == multiset(b[..j]) + multiset([x]) + multiset(b[j + 1..]);
      assert multiset(rest) == multiset(b) - multiset([x]);
      assert multiset(init) == multiset(a) - multiset([x]);
      FlatMapPermutation(init, rest, f);
      FlatMapAppend(init, [x], f);
      FlatMapAppend(b[..j] + [x], b[j + 1..], f);
      FlatMapAppend(b[..j], [x], f);
      FlatMapAppend(b[..j], b[j + 1..], f);
      FlatMapSingle(x, f);
    }
  }

  lemma MultisetExtensionality<T>(m: multiset<T>, n: multiset<T>)
    requires forall x :: m[x] == n[x]
    ensures m == n
  {
  }

  /** `s[:n]` for a non-negative `n`. */
  function Take<T>(s: seq<T>, n: nat): (r: seq<T>)
    ensures |r| == if |s| < n then |s| else n
    ensures r <= s
  {
    if |s| <= n then s else s[..n]
  }
}
