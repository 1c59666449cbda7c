/** What the programs' sorts promise: the same elements in an order that `less` never contradicts. */
module Sorting {
  import opened Bytes
  import opened Common

  /** `less` is a strict order whose ties are an equivalence. */
  ghost predicate WeakOrder<T(!new)>(less: (T, T) -> bool) {
    && (forall a, b :: !(less(a, b) && less(b, a)))
    && (forall a, b, c :: !less(b, a) && !less(c, b) ==> !less(c, a))
  }

  /** Without ties. */
  ghost predicate TotalOrder<T(!new)>(less: (T, T) -> bool) {
    WeakOrder(less) && forall a, b :: a == b || less(a, b) || less(b, a)
  }

  ghost predicate Sorted<T>(s: seq<T>, less: (T, T) -> bool) {
    forall i, j | 0 <= i < j < |s| :: !less(s[j], s[i])
  }

  ghost predicate Ascends<T>(s: seq<T>, less: (T, T) -> bool) {
    forall i, j | 0 <= i < j < |s| :: less(s[i], s[j])
  }

  function Insert<T(==)>(s: seq<T>, x: T, less: (T, T) -> bool): (r: seq<T>)
    ensures multiset(r) == multiset(s) + multiset{x}
  {
    var n := |s| - 1;
    if s == [] || !less(x, s[n]) then s + [x]
    else
      assert s == s[..n] + [s[n]];
      Insert(s[..n], x, less) + [s[n]]
  }

  function Sort<T(==)>(s: seq<T>, less: (T, T) -> bool): (r: seq<T>)
    ensures multiset(r) == multiset(s) && |r| == |s|
  {
    if s == [] then [] else
      var n := |s| - 1;
      assert s == s[..n] + [s[n]];
      var r := Insert(Sort(s[..n], less), s[n], less);
      assert |multiset(r)| == |r| && |multiset(s)| == |s|;
      r
  }

  lemma {:induction false} InsertSorts<T(!new)>(s: seq<T>, x: T, less: (T, T) -> bool)
    requires WeakOrder(less) && Sorted(s, less)
    ensures Sorted(Insert(s, x, less), less)
    decreases |s|
  {
    var n := |s| - 1;
    if s == [] {
    } else if !less(x, s[n]) {
      forall i | 0 <= i < n ensures !less(x, s[i]) {
        assert !less(s[n], s[i]);
      }
    } else {
      var front := Insert(s[..n], x, less);
      InsertSorts(s[..n], x, less);
      forall i | 0 <= i < |front| ensures !less(s[n], front[i]) {
        assert front[i] in multiset(front);
        assert front[i] in s[..n] || front[i] == x;
      }
    }
  }

  lemma {:induction false} SortSorts<T(!new)>(s: seq<T>, less: (T, T) -> bool)
    requires WeakOrder(less)
    ensures Sorted(Sort(s, less), less)
    decreases |s|
  {
    if s != [] {
      SortSorts(s[..|s| - 1], less);
      InsertSorts(Sort(s[..|s| - 1], less), s[|s| - 1], less);
    }
  }

  lemma SameElements<T>(a: seq<T>, b: seq<T>)
    requires multiset(a) == multiset(b)
    ensures forall x :: x in a <==> x in b
  {
    assert forall x :: x in a <==> x in multiset(a);
    assert forall x :: x in b <==> x in multiset(b);
  }

  lemma LastNotBelow<T(!new)>(a: seq<T>, x: T, less: (T, T) -> bool)
    requires WeakOrder(less) && Ascends(a, less) && x in a
    ensures x == a[|a| - 1] || less(x, a[|a| - 1])
  {
    var i :| 0 <= i < |a| && a[i] == x;
  }

  lemma SameLast<T(!new)>(a: seq<T>, b: seq<T>, less: (T, T) -> bool)
    requires WeakOrder(less) && Ascends(a, less) && Ascends(b, less) && a != [] && b != []
    requires forall x :: x in a <==> x in b
    ensures a[|a| - 1] == b[|b| - 1]
  {
    assert a[|a| - 1] in a && b[|b| - 1] in b;
    LastNotBelow(a, b[|b| - 1], less);
    LastNotBelow(b, a[|a| - 1], less);
  }

  /** An ascending sequence is determined by its elements. */
  lemma {:induction false} AscendingUnique<T(!new)>(a: seq<T>, b: seq<T>, less: (T, T) -> bool)
    requires WeakOrder(less) && Ascends(a, less) && Ascends(b, less)
    requires forall x :: x in a <==> x in b
    ensures a == b
    decreases |a|
  {
    assert |a| > 0 ==> a[0] in a;
    assert |b| > 0 ==> b[0] in b;
    if a != [] {
      var m, n := |a| - 1, |b| - 1;
      SameLast(a, b, less);
      forall x ensures x in a[..m] <==> x in b[..n] {
        FrontHas(a, x, less);
        FrontHas(b, x, less);
      }
      AscendingUnique(a[..m], b[..n], less);
      assert a == a[..m] + [a[m]] && b == b[..n] + [b[n]];
    }
  }

  lemma FrontHas<T(!new)>(a: seq<T>, x: T, less: (T, T) -> bool)
    requires WeakOrder(less) && Ascends(a, less) && a != []
    ensures x in a[..|a| - 1] <==> x in a && x != a[|a| - 1]
  {
    var m := |a| - 1;
    if x in a[..m] {
      var i :| 0 <= i < m && a[i] == x;
      assert less(a[i], a[m]);
    }
    if x in a && x != a[m] {
      var i :| 0 <= i < |a| && a[i] == x;
      assert a[..m][i] == x;
    }
  }

  lemma Without<T>(s: seq<T>, j: nat)
    requires j < |s|
    ensures multiset(s) == multiset(s[..j] + s[j + 1..]) + multiset{s[j]}
  {
    assert s == (s[..j] + [s[j]]) + s[j + 1..];
  }

  ghost predicate NoDuplicates<T>(s: seq<T>) { forall i, j | 0 <= i < j < |s| :: s[i] != s[j] }

  lemma {:induction false} OnceEach<T>(s: seq<T>)
    requires NoDuplicates(s)
    ensures forall x | x in multiset(s) :: multiset(s)[x] == 1
    decreases |s|
  {
    if s != [] {
      var n := |s| - 1;
      assert s == s[..n] + [s[n]];
      OnceEach(s[..n]);
      assert s[n] !in s[..n];
    }
  }

  lemma TwiceCounted<T>(s: seq<T>, i: nat, j: nat)
    requires i < j < |s| && s[i] == s[j]
    ensures multiset(s)[s[i]] >= 2
  {
    assert s == (s[..j] + [s[j]]) + s[j + 1..];
    assert s[..j][i] == s[i];
    assert s[i] in multiset(s[..j]);
  }

  /** Sorting distinct elements among which `less` has no ties leaves them strictly ascending. */
  lemma SortAscends<T(!new)>(s: seq<T>, less: (T, T) -> bool)
    requires WeakOrder(less) && NoDuplicates(s)
    requires forall x, y | x in s && y in s && !less(x, y) && !less(y, x) :: x == y
    ensures Ascends(Sort(s, less), less)
  {
    var r := Sort(s, less);
    SortSorts(s, less);
    OnceEach(s);
    SameElements(r, s);
    forall i, j | 0 <= i < j < |r| ensures less(r[i], r[j]) {
      assert r[i] in r && r[j] in r && r[i] in multiset(s);
      if r[i] == r[j] { TwiceCounted(r, i, j); }
    }
  }

  /** The keys of a Go map, collected in whatever order and sorted. */
  method SortedKeys<T(==, !new)>(keys: set<T>, less: (T, T) -> bool) returns (s: seq<T>)
    requires TotalOrder(less)
    ensures Ascends(s, less) && forall x :: x in s <==> x in keys
  {
    var rest := keys;
    s := [];
    while rest != {}
      invariant rest <= keys && NoDuplicates(s) && forall x :: x in s <==> x in keys && x !in rest
      decreases rest
    {
      var x :| x in rest;
      s, rest := s + [x], rest - {x};
    }
    SortAscends(s, less);
    SameElements(Sort(s, less), s);
    s := Sort(s, less);
  }

  /** What appending `f` of every element in turn collects. */
  function FlatMap<S, T>(s: seq<S>, f: S -> seq<T>): seq<T> {
    if s == [] then [] else FlatMap(s[..|s| - 1], f) + f(s[|s| - 1])
  }

  lemma FlatMapNext<S, T>(s: seq<S>, x: S, f: S -> seq<T>)
    ensures FlatMap(s + [x], f) == FlatMap(s, f) + f(x)
  {
    assert (s + [x])[..|s|] == s;
  }

  lemma {:induction false} FlatMapSplit<S, T>(a: seq<S>, b: seq<S>, f: S -> seq<T>)
    ensures FlatMap(a + b, f) == FlatMap(a, f) + FlatMap(b, f)
    decreases |b|
  {
    if b == [] {
      assert a + b == a;
    } else {
      var n := |b| - 1;
      FlatMapSplit(a, b[..n], f);
      assert a + b == (a + b[..n]) + [b[n]];
      FlatMapNext(a + b[..n], b[n], f);
    }
  }

  lemma FlatMapWithout<S, T>(s: seq<S>, j: nat, rest: seq<S>, f: S -> seq<T>)
    requires j < |s| && rest == s[..j] + s[j + 1..]
    ensures multiset(FlatMap(s, f)) == multiset(FlatMap(rest, f)) + multiset(f(s[j]))
  {
    var x, z := s[..j], s[j + 1..];
    assert s == (x + [s[j]]) + z;
    FlatMapSplit(x + [s[j]], z, f);
    FlatMapNext(x, s[j], f);
    FlatMapSplit(x, z, f);
  }

  /** The same element taken out of two arrangements of the same elements. */
  lemma WithoutSame<T>(a: seq<T>, i: nat, b: seq<T>, j: nat)
    requires multiset(a) == multiset(b) && i < |a| && j < |b| && a[i] == b[j]
    ensures multiset(a[..i] + a[i + 1..]) == multiset(b[..j] + b[j + 1..])
  {
    Without(a, i);
    Without(b, j);
    assert multiset(a[..i] + a[i + 1..]) == multiset(a) - multiset{a[i]};
  }

  /** What is collected does not depend on the order, up to order. */
  lemma {:induction false} FlatMapPermuted<S, T>(a: seq<S>, b: seq<S>, f: S -> seq<T>)
    requires multiset(a) == multiset(b)
    ensures multiset(FlatMap(a, f)) == multiset(FlatMap(b, f))
    decreases |a|
  {
    if a == [] {
      assert |multiset(b)| == 0;
    } else {
      var j := Position(b, a[0], a);
      var b' := b[..j] + b[j + 1..];
      WithoutSame(a, 0, b, j);
      assert a[..0] + a[0 + 1..] == a[1..];
      FlatMapPermuted(a[1..], b', f);
      FlatMapWithout(a, 0, a[1..], f);
      FlatMapWithout(b, j, b', f);
    }
  }

  lemma Position<T>(b: seq<T>, x: T, a: seq<T>) returns (j: nat)
    requires multiset(a) == multiset(b) && x in a
    ensures j < |b| && b[j] == x
  {
    assert x in multiset(b);
    j :| 0 <= j < |b| && b[j] == x;
  }

  /** Bytewise order is total. */
  lemma LessOrder()
    ensures TotalOrder<seq<byte>>(Less)
  {
    forall a: seq<byte>, b: seq<byte> ensures !(Less(a, b) && Less(b, a)) && (a == b || Less(a, b) || Less(b, a)) {
      LessTrichotomy(a, b);
    }
    forall a: seq<byte>, b: seq<byte>, c: seq<byte> | !Less(b, a) && !Less(c, b) ensures !Less(c, a) {
      LessTrichotomy(a, b);
      LessTrichotomy(b, c);
      LessTrichotomy(a, c);
      if a != b && b != c { LessTransitive(a, b, c); }
    }
  }
}
