/** Flattening, filtering and stable sorting of lists, with the laws that relate them. */
module Lists {
  function Flat<A, B>(xs: seq<A>, f: A -> seq<B>): seq<B> {
    if xs == [] then [] else Flat(xs[..|xs| - 1], f) + f(xs[|xs| - 1])
  }

  function Filter<A>(xs: seq<A>, keep: A -> bool): seq<A> {
    if xs == [] then []
    else if keep(xs[|xs| - 1]) then Filter(xs[..|xs| - 1], keep) + [xs[|xs| - 1]]
    else Filter(xs[..|xs| - 1], keep)
  }

  lemma Snoc<A>(xs: seq<A>, x: A)
    ensures (xs + [x])[..|xs|] == xs && (xs + [x])[|xs|] == x
  {
  }

  lemma {:induction false} FlatAppend<A, B>(a: seq<A>, b: seq<A>, f: A -> seq<B>)
    ensures Flat(a + b, f) == Flat(a, f) + Flat(b, f)
    decreases |b|
  {
    if b == [] {
      assert a + b == a;
    } else {
      var n := |b| - 1;
      assert (a + b)[..|a + b| - 1] == a + b[..n];
      FlatAppend(a, b[..n], f);
    }
  }

  lemma FlatStep<A, B>(xs: seq<A>, i: nat, f: A -> seq<B>)
    requires i < |xs|
    ensures Flat(xs[..i + 1], f) == Flat(xs[..i], f) + f(xs[i])
  {
    assert xs[..i + 1][..i] == xs[..i];
  }

  lemma FilterStep<A>(xs: seq<A>, i: nat, keep: A -> bool)
    requires i < |xs|
    ensures Filter(xs[..i + 1], keep) == Filter(xs[..i], keep) + if keep(xs[i]) then [xs[i]] else []
  {
    assert xs[..i + 1][..i] == xs[..i];
  }

  lemma {:induction false} FlatSingles<A, B>(xs: seq<A>, f: A -> seq<B>)
    requires forall x :: x in xs ==> |f(x)| == 1
    ensures |Flat(xs, f)| == |xs|
    decreases |xs|
  {
    if xs != [] { FlatSingles(xs[..|xs| - 1], f); }
  }

  lemma {:induction false} FlatEqual<A, B>(xs: seq<A>, f: A -> seq<B>, g: A -> seq<B>)
    requires forall x :: x in xs ==> f(x) == g(x)
    ensures Flat(xs, f) == Flat(xs, g)
    decreases |xs|
  {
    if xs != [] { FlatEqual(xs[..|xs| - 1], f, g); }
  }

  lemma {:induction false} FlatMember<A, B>(xs: seq<A>, f: A -> seq<B>, r: B) returns (x: A)
    requires r in Flat(xs, f)
    ensures x in xs && r in f(x)
    decreases |xs|
  {
    x := xs[|xs| - 1];
    if r !in f(x) { x := FlatMember(xs[..|xs| - 1], f, r); }
  }

  lemma {:induction false} FlatHas<A, B>(xs: seq<A>, f: A -> seq<B>, x: A, r: B)
    requires x in xs && r in f(x)
    ensures r in Flat(xs, f)
    decreases |xs|
  {
    if x in xs[..|xs| - 1] { FlatHas(xs[..|xs| - 1], f, x, r); }
  }

  lemma LastOut<A>(xs: seq<A>)
    requires xs != []
    ensures multiset(xs) == multiset(xs[..|xs| - 1]) + multiset{xs[|xs| - 1]}
  {
    assert xs == xs[..|xs| - 1] + [xs[|xs| - 1]];
  }

  lemma OneOut<A>(xs: seq<A>, i: nat)
    requires i < |xs|
    ensures multiset(xs) == multiset(xs[..i] + xs[i + 1..]) + multiset{xs[i]}
  {
    assert xs == xs[..i] + [xs[i]] + xs[i + 1..];
  }

  lemma SameSize<A>(a: seq<A>, b: seq<A>)
    requires multiset(a) == multiset(b)
    ensures |a| == |b|
  {
    assert |multiset(a)| == |a| && |multiset(b)| == |b|;
  }

  lemma Cancel<A>(a: multiset<A>, b: multiset<A>, x: A)
    requires a + multiset{x} == b + multiset{x}
    ensures a == b
  {
    assert a == (a + multiset{x}) - multiset{x};
    assert b == (b + multiset{x}) - multiset{x};
  }

  lemma FlatMiddle<A, B>(l: seq<A>, x: A, r: seq<A>, f: A -> seq<B>)
    ensures multiset(Flat(l + [x] + r, f)) == multiset(Flat(l + r, f)) + multiset(f(x))
  {
    FlatAppend(l, r, f);
    FlatAppend(l + [x], r, f);
    Snoc(l, x);
  }

  /** Flattening a permutation, with each part permuted too, permutes the result. */
  lemma {:induction false} FlatPermutes<A, B>(a: seq<A>, b: seq<A>, f: A -> seq<B>, g: A -> seq<B>)
    requires multiset(a) == multiset(b)
    requires forall x :: x in a ==> multiset(f(x)) == multiset(g(x))
    ensures multiset(Flat(a, f)) == multiset(Flat(b, g))
    decreases |a|
  {
    SameSize(a, b);
    if a != [] {
      var n := |a| - 1;
      LastOut(a);
      assert a[n] in multiset(b);
      var i :| 0 <= i < |b| && b[i] == a[n];
      OneOut(b, i);
      Cancel(multiset(a[..n]), multiset(b[..i] + b[i + 1..]), a[n]);
      FlatPermutes(a[..n], b[..i] + b[i + 1..], f, g);
      FlatMiddle(b[..i], a[n], b[i + 1..], g);
      assert b == b[..i] + [a[n]] + b[i + 1..];
    }
  }

  lemma {:induction false} FilterAppend<A>(a: seq<A>, b: seq<A>, keep: A -> bool)
    ensures Filter(a + b, keep) == Filter(a, keep) + Filter(b, keep)
    decreases |b|
  {
    if b == [] {
      assert a + b == a;
    } else {
      var n := |b| - 1;
      assert (a + b)[..|a + b| - 1] == a + b[..n];
      FilterAppend(a, b[..n], keep);
    }
  }

  lemma {:induction false} FilterMember<A>(xs: seq<A>, keep: A -> bool, x: A)
    ensures x in Filter(xs, keep) <==> x in xs && keep(x)
    decreases |xs|
  {
    if xs != [] { FilterMember(xs[..|xs| - 1], keep, x); }
  }

  lemma {:induction false} FilterAll<A>(xs: seq<A>, keep: A -> bool)
    requires forall x :: x in xs ==> keep(x)
    ensures Filter(xs, keep) == xs
    decreases |xs|
  {
    if xs != [] { FilterAll(xs[..|xs| - 1], keep); }
  }

  lemma {:induction false} FilterNone<A>(xs: seq<A>, keep: A -> bool)
    requires forall x :: x in xs ==> !keep(x)
    ensures Filter(xs, keep) == []
    decreases |xs|
  {
    if xs != [] { FilterNone(xs[..|xs| - 1], keep); }
  }

  /** Elements that contribute nothing may be dropped before flattening. */
  lemma {:induction false} FlatSkips<A, B>(xs: seq<A>, f: A -> seq<B>, keep: A -> bool)
    requires forall x :: x in xs && !keep(x) ==> f(x) == []
    ensures Flat(Filter(xs, keep), f) == Flat(xs, f)
    decreases |xs|
  {
    if xs != [] {
      var n := |xs| - 1;
      FlatSkips(xs[..n], f, keep);
      Snoc(Filter(xs[..n], keep), xs[n]);
    }
  }

  /** Filtering results by the element they come from is filtering the elements. */
  lemma {:induction false} FilterFlat<A, B>(xs: seq<A>, f: A -> seq<B>, keep: A -> bool, shown: B -> bool)
    requires forall x, r :: x in xs && r in f(x) ==> (shown(r) <==> keep(x))
    ensures Filter(Flat(xs, f), shown) == Flat(Filter(xs, keep), f)
    decreases |xs|
  {
    if xs != [] {
      var n := |xs| - 1;
      FilterFlat(xs[..n], f, keep, shown);
      FilterAppend(Flat(xs[..n], f), f(xs[n]), shown);
      if keep(xs[n]) {
        FilterAll(f(xs[n]), shown);
        Snoc(Filter(xs[..n], keep), xs[n]);
      } else {
        FilterNone(f(xs[n]), shown);
      }
    }
  }

  lemma {:induction false} FilterEach<A, B>(xs: seq<A>, f: A -> seq<B>, g: A -> seq<B>, shown: B -> bool)
    requires forall x :: x in xs ==> Filter(f(x), shown) == g(x)
    ensures Filter(Flat(xs, f), shown) == Flat(xs, g)
    decreases |xs|
  {
    if xs != [] {
      var n := |xs| - 1;
      FilterEach(xs[..n], f, g, shown);
      FilterAppend(Flat(xs[..n], f), f(xs[n]), shown);
    }
  }

  /** When only one element has results that are shown, filtering leaves those of that element. */
  lemma {:induction false} FilterFlatOne<A, B>(xs: seq<A>, f: A -> seq<B>, i: nat, shown: B -> bool)
    requires i < |xs|
    requires forall j, r :: 0 <= j < |xs| && j != i && r in f(xs[j]) ==> !shown(r)
    ensures Filter(Flat(xs, f), shown) == Filter(f(xs[i]), shown)
    decreases |xs|
  {
    var n := |xs| - 1;
    FilterAppend(Flat(xs[..n], f), f(xs[n]), shown);
    if i < n {
      FilterFlatOne(xs[..n], f, i, shown);
      FilterNone(f(xs[n]), shown);
    } else {
      forall r | r in Flat(xs[..n], f) ensures !shown(r) {
        var x := FlatMember(xs[..n], f, r);
        var j :| 0 <= j < n && xs[j] == x;
      }
      FilterNone(Flat(xs[..n], f), shown);
    }
  }

  // ---------------------------------------------------------------- sorting

  /** A strict weak order on the elements of a list. */
  ghost predicate Orders<A(!new)>(less: (A, A) -> bool) {
    && (forall x :: !less(x, x))
    && (forall x, y, z :: less(x, y) && less(y, z) ==> less(x, z))
    && (forall x, y, z :: less(x, z) ==> less(x, y) || less(y, z))
  }

  predicate Sorted<A>(xs: seq<A>, less: (A, A) -> bool) {
    forall i, j :: 0 <= i < j < |xs| ==> !less(xs[j], xs[i])
  }

  /** Puts x behind every element that does not come after it. */
  function Insert<A>(xs: seq<A>, x: A, less: (A, A) -> bool): seq<A> {
    if xs == [] || !less(x, xs[|xs| - 1]) then xs + [x]
    else Insert(xs[..|xs| - 1], x, less) + [xs[|xs| - 1]]
  }

  /** The stable sort. */
  function Sort<A>(xs: seq<A>, less: (A, A) -> bool): seq<A> {
    if xs == [] then [] else Insert(Sort(xs[..|xs| - 1], less), xs[|xs| - 1], less)
  }

  lemma {:induction false} InsertPermutes<A>(xs: seq<A>, x: A, less: (A, A) -> bool)
    ensures multiset(Insert(xs, x, less)) == multiset(xs) + multiset{x}
    decreases |xs|
  {
    if xs != [] && less(x, xs[|xs| - 1]) {
      InsertPermutes(xs[..|xs| - 1], x, less);
      assert xs == xs[..|xs| - 1] + [xs[|xs| - 1]];
    }
  }

  lemma {:induction false} InsertSorted<A(!new)>(xs: seq<A>, x: A, less: (A, A) -> bool)
    requires Sorted(xs, less) && Orders(less)
    ensures Sorted(Insert(xs, x, less), less)
    decreases |xs|
  {
    if xs != [] && less(x, xs[|xs| - 1]) {
      var n := |xs| - 1;
      InsertSorted(xs[..n], x, less);
      InsertPermutes(xs[..n], x, less);
      var ys := Insert(xs[..n], x, less);
      forall i | 0 <= i < |ys| ensures !less(xs[n], ys[i]) {
        assert ys[i] in multiset(ys);
        assert ys[i] in xs[..n] || ys[i] == x;
      }
    }
  }

  lemma {:induction false} SortSorts<A(!new)>(xs: seq<A>, less: (A, A) -> bool)
    requires Orders(less)
    ensures Sorted(Sort(xs, less), less) && multiset(Sort(xs, less)) == multiset(xs)
    decreases |xs|
  {
    if xs != [] {
      var n := |xs| - 1;
      SortSorts(xs[..n], less);
      InsertSorted(Sort(xs[..n], less), xs[n], less);
      InsertPermutes(Sort(xs[..n], less), xs[n], less);
      assert xs == xs[..n] + [xs[n]];
    }
  }

  lemma {:induction false} FilterInsert<A(!new)>(xs: seq<A>, x: A, less: (A, A) -> bool, keep: A -> bool)
    requires Sorted(xs, less) && Orders(less)
    ensures Filter(Insert(xs, x, less), keep)
         == if keep(x) then Insert(Filter(xs, keep), x, less) else Filter(xs, keep)
    decreases |xs|
  {
    if xs == [] || !less(x, xs[|xs| - 1]) {
      Snoc(xs, x);
      if keep(x) {
        var kept := Filter(xs, keep);
        if kept != [] {
          FilterMember(xs, keep, kept[|kept| - 1]);
          assert !less(x, kept[|kept| - 1]);
        }
      }
    } else {
      var n := |xs| - 1;
      FilterInsert(xs[..n], x, less, keep);
      Snoc(Insert(xs[..n], x, less), xs[n]);
      if keep(xs[n]) {
        Snoc(Filter(xs[..n], keep), xs[n]);
      }
    }
  }

  /** A stable sort and a filter commute. */
  lemma {:induction false} FilterSort<A(!new)>(xs: seq<A>, less: (A, A) -> bool, keep: A -> bool)
    requires Orders(less)
    ensures Filter(Sort(xs, less), keep) == Sort(Filter(xs, keep), less)
    decreases |xs|
  {
    if xs != [] {
      var n := |xs| - 1;
      FilterSort(xs[..n], less, keep);
      SortSorts(xs[..n], less);
      FilterInsert(Sort(xs[..n], less), xs[n], less, keep);
      if keep(xs[n]) { Snoc(Filter(xs[..n], keep), xs[n]); }
    }
  }

  lemma LastIsSame<A(!new)>(a: seq<A>, b: seq<A>, less: (A, A) -> bool)
    requires Orders(less) && Sorted(a, less) && Sorted(b, less) && multiset(a) == multiset(b) && |a| == |b| > 0
    requires forall x, y :: x in a && y in a ==> x == y || less(x, y) || less(y, x)
    ensures a[|a| - 1] == b[|b| - 1]
  {
    var x, y := a[|a| - 1], b[|b| - 1];
    assert x in multiset(b) && y in multiset(a);
    assert !less(x, y);
    assert !less(y, x);
  }

  /** Two sorted permutations are equal when the order tells all their elements apart. */
  lemma {:induction false} SortedIsUnique<A(!new)>(a: seq<A>, b: seq<A>, less: (A, A) -> bool)
    requires Orders(less) && Sorted(a, less) && Sorted(b, less) && multiset(a) == multiset(b)
    requires forall x, y :: x in a && y in a ==> x == y || less(x, y) || less(y, x)
    ensures a == b
    decreases |a|
  {
    SameSize(a, b);
    if a != [] {
      var n := |a| - 1;
      LastIsSame(a, b, less);
      LastOut(a);
      LastOut(b);
      Cancel(multiset(a[..n]), multiset(b[..n]), a[n]);
      SortedIsUnique(a[..n], b[..n], less);
      assert a == a[..n] + [a[n]] && b == b[..n] + [b[n]];
    }
  }

  /** Permuting the input of a sort does not show in its output. */
  lemma SortIgnoresOrder<A(!new)>(a: seq<A>, b: seq<A>, less: (A, A) -> bool)
    requires Orders(less) && multiset(a) == multiset(b)
    requires forall x, y :: x in a && y in a ==> x == y || less(x, y) || less(y, x)
    ensures Sort(a, less) == Sort(b, less)
  {
    SortSorts(a, less);
    SortSorts(b, less);
    forall x | x in Sort(a, less) ensures x in a { assert x in multiset(Sort(a, less)); }
    SortedIsUnique(Sort(a, less), Sort(b, less), less);
  }
}
