/** Subsequences picked by a set of positions, and what a partition of the
    positions preserves. */
module Seqs {

  function Range(n: nat): (s: set<nat>)
    ensures forall k: nat :: k in s <==> k < n
  {
    if n == 0 then {} else Range(n - 1) + {n - 1}
  }

  /** The elements at the positions in `at`, in order. */
  function Select<T>(xs: seq<T>, at: set<nat>): seq<T> {
    if xs == [] then []
    else
      var n := |xs| - 1;
      Select(xs[..n], at) + if n in at then [xs[n]] else []
  }

  lemma {:induction false} SelectTogether<T, U>(xs: seq<T>, ys: seq<U>, at: set<nat>)
    requires |xs| == |ys|
    ensures |Select(xs, at)| == |Select(ys, at)|
  {
    if xs != [] {
      SelectTogether(xs[..|xs| - 1], ys[..|ys| - 1], at);
    }
  }

  lemma {:induction false} SelectMembers<T>(xs: seq<T>, at: set<nat>, x: T)
    ensures x in Select(xs, at) <==> exists i :: 0 <= i < |xs| && i in at && xs[i] == x
  {
    if xs != [] {
      var n := |xs| - 1;
      SelectMembers(xs[..n], at, x);
      assert forall i :: 0 <= i < n ==> xs[..n][i] == xs[i];
    }
  }

  function FlatMap<T, U>(f: T -> seq<U>, xs: seq<T>): seq<U> {
    if xs == [] then [] else FlatMap(f, xs[..|xs| - 1]) + f(xs[|xs| - 1])
  }

  lemma {:induction false} FlatMapConcat<T, U>(f: T -> seq<U>, xs: seq<T>, ys: seq<T>)
    ensures FlatMap(f, xs + ys) == FlatMap(f, xs) + FlatMap(f, ys)
  {
    if ys == [] {
      assert xs + ys == xs;
    } else {
      var n := |ys| - 1;
      assert (xs + ys)[..|xs + ys| - 1] == xs + ys[..n];
      FlatMapConcat(f, xs, ys[..n]);
    }
  }

  lemma FlatMapSnoc<T, U>(f: T -> seq<U>, xs: seq<T>, x: T)
    ensures FlatMap(f, xs + [x]) == FlatMap(f, xs) + f(x)
  {
    assert (xs + [x])[..|xs|] == xs;
  }

  /** Taking one argument out takes out what it contributed. */
  lemma FlatMapWithout<T, U>(f: T -> seq<U>, a: seq<T>, x: T, b: seq<T>)
    ensures multiset(FlatMap(f, a + [x] + b)) == multiset(FlatMap(f, a + b)) + multiset(f(x))
  {
    FlatMapConcat(f, a + [x], b);
    FlatMapSnoc(f, a, x);
    FlatMapConcat(f, a, b);
  }

  /** Reordering the arguments only reorders what they contribute. */
  lemma {:induction false} FlatMapPermutation<T, U>(f: T -> seq<U>, xs: seq<T>, ys: seq<T>)
    requires multiset(xs) == multiset(ys)
    ensures multiset(FlatMap(f, xs)) == multiset(FlatMap(f, ys))
  {
    if xs == [] {
      SameLength(xs, ys);
    } else {
      var n := |xs| - 1;
      var front, x := xs[..n], xs[n];
      assert xs == front + [x];
      var a, b := SplitAtMember(ys, x);
      assert multiset(xs) == multiset(front) + multiset{x};
      assert multiset(front) == multiset(a + b) by {
        assert multiset(front) == multiset(xs) - multiset{x};
        assert multiset(a + b) == multiset(ys) - multiset{x};
      }
      FlatMapPermutation(f, front, a + b);
      FlatMapSnoc(f, front, x);
      FlatMapWithout(f, a, x, b);
    }
  }

  lemma SplitAtMember<T>(ys: seq<T>, x: T) returns (a: seq<T>, b: seq<T>)
    requires x in multiset(ys)
    ensures ys == a + [x] + b
    ensures multiset(ys) == multiset(a + b) + multiset{x}
  {
    var k :| 0 <= k < |ys| && ys[k] == x;
    a, b := ys[..k], ys[k + 1..];
    assert ys == a + [x] + b;
  }

  lemma SameLength<T>(xs: seq<T>, ys: seq<T>)
    requires multiset(xs) == multiset(ys)
    ensures |xs| == |ys|
  {
    assert |multiset(xs)| == |xs| && |multiset(ys)| == |ys|;
  }

  function Concat<T>(xss: seq<seq<T>>): seq<T> {
    if xss == [] then [] else Concat(xss[..|xss| - 1]) + xss[|xss| - 1]
  }

  lemma {:induction false} FlatMapOfConcat<T, U>(f: T -> seq<U>, xss: seq<seq<T>>)
    ensures FlatMap(f, Concat(xss)) == Concat(seq(|xss|, k requires 0 <= k < |xss| => FlatMap(f, xss[k])))
  {
    if xss != [] {
      var n := |xss| - 1;
      FlatMapOfConcat(f, xss[..n]);
      FlatMapConcat(f, Concat(xss[..n]), xss[n]);
      var all := seq(|xss|, k requires 0 <= k < |xss| => FlatMap(f, xss[k]));
      assert all[..n] == seq(n, k requires 0 <= k < n => FlatMap(f, xss[..n][k]));
    }
  }

  ghost predicate Covers(classes: seq<set<nat>>, i: nat) {
    exists k :: 0 <= k < |classes| && i in classes[k]
  }

  /** Each of the positions 0..n is in exactly one of the classes. */
  ghost predicate Splits(classes: seq<set<nat>>, n: nat) {
    && (forall i :: 0 <= i < n ==> Covers(classes, i))
    && (forall j, k, i :: 0 <= j < k < |classes| && i in classes[j] ==> i !in classes[k])
  }

  function SelectAll<T>(xs: seq<T>, classes: seq<set<nat>>): seq<seq<T>> {
    seq(|classes|, k requires 0 <= k < |classes| => Select(xs, classes[k]))
  }

  lemma {:induction false} SelectSame<T>(xs: seq<T>, at: set<nat>, at': set<nat>)
    requires forall i: nat :: i < |xs| ==> (i in at <==> i in at')
    ensures Select(xs, at) == Select(xs, at')
  {
    if xs != [] {
      SelectSame(xs[..|xs| - 1], at, at');
    }
  }

  lemma SelectSnoc<T>(xs: seq<T>, x: T, at: set<nat>)
    ensures Select(xs + [x], at) == Select(xs, at) + if |xs| in at then [x] else []
  {
    assert (xs + [x])[..|xs|] == xs;
  }

  lemma SelectAllGrows<T>(xs: seq<T>, x: T, classes: seq<set<nat>>, k: nat)
    requires k < |classes|
    requires forall j :: 0 <= j < |classes| ==> (|xs| in classes[j] <==> j == k)
    ensures SelectAll(xs + [x], classes) == SelectAll(xs, classes)[k := SelectAll(xs, classes)[k] + [x]]
  {
    forall j | 0 <= j < |classes|
      ensures SelectAll(xs + [x], classes)[j] ==
              if j == k then SelectAll(xs, classes)[k] + [x] else SelectAll(xs, classes)[j]
    {
      SelectSnoc(xs, x, classes[j]);
    }
    assert SelectAll(xs + [x], classes) == SelectAll(xs, classes)[k := SelectAll(xs, classes)[k] + [x]];
  }

  /** Regrouping a list by classes that split its positions permutes it. */
  lemma {:induction false} SplitPermutes<T>(xs: seq<T>, classes: seq<set<nat>>)
    requires Splits(classes, |xs|)
    ensures multiset(Concat(SelectAll(xs, classes))) == multiset(xs)
  {
    if xs == [] {
      ConcatOfEmpties(SelectAll(xs, classes));
    } else {
      var n := |xs| - 1;
      SplitPermutes(xs[..n], classes);
      assert Covers(classes, n);
      var k :| 0 <= k < |classes| && n in classes[k];
      assert xs == xs[..n] + [xs[n]];
      SelectAllGrows(xs[..n], xs[n], classes, k);
      ConcatGrow(SelectAll(xs[..n], classes), k, xs[n]);
    }
  }

  lemma {:induction false} ConcatOfEmpties<T>(xss: seq<seq<T>>)
    requires forall k :: 0 <= k < |xss| ==> xss[k] == []
    ensures Concat(xss) == []
  {
    if xss != [] {
      ConcatOfEmpties(xss[..|xss| - 1]);
    }
  }

  lemma {:induction false} ConcatGrow<T>(xss: seq<seq<T>>, k: nat, x: T)
    requires k < |xss|
    ensures multiset(Concat(xss[k := xss[k] + [x]])) == multiset(Concat(xss)) + multiset{x}
  {
    var n := |xss| - 1;
    var grown := xss[k := xss[k] + [x]];
    if k == n {
      assert grown[..n] == xss[..n];
    } else {
      assert grown[..n] == xss[..n][k := xss[..n][k] + [x]];
      ConcatGrow(xss[..n], k, x);
    }
  }

  lemma {:induction false} ConcatMembers<T>(xss: seq<seq<T>>, x: T)
    ensures x in Concat(xss) <==> exists k :: 0 <= k < |xss| && x in xss[k]
  {
    if xss != [] {
      var n := |xss| - 1;
      ConcatMembers(xss[..n], x);
      assert forall k :: 0 <= k < n ==> xss[..n][k] == xss[k];
    }
  }

  /** Two complementary selections share out the list. */
  lemma {:induction false} SelectComplement<T>(xs: seq<T>, at: set<nat>, others: set<nat>)
    requires forall i: nat :: i < |xs| ==> (i in others <==> i !in at)
    ensures multiset(Select(xs, at)) + multiset(Select(xs, others)) == multiset(xs)
  {
    if xs != [] {
      var n := |xs| - 1;
      SelectComplement(xs[..n], at, others);
      assert xs == xs[..n] + [xs[n]];
    }
  }

  lemma {:induction false} SelectExtremes<T>(xs: seq<T>, at: set<nat>)
    ensures (forall i: nat :: i < |xs| ==> i !in at) ==> Select(xs, at) == []
    ensures (forall i: nat :: i < |xs| ==> i in at) ==> Select(xs, at) == xs
  {
    if xs != [] {
      SelectExtremes(xs[..|xs| - 1], at);
    }
  }

  lemma {:induction false} SelectPrefix<T>(xs: seq<T>, ys: seq<T>, at: set<nat>)
    requires forall i: nat :: i < |xs + ys| ==> (i in at <==> i < |xs|)
    ensures Select(xs + ys, at) == xs
  {
    if ys == [] {
      assert xs + ys == xs;
      SelectExtremes(xs, at);
    } else {
      var n := |ys| - 1;
      assert (xs + ys)[..|xs| + n] == xs + ys[..n];
      SelectPrefix(xs, ys[..n], at);
    }
  }

  lemma {:induction false} SelectSuffix<T>(xs: seq<T>, ys: seq<T>, at: set<nat>)
    requires forall i: nat :: i < |xs + ys| ==> (i in at <==> |xs| <= i)
    ensures Select(xs + ys, at) == ys
  {
    if ys == [] {
      assert xs + ys == xs;
      SelectExtremes(xs, at);
    } else {
      var n := |ys| - 1;
      assert (xs + ys)[..|xs| + n] == xs + ys[..n];
      SelectSuffix(xs, ys[..n], at);
    }
  }

  lemma {:induction false} SelectOne<T>(xs: seq<T>, i: nat)
    requires i < |xs|
    ensures Select(xs, {i}) == [xs[i]]
  {
    var n := |xs| - 1;
    if i == n {
      SelectExtremes(xs[..n], {i});
    } else {
      SelectOne(xs[..n], i);
    }
  }
}
