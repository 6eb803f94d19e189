// Small facts about sequences without repeats, shared by the analyses.
module SeqUtil {

  datatype Option<+T> = None | Some(value: T)

  ghost predicate Distinct<T>(xs: seq<T>) {
    forall i, j :: 0 <= i < j < |xs| ==> xs[i] != xs[j]
  }

  function Elems<T>(xs: seq<T>): set<T> {
    set x | x in xs
  }

  lemma {:induction false} DistinctCount<T>(xs: seq<T>)
    ensures Distinct(xs) <==> forall x :: x in xs ==> multiset(xs)[x] == 1
  {
    if |xs| == 0 {
    } else {
      var n := |xs| - 1;
      var ys := xs[..n];
      assert xs == ys + [xs[n]];
      DistinctCount(ys);
      if Distinct(xs) {
        forall x | x in xs ensures multiset(xs)[x] == 1 {
          if x == xs[n] {
            assert x !in ys;
            assert x !in multiset(ys);
          } else {
            assert x in ys;
          }
        }
      }
      if forall x :: x in xs ==> multiset(xs)[x] == 1 {
        forall x | x in ys ensures multiset(ys)[x] == 1 {
          assert x in xs;
        }
        forall i, j | 0 <= i < j < |xs| ensures xs[i] != xs[j] {
          if j == n {
            assert multiset(xs)[xs[n]] == 1;
            assert xs[n] !in multiset(ys);
            assert xs[i] in ys;
          } else {
            assert ys[i] != ys[j];
          }
        }
      }
    }
  }

  // A rearrangement of a sequence without repeats has no repeats.
  lemma DistinctRearranged<T>(xs: seq<T>, ys: seq<T>)
    requires Distinct(xs) && multiset(xs) == multiset(ys)
    ensures Distinct(ys)
    ensures |xs| == |ys|
    ensures forall x :: x in ys <==> x in xs
  {
    assert |multiset(xs)| == |multiset(ys)|;
    forall x ensures x in ys <==> x in xs {
      assert x in multiset(xs) <==> x in xs;
      assert x in multiset(ys) <==> x in ys;
    }
    DistinctCount(xs);
    DistinctCount(ys);
  }

  lemma {:induction false} DistinctSize<T>(xs: seq<T>)
    requires Distinct(xs)
    ensures |Elems(xs)| == |xs|
  {
    if |xs| == 0 {
      assert Elems(xs) == {};
    } else {
      var n := |xs| - 1;
      DistinctSize(xs[..n]);
      assert Elems(xs) == Elems(xs[..n]) + {xs[n]};
    }
  }

  ghost function FirstIndex<T>(xs: seq<T>, x: T): (k: nat)
    requires x in xs
    ensures k < |xs| && xs[k] == x
    ensures forall i :: 0 <= i < k ==> xs[i] != x
  {
    if xs[0] == x then 0 else 1 + FirstIndex(xs[1..], x)
  }

  lemma FirstIndexAppend<T>(xs: seq<T>, y: T, x: T)
    requires x in xs + [y]
    ensures FirstIndex(xs + [y], x) == if x in xs then FirstIndex(xs, x) else |xs|
  {
    var k := FirstIndex(xs + [y], x);
    if x in xs {
      var i := FirstIndex(xs, x);
      assert (xs + [y])[i] == x;
      assert (xs + [y])[k] == x;
    }
  }

  ghost predicate Below(xs: seq<nat>, n: nat) {
    forall i :: 0 <= i < |xs| ==> xs[i] < n
  }

  ghost predicate SortedBy(xs: seq<nat>, key: seq<nat>)
    requires Below(xs, |key|)
  {
    forall i, j :: 0 <= i < j < |xs| ==> key[xs[i]] <= key[xs[j]]
  }

  lemma {:induction false} DistinctBelow(xs: seq<nat>, n: nat)
    requires Distinct(xs) && Below(xs, n)
    ensures |xs| <= n
    decreases n
  {
    if xs == [] {
    } else if k :| 0 <= k < |xs| && xs[k] == n - 1 {
      DistinctBelow(xs[..k] + xs[k + 1..], n - 1);
    } else {
      assert xs[0] < n;
      DistinctBelow(xs, n - 1);
    }
  }

  lemma {:induction false} SetBelow(X: set<nat>, n: nat)
    requires forall x :: x in X ==> x < n
    ensures |X| <= n
    decreases n
  {
    if X == {} {
    } else if n - 1 in X {
      var x :| x in X;
      SetBelow(X - {n - 1}, n - 1);
    } else {
      var x :| x in X;
      assert x < n - 1;
      SetBelow(X, n - 1);
    }
  }

  function InsertAt(xs: seq<nat>, p: nat, x: nat): seq<nat>
    requires p <= |xs|
  {
    xs[..p] + [x] + xs[p..]
  }

  lemma InsertedAt(xs: seq<nat>, p: nat, x: nat, i: nat)
    requires p <= |xs| && i <= |xs|
    ensures InsertAt(xs, p, x)[i] == if i < p then xs[i] else if i == p then x else xs[i - 1]
  {
  }

  lemma InsertKeepsSorted(xs: seq<nat>, key: seq<nat>, p: nat, x: nat)
    requires Below(xs, |key|) && SortedBy(xs, key)
    requires p <= |xs| && x < |key|
    requires p > 0 ==> key[xs[p - 1]] <= key[x]
    requires forall i :: p <= i < |xs| ==> key[x] < key[xs[i]]
    ensures Below(InsertAt(xs, p, x), |key|) && SortedBy(InsertAt(xs, p, x), key)
  {
    var ys := InsertAt(xs, p, x);
    forall i | 0 <= i < |ys| ensures ys[i] < |key| {
      InsertedAt(xs, p, x, i);
    }
    forall i, j | 0 <= i < j < |ys| ensures key[ys[i]] <= key[ys[j]] {
      InsertedAt(xs, p, x, i);
      InsertedAt(xs, p, x, j);
    }
  }

  lemma InsertAddsOne(xs: seq<nat>, p: nat, x: nat)
    requires p <= |xs|
    ensures multiset(InsertAt(xs, p, x)) == multiset(xs) + multiset{x}
  {
    assert xs == xs[..p] + xs[p..];
  }

  // Stands in for std::sort with a key comparator: ties may come out in any order.
  method SortByKey(xs: seq<nat>, key: seq<nat>) returns (ys: seq<nat>)
    requires Below(xs, |key|)
    ensures multiset(ys) == multiset(xs)
    ensures Below(ys, |key|) && SortedBy(ys, key)
  {
    ys := [];
    var k := 0;
    while k < |xs|
      invariant 0 <= k <= |xs|
      invariant multiset(ys) == multiset(xs[..k])
      invariant Below(ys, |key|) && SortedBy(ys, key)
    {
      var p := |ys|;
      while p > 0 && key[ys[p - 1]] > key[xs[k]]
        invariant 0 <= p <= |ys|
        invariant forall i :: p <= i < |ys| ==> key[xs[k]] < key[ys[i]]
      {
        p := p - 1;
      }
      assert xs[..k + 1] == xs[..k] + [xs[k]];
      InsertKeepsSorted(ys, key, p, xs[k]);
      InsertAddsOne(ys, p, xs[k]);
      ys := InsertAt(ys, p, xs[k]);
      k := k + 1;
    }
    assert xs[..k] == xs;
  }

  function Reversed<T>(xs: seq<T>): (ys: seq<T>)
    ensures |ys| == |xs| && forall i :: 0 <= i < |xs| ==> ys[i] == xs[|xs| - 1 - i]
  {
    if xs == [] then [] else Reversed(xs[1..]) + [xs[0]]
  }

  lemma ReversedElems<T>(xs: seq<T>)
    ensures Distinct(xs) ==> Distinct(Reversed(xs))
    ensures forall x :: x in Reversed(xs) <==> x in xs
  {
    forall x | x in xs ensures x in Reversed(xs) {
      var i :| 0 <= i < |xs| && xs[i] == x;
      assert Reversed(xs)[|xs| - 1 - i] == x;
    }
  }

  lemma ReversedIndex<T>(xs: seq<T>, x: T)
    requires Distinct(xs) && x in xs
    ensures x in Reversed(xs) && FirstIndex(Reversed(xs), x) == |xs| - 1 - FirstIndex(xs, x)
  {
    ReversedElems(xs);
    assert Reversed(xs)[|xs| - 1 - FirstIndex(xs, x)] == x;
    var k := FirstIndex(Reversed(xs), x);
    assert Reversed(xs)[k] == x;
  }

  lemma DistinctJoin<T>(xs: seq<T>, ys: seq<T>)
    requires Distinct(xs) && Distinct(ys) && forall y :: y in ys ==> y !in xs
    ensures Distinct(xs + ys)
  {
    forall i, j | 0 <= i < j < |xs + ys| ensures (xs + ys)[i] != (xs + ys)[j] {
      if j >= |xs| {
        assert ys[j - |xs|] in ys;
      }
    }
  }
}
