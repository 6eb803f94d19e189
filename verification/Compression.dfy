// Path compression over an ancestor forest (_compress and _eval,
// src/Function.cpp:413-442). A vertex whose ancestor is 0 is a forest root.
module Compression {
  import opened Tree

  ghost predicate Forest(anc: seq<nat>, labels: seq<nat>, semi: seq<nat>) {
    && IsTree(anc) && |labels| == |anc| && |semi| == |anc|
    && forall x :: 0 <= x < |labels| ==> labels[x] < |semi|
  }

  // The uncompressed search: the label of smallest semi among the vertices from v
  // up to, but excluding, its root; the label nearest to v wins ties.
  ghost function Best(anc: seq<nat>, labels: seq<nat>, semi: seq<nat>, v: nat): (b: nat)
    requires Forest(anc, labels, semi) && v < |anc|
    ensures b < |semi|
    decreases v
  {
    if anc[anc[v]] == 0 then labels[v]
    else
      var b := Best(anc, labels, semi, anc[v]);
      if semi[b] < semi[labels[v]] then b else labels[v]
  }

  ghost function Answer(anc: seq<nat>, labels: seq<nat>, semi: seq<nat>, v: nat): nat
    requires Forest(anc, labels, semi) && v < |anc|
  {
    if anc[v] == 0 then v else Best(anc, labels, semi, v)
  }

  // x lies on the walk from v towards its root and is not that root.
  ghost predicate OnWalk(anc: seq<nat>, x: nat, v: nat)
    requires IsTree(anc) && v < |anc| && x < |anc|
  {
    anc[x] != 0 && Anc(anc, x, v)
  }

  lemma WalkOfOne(anc: seq<nat>, x: nat, v: nat)
    requires IsTree(anc) && v < |anc| && x < |anc| && anc[v] != 0 && anc[anc[v]] == 0
    ensures OnWalk(anc, x, v) <==> x == v
  {
    assert Anc(anc, x, v) <==> x == v || Anc(anc, x, anc[v]);
    assert Anc(anc, x, anc[v]) <==> x == anc[v] || Anc(anc, x, 0);
  }

  lemma {:induction false} BestIsMinimal(anc: seq<nat>, labels: seq<nat>, semi: seq<nat>, v: nat)
    requires Forest(anc, labels, semi) && v < |anc| && anc[v] != 0
    ensures exists x :: 0 <= x < |anc| && OnWalk(anc, x, v) && labels[x] == Best(anc, labels, semi, v)
    ensures forall x :: 0 <= x < |anc| && OnWalk(anc, x, v) ==> semi[Best(anc, labels, semi, v)] <= semi[labels[x]]
    decreases v
  {
    assert OnWalk(anc, v, v);
    var p := anc[v];
    if anc[p] == 0 {
      forall x | 0 <= x < |anc| ensures OnWalk(anc, x, v) <==> x == v {
        WalkOfOne(anc, x, v);
      }
    } else {
      BestIsMinimal(anc, labels, semi, p);
      var x :| 0 <= x < |anc| && OnWalk(anc, x, p) && labels[x] == Best(anc, labels, semi, p);
      assert OnWalk(anc, x, v);
      forall y | 0 <= y < |anc| && OnWalk(anc, y, v) ensures semi[Best(anc, labels, semi, v)] <= semi[labels[y]] {
        assert y == v || OnWalk(anc, y, p);
      }
    }
  }

  // Hanging v below its root r, with its best label, changes nobody's answer.
  lemma {:induction false} HangKeepsBest(anc: seq<nat>, labels: seq<nat>, semi: seq<nat>, v: nat, r: nat, w: nat)
    requires Forest(anc, labels, semi) && v < |anc| && w < |anc|
    requires 0 < r < v && anc[r] == 0 && anc[v] != 0
    requires Forest(anc[v := r], labels[v := Best(anc, labels, semi, v)], semi)
    ensures Best(anc[v := r], labels[v := Best(anc, labels, semi, v)], semi, w) == Best(anc, labels, semi, w)
    decreases w
  {
    if w != v && anc[anc[w]] != 0 {
      HangKeepsBest(anc, labels, semi, v, r, anc[w]);
    }
  }

  ghost predicate SameAnswers(anc: seq<nat>, labels: seq<nat>, anc': seq<nat>, labels': seq<nat>, semi: seq<nat>)
    requires Forest(anc, labels, semi) && Forest(anc', labels', semi) && |anc'| == |anc|
  {
    && (forall w :: 0 <= w < |anc| ==> (anc'[w] == 0 <==> anc[w] == 0))
    && (forall w :: 0 <= w < |anc| ==> Best(anc', labels', semi, w) == Best(anc, labels, semi, w))
  }

  ghost predicate SameAbove(xs: seq<nat>, ys: seq<nat>, v: nat) {
    |xs| == |ys| && forall x :: v < x < |xs| ==> ys[x] == xs[x]
  }

  lemma HangSameAnswers(anc: seq<nat>, labels: seq<nat>, anc1: seq<nat>, labels1: seq<nat>, semi: seq<nat>, v: nat,
          r: nat)
    requires Forest(anc, labels, semi) && Forest(anc1, labels1, semi) && |anc1| == |anc|
    requires SameAnswers(anc, labels, anc1, labels1, semi)
    requires v < |anc| && 0 < r < v && anc1[r] == 0 && anc1[v] != 0
    ensures Forest(anc1[v := r], labels1[v := Best(anc1, labels1, semi, v)], semi)
    ensures SameAnswers(anc, labels, anc1[v := r], labels1[v := Best(anc1, labels1, semi, v)], semi)
  {
    forall w | 0 <= w < |anc|
      ensures Best(anc1[v := r], labels1[v := Best(anc1, labels1, semi, v)], semi, w) == Best(anc, labels, semi, w)
    {
      HangKeepsBest(anc1, labels1, semi, v, r, w);
    }
  }

  method Compress(v: nat, ancestors: array<nat>, labels: array<nat>, semi: seq<nat>)
    requires ancestors != labels
    requires Forest(ancestors[..], labels[..], semi) && v < ancestors.Length
    modifies ancestors, labels
    ensures Forest(ancestors[..], labels[..], semi)
    ensures SameAnswers(old(ancestors[..]), old(labels[..]), ancestors[..], labels[..], semi)
    ensures SameAbove(old(ancestors[..]), ancestors[..], v) && SameAbove(old(labels[..]), labels[..], v)
    ensures ancestors[ancestors[v]] == 0
    ensures labels[v] == Best(old(ancestors[..]), old(labels[..]), semi, v)
    decreases v
  {
    ghost var a0, l0 := ancestors[..], labels[..];
    if ancestors[ancestors[v]] != 0 {
      var p := ancestors[v];
      Compress(p, ancestors, labels, semi);
      ghost var a1, l1 := ancestors[..], labels[..];
      assert a1[v] == p && l1[v] == l0[v];
      assert a1[p] != 0 && a1[a1[p]] == 0;
      HangSameAnswers(a0, l0, a1, l1, semi, v, a1[p]);
      if semi[labels[p]] < semi[labels[v]] {
        labels[v] := labels[p];
      }
      ancestors[v] := ancestors[p];
      assert ancestors[..] == a1[v := a1[p]];
      assert labels[..] == l1[v := Best(a1, l1, semi, v)];
    }
  }

  method Eval(v: nat, ancestors: array<nat>, labels: array<nat>, semi: seq<nat>) returns (u: nat)
    requires ancestors != labels
    requires Forest(ancestors[..], labels[..], semi) && v < ancestors.Length
    modifies ancestors, labels
    ensures Forest(ancestors[..], labels[..], semi)
    ensures u == Answer(old(ancestors[..]), old(labels[..]), semi, v)
    ensures forall w :: 0 <= w < ancestors.Length ==>
      Answer(ancestors[..], labels[..], semi, w) == Answer(old(ancestors[..]), old(labels[..]), semi, w)
    ensures old(ancestors[v]) == 0 ==> ancestors[..] == old(ancestors[..]) && labels[..] == old(labels[..])
  {
    if ancestors[v] == 0 {
      return v;
    }
    Compress(v, ancestors, labels, semi);
    return labels[v];
  }
}
