// Candidate dominators from a depth-first numbering (semiDominators and
// iDominators, src/Function.cpp:470-580) and the dominator tree built from them
// (src/Analyses/DomTree.hpp).
module Dominators {
  import opened SeqUtil
  import opened Tree
  import opened ControlFlow
  import opened DepthFirstSearch
  import opened Compression

  // ---------------------------------------------------------------- candidate dominators

  // The first tree ancestor of u (u included) numbered below v.
  ghost function Climb(parents: seq<nat>, u: nat, v: nat): (c: nat)
    requires IsTree(parents) && u < |parents| && v > 0
    ensures c < v && c <= u
    decreases u
  {
    if u < v then u else Climb(parents, parents[u], v)
  }

  ghost predicate Known(g: Cfg, num: map<nat, nat>, v: nat) {
    v < |g.preds| && forall u :: u in g.preds[v] ==> u in num
  }

  // s is the smallest contribution of a listed predecessor of dfs[v], or v if none is listed.
  ghost predicate IsCandidate(g: Cfg, dfs: seq<nat>, parents: seq<nat>, num: map<nat, nat>, v: nat, s: nat)
    requires Numbering(g, dfs, parents, num) && 0 < v < |dfs| && Known(g, num, dfs[v])
  {
    && (forall u :: u in g.preds[dfs[v]] ==> s <= Climb(parents, num[u], v))
    && if g.preds[dfs[v]] == [] then s == v
       else exists u :: u in g.preds[dfs[v]] && s == Climb(parents, num[u], v)
  }

  ghost predicate Candidates(g: Cfg, dfs: seq<nat>, parents: seq<nat>, num: map<nat, nat>, semi: seq<nat>) {
    && Numbering(g, dfs, parents, num)
    && |semi| == |dfs| && semi[0] == 0
    && forall v :: 0 < v < |dfs| ==> Known(g, num, dfs[v]) && IsCandidate(g, dfs, parents, num, v, semi[v])
  }

  method ClimbBelow(parents: seq<nat>, u: nat, v: nat) returns (c: nat)
    requires IsTree(parents) && u < |parents| && v > 0
    ensures c == Climb(parents, u, v)
  {
    c := u;
    while c >= v
      invariant c < |parents|
      invariant Climb(parents, c, v) == Climb(parents, u, v)
      decreases c
    {
      c := parents[c];
    }
  }

  method Candidate(g: Cfg, dfs: seq<nat>, parents: seq<nat>, num: map<nat, nat>, semi: array<nat>, v: nat)
    requires Numbering(g, dfs, parents, num) && 0 < v < |dfs| == semi.Length && Known(g, num, dfs[v])
    requires forall i :: 0 <= i <= v ==> semi[i] == i
    modifies semi
    ensures forall i :: 0 <= i < semi.Length && i != v ==> semi[i] == old(semi[i])
    ensures IsCandidate(g, dfs, parents, num, v, semi[v])
  {
    var ps := g.preds[dfs[v]];
    for k := 0 to |ps|
      invariant forall i :: 0 <= i < semi.Length && i != v ==> semi[i] == old(semi[i])
      invariant semi[v] <= v
      invariant forall j :: 0 <= j < k ==> semi[v] <= Climb(parents, num[ps[j]], v)
      invariant if k == 0 then semi[v] == v else exists j :: 0 <= j < k && semi[v] == Climb(parents, num[ps[j]], v)
    {
      assert ps[k] in ps;
      var u := num[ps[k]];
      if u >= v {
        u := ClimbBelow(parents, u, v);
      }
      semi[v] := if semi[u] < semi[v] then semi[u] else semi[v];
    }
  }

  method SemiDominators(g: Cfg, dfs: seq<nat>, parents: seq<nat>, num: map<nat, nat>) returns (semi: seq<nat>)
    requires Numbering(g, dfs, parents, num)
    requires forall v :: 0 < v < |dfs| ==> Known(g, num, dfs[v])
    ensures Candidates(g, dfs, parents, num, semi)
  {
    var n := |dfs|;
    var s := new nat[n](i => i);
    var v := n - 1;
    while v > 0
      invariant 0 <= v < n
      invariant forall i :: 0 <= i <= v ==> s[i] == i
      invariant forall w :: v < w < n ==> IsCandidate(g, dfs, parents, num, w, s[w])
    {
      Candidate(g, dfs, parents, num, s, v);
      v := v - 1;
    }
    semi := s[..];
  }

  // A region with no listed predecessor becomes its own candidate; every other
  // one gets an earlier candidate.
  lemma CandidateBelow(g: Cfg, dfs: seq<nat>, parents: seq<nat>, num: map<nat, nat>, semi: seq<nat>, v: nat)
    requires Candidates(g, dfs, parents, num, semi) && 0 < v < |dfs|
    ensures semi[v] <= v
    ensures semi[v] == v <==> g.preds[dfs[v]] == []
  {
    assert IsCandidate(g, dfs, parents, num, v, semi[v]);
  }

  // In terms of the tree alone: a listed predecessor contributes the last of its tree
  // ancestors, itself included, that is numbered below v, and the candidate is the
  // smallest of these contributions.
  lemma CandidateIsLeast(g: Cfg, dfs: seq<nat>, parents: seq<nat>, num: map<nat, nat>, semi: seq<nat>, v: nat)
    requires Candidates(g, dfs, parents, num, semi) && 0 < v < |dfs| && g.preds[dfs[v]] != []
    ensures exists u :: u in g.preds[dfs[v]] && LastAncestorBelow(parents, semi[v], num[u], v)
    ensures forall u, c: nat :: u in g.preds[dfs[v]] && LastAncestorBelow(parents, c, num[u], v) ==> semi[v] <= c
  {
    assert IsCandidate(g, dfs, parents, num, v, semi[v]);
    forall u | u in g.preds[dfs[v]] ensures LastAncestorBelow(parents, Climb(parents, num[u], v), num[u], v) {
      ClimbIsLastBelow(parents, num[u], v);
    }
    forall u, c: nat | u in g.preds[dfs[v]] && LastAncestorBelow(parents, c, num[u], v) ensures semi[v] <= c {
      ClimbIsLastBelow(parents, num[u], v);
      AncLeq(parents, Climb(parents, num[u], v), c);
    }
  }

  ghost predicate LastAncestorBelow(parents: seq<nat>, c: nat, u: nat, v: nat)
    requires IsTree(parents) && u < |parents|
  {
    && c < v && c < |parents| && Anc(parents, c, u)
    && forall d: nat :: d < v && Anc(parents, d, u) ==> Anc(parents, d, c)
  }

  lemma ClimbIsLastBelow(parents: seq<nat>, u: nat, v: nat)
    requires IsTree(parents) && u < |parents| && v > 0
    ensures LastAncestorBelow(parents, Climb(parents, u, v), u, v)
  {
    ClimbIsAncestor(parents, u, v);
    forall d: nat | d < v && Anc(parents, d, u) ensures Climb(parents, u, v) < |parents| && Anc(parents, d, Climb(parents, u, v)) {
      ClimbIsLast(parents, d, u, v);
    }
  }

  // ---------------------------------------------------------------- immediate dominators

  function Bucket(bucket: map<nat, seq<nat>>, s: nat): seq<nat> {
    if s in bucket then bucket[s] else []
  }

  predicate InBucket(semi: seq<nat>, from: nat, s: nat, v: nat) {
    from < v < |semi| && semi[v] == s
  }

  // Bucket s holds exactly the vertices above `from` whose candidate is s.
  ghost predicate BucketsOf(semi: seq<nat>, bucket: map<nat, seq<nat>>, from: nat) {
    forall s: nat, v: nat :: v in Bucket(bucket, s) <==> InBucket(semi, from, s, v)
  }

  lemma BucketsAdd(semi: seq<nat>, bucket: map<nat, seq<nat>>, v: nat)
    requires 0 < v < |semi| && BucketsOf(semi, bucket, v)
    ensures BucketsOf(semi, bucket[semi[v] := Bucket(bucket, semi[v]) + [v]], v - 1)
  {
    var b' := bucket[semi[v] := Bucket(bucket, semi[v]) + [v]];
    forall s: nat, x: nat ensures x in Bucket(b', s) <==> InBucket(semi, v - 1, s, x) {
      assert x in Bucket(bucket, s) <==> InBucket(semi, v, s, x);
    }
  }

  lemma BucketBelow(semi: seq<nat>, bucket: map<nat, seq<nat>>, s: nat)
    requires BucketsOf(semi, bucket, 0)
    ensures Below(Bucket(bucket, s), |semi|)
  {
    var vs := Bucket(bucket, s);
    forall k | 0 <= k < |vs| ensures vs[k] < |semi| {
      assert vs[k] in vs;
      assert InBucket(semi, 0, s, vs[k]);
    }
  }

  method FillBuckets(semi: seq<nat>) returns (bucket: map<nat, seq<nat>>)
    requires semi != []
    ensures BucketsOf(semi, bucket, 0)
  {
    bucket := map[];
    var v := |semi| - 1;
    while v > 0
      invariant 0 <= v < |semi|
      invariant BucketsOf(semi, bucket, v)
    {
      BucketsAdd(semi, bucket, v);
      bucket := bucket[semi[v] := Bucket(bucket, semi[v]) + [v]];
      v := v - 1;
    }
  }

  ghost predicate Unlinked(ancestors: array<nat>, labels: array<nat>, n: nat)
    reads ancestors, labels
  {
    && ancestors != labels && ancestors.Length == labels.Length == n
    && (forall i :: 0 <= i < n ==> ancestors[i] == 0)
    && forall i :: 0 <= i < n ==> labels[i] == i
  }

  function Pick(semi: seq<nat>, u: nat, v: nat, w: nat): nat
    requires u < |semi| && v < |semi|
  {
    if semi[u] < semi[v] then u else w
  }

  method EvalUnlinked(v: nat, ancestors: array<nat>, labels: array<nat>, semi: seq<nat>) returns (u: nat)
    requires Unlinked(ancestors, labels, |semi|) && v < |semi|
    modifies ancestors, labels
    ensures Unlinked(ancestors, labels, |semi|) && u == v
  {
    ghost var a0, l0 := ancestors[..], labels[..];
    u := Eval(v, ancestors, labels, semi);
    assert forall i :: 0 <= i < |semi| ==> ancestors[..][i] == a0[i] && labels[..][i] == l0[i];
  }

  method AssignBucket(vs: seq<nat>, w: nat, semi: seq<nat>, ancestors: array<nat>, labels: array<nat>, idom: array<nat>)
    requires Unlinked(ancestors, labels, |semi|) && idom.Length == |semi|
    requires idom != ancestors && idom != labels
    requires Below(vs, |semi|)
    modifies ancestors, labels, idom
    ensures Unlinked(ancestors, labels, |semi|)
    ensures forall v :: 0 <= v < |semi| ==> idom[v] == if v in vs then w else old(idom[v])
  {
    for k := 0 to |vs|
      invariant Unlinked(ancestors, labels, |semi|)
      invariant forall v :: 0 <= v < |semi| ==> idom[v] == if v in vs[..k] then w else old(idom[v])
    {
      var v := vs[k];
      assert vs[..k + 1] == vs[..k] + [v];
      var u := EvalUnlinked(v, ancestors, labels, semi);
      idom[v] := Pick(semi, u, v, w);
    }
    assert vs[..|vs|] == vs;
  }

  method AdjustOne(semi: seq<nat>, idom: array<nat>, v: nat)
    requires idom.Length == |semi| && v < |semi| && idom[v] < |semi|
    modifies idom
    ensures forall i :: 0 <= i < |semi| && i != v ==> idom[i] == old(idom[i])
    ensures idom[v] == old(if idom[v] != semi[v] then idom[idom[v]] else idom[v])
  {
    if idom[v] != semi[v] {
      idom[v] := idom[idom[v]];
    }
  }

  // The ancestors are never linked, so each evaluation answers the vertex itself
  // and the result is the list of candidates, unchanged.
  method IDominators(semi: seq<nat>) returns (idom: seq<nat>)
    requires semi != [] && semi[0] == 0
    requires forall v :: 0 <= v < |semi| ==> semi[v] < |semi|
    ensures idom == semi
  {
    var n := |semi|;
    var res := new nat[n](_ => 0);
    var bucket := FillBuckets(semi);
    var ancestors := new nat[n](_ => 0);
    var labels := new nat[n](i => i);
    var w := n - 1;
    while w > 0
      invariant 0 <= w < n
      invariant Unlinked(ancestors, labels, n)
      invariant forall v :: 0 <= v < n ==> res[v] == if semi[v] > w then semi[v] else 0
    {
      var vs := Bucket(bucket, w);
      BucketBelow(semi, bucket, w);
      AssignBucket(vs, w, semi, ancestors, labels, res);
      w := w - 1;
    }
    var v := 1;
    while v < n
      invariant 1 <= v
      invariant forall i :: 0 <= i < n ==> res[i] == semi[i]
    {
      AdjustOne(semi, res, v);
      v := v + 1;
    }
    idom := res[..];
    assert forall i :: 0 <= i < n ==> idom[i] == semi[i];
  }

  // ---------------------------------------------------------------- every dominator is an ancestor

  // A dominator of v other than v dominates every predecessor of v.
  lemma DominatesPred(g: Cfg, d: nat, u: nat, v: nat)
    requires Dominates(g, d, v) && d != v && g.Edge(u, v)
    ensures Dominates(g, d, u)
  {
    forall p | PathBetween(g, p, g.start, u) ensures d in p {
      PathAppend(g, p, v);
      assert d in p + [v];
    }
  }

  // Tree edges down from c to u: the regions passed are numbered from c to u.
  lemma {:induction false} TreeDescent(g: Cfg, dfs: seq<nat>, parents: seq<nat>, num: map<nat, nat>, c: nat,
          u: nat) returns (p: seq<nat>)
    requires Numbering(g, dfs, parents, num) && c < |dfs| && u < |dfs| && Anc(parents, c, u)
    ensures PathBetween(g, p, dfs[c], dfs[u])
    ensures forall x :: x in p ==> x in num && c <= num[x] <= u
    decreases u
  {
    if c == u {
      p := [dfs[c]];
    } else {
      var q := TreeDescent(g, dfs, parents, num, c, parents[u]);
      PathAppend(g, q, dfs[u]);
      AncLeq(parents, c, u);
      p := q + [dfs[u]];
    }
  }

  // What dominates u and has a number below v also dominates the first tree
  // ancestor of u below v.
  lemma DominatesClimb(g: Cfg, dfs: seq<nat>, parents: seq<nat>, num: map<nat, nat>, d: nat, u: nat, v: nat)
    requires Numbering(g, dfs, parents, num) && u < |dfs| && 0 < v && d < v && d < |dfs|
    requires Dominates(g, dfs[d], dfs[u])
    ensures Dominates(g, dfs[d], dfs[Climb(parents, u, v)])
  {
    var c := Climb(parents, u, v);
    ClimbIsAncestor(parents, u, v);
    var down := TreeDescent(g, dfs, parents, num, 0, u);
    assert dfs[d] in down;
    var below := TreeDescent(g, dfs, parents, num, c, u);
    forall p | PathBetween(g, p, g.start, dfs[c]) ensures dfs[d] in p {
      PathJoin(g, p, below);
      assert dfs[d] in p + below[1..];
      if dfs[d] !in p {
        assert dfs[d] in below;
        DominatorIsTreeAncestor(g, dfs, parents, num, d, u);
        ClimbIsLast(parents, d, u, v);
        AncLeq(parents, d, c);
      }
    }
  }

  lemma {:induction false} ClimbIsAncestor(parents: seq<nat>, u: nat, v: nat)
    requires IsTree(parents) && u < |parents| && v > 0
    ensures Climb(parents, u, v) < |parents| && Anc(parents, Climb(parents, u, v), u) && Anc(parents, 0, u)
    decreases u
  {
    RootAnc(parents, u);
    if u >= v {
      ClimbIsAncestor(parents, parents[u], v);
    }
  }

  lemma {:induction false} ClimbIsLast(parents: seq<nat>, d: nat, u: nat, v: nat)
    requires IsTree(parents) && u < |parents| && d < v && Anc(parents, d, u)
    ensures Climb(parents, u, v) < |parents| && Anc(parents, d, Climb(parents, u, v))
    decreases u
  {
    if u >= v {
      ClimbIsLast(parents, d, parents[u], v);
    }
  }

  lemma {:induction false} DominatorIsTreeAncestor(g: Cfg, dfs: seq<nat>, parents: seq<nat>, num: map<nat, nat>,
          d: nat, u: nat)
    requires Numbering(g, dfs, parents, num) && u < |dfs| && d < |dfs| && Dominates(g, dfs[d], dfs[u])
    ensures Anc(parents, d, u)
    decreases u
  {
    if u == 0 {
      assert PathBetween(g, [g.start], g.start, g.start);
      assert dfs[d] in [g.start];
      assert num[dfs[d]] == d && num[dfs[0]] == 0;
    } else if d != u {
      assert dfs[d] != dfs[u] by {
        assert num[dfs[d]] == d && num[dfs[u]] == u;
      }
      DominatesPred(g, dfs[d], dfs[parents[u]], dfs[u]);
      DominatorIsTreeAncestor(g, dfs, parents, num, d, parents[u]);
    }
  }

  // A strict dominator of a region that lists a predecessor dominates its candidate.
  lemma DominatesCandidate(g: Cfg, dfs: seq<nat>, parents: seq<nat>, num: map<nat, nat>, semi: seq<nat>, d: nat, v: nat)
    requires g.Wf() && Candidates(g, dfs, parents, num, semi) && 0 < v < |dfs| && d < |dfs| && d != v
    requires g.Anchored(dfs[v]) && Dominates(g, dfs[d], dfs[v])
    ensures semi[v] < v && Dominates(g, dfs[d], dfs[semi[v]])
  {
    assert num[dfs[d]] == d && num[dfs[v]] == v;
    DominatorIsTreeAncestor(g, dfs, parents, num, d, v);
    AncLeq(parents, d, v);
    assert IsCandidate(g, dfs, parents, num, v, semi[v]);
    assert num[dfs[0]] == 0;
    var u :| u in g.preds[dfs[v]] && semi[v] == Climb(parents, num[u], v);
    DominatesPred(g, dfs[d], u, dfs[v]);
    DominatesClimb(g, dfs, parents, num, d, num[u], v);
  }

  lemma CandidatesFormForest(g: Cfg, dfs: seq<nat>, parents: seq<nat>, num: map<nat, nat>, semi: seq<nat>)
    requires g.Wf() && Candidates(g, dfs, parents, num, semi)
    ensures IsForest(semi) && |semi| == |dfs|
    ensures forall v: nat :: v < |semi| ==> (Rooted(semi, v) <==> g.Anchored(dfs[v]))
    ensures forall v: nat :: v < |semi| && !g.Anchored(dfs[v]) ==> semi[v] == v
  {
    forall v | 0 < v < |semi| ensures semi[v] <= v {
      CandidateBelow(g, dfs, parents, num, semi, v);
    }
    forall v: nat | v < |semi| ensures Rooted(semi, v) <==> g.Anchored(dfs[v]) {
      AnchoredIsRooted(g, dfs, parents, num, semi, v);
    }
  }

  // The candidates of regions that list a predecessor lead up to the start; a region that
  // lists none is a root of its own.
  lemma {:induction false} AnchoredIsRooted(g: Cfg, dfs: seq<nat>, parents: seq<nat>, num: map<nat, nat>,
          semi: seq<nat>, v: nat)
    requires g.Wf() && Candidates(g, dfs, parents, num, semi) && IsForest(semi) && v < |semi|
    ensures Rooted(semi, v) <==> g.Anchored(dfs[v])
    decreases v
  {
    if v > 0 {
      CandidateBelow(g, dfs, parents, num, semi, v);
      assert num[dfs[0]] == 0 && num[dfs[v]] == v;
      if g.Anchored(dfs[v]) {
        assert IsCandidate(g, dfs, parents, num, v, semi[v]);
        var u :| u in g.preds[dfs[v]] && semi[v] == Climb(parents, num[u], v);
        ClimbAnchored(g, dfs, parents, num, num[u], v, dfs[v]);
        AnchoredIsRooted(g, dfs, parents, num, semi, semi[v]);
      }
    }
  }

  // A numbered region with a successor lists its parent.
  lemma NumberAnchored(g: Cfg, dfs: seq<nat>, parents: seq<nat>, num: map<nat, nat>, u: nat, x: nat)
    requires g.Wf() && Numbering(g, dfs, parents, num) && u < |dfs| && g.Edge(dfs[u], x)
    ensures g.Anchored(dfs[u])
  {
    SourceListed(g, dfs[u], x);
    if u > 0 {
      assert g.Edge(dfs[parents[u]], dfs[u]);
    }
  }

  lemma {:induction false} ClimbAnchored(g: Cfg, dfs: seq<nat>, parents: seq<nat>, num: map<nat, nat>, u: nat, v: nat,
          x: nat)
    requires g.Wf() && Numbering(g, dfs, parents, num) && u < |dfs| && v > 0 && g.Edge(dfs[u], x)
    ensures Climb(parents, u, v) < |dfs| && g.Anchored(dfs[Climb(parents, u, v)])
    decreases u
  {
    if u < v {
      NumberAnchored(g, dfs, parents, num, u, x);
    } else {
      ClimbAnchored(g, dfs, parents, num, parents[u], v, dfs[u]);
    }
  }

  // Completeness: whatever lies on every path to v is above v in the tree.
  lemma {:induction false} Completeness(g: Cfg, dfs: seq<nat>, parents: seq<nat>, num: map<nat, nat>,
          semi: seq<nat>, d: nat, v: nat)
    requires g.Wf() && Candidates(g, dfs, parents, num, semi) && IsForest(semi) && d < |dfs| && v < |dfs|
    requires Rooted(semi, v) && Dominates(g, dfs[d], dfs[v])
    ensures Anc(semi, d, v)
    decreases v
  {
    if v == 0 {
      DominatorIsTreeAncestor(g, dfs, parents, num, d, v);
    } else if d != v {
      AnchoredIsRooted(g, dfs, parents, num, semi, v);
      DominatesCandidate(g, dfs, parents, num, semi, d, v);
      Completeness(g, dfs, parents, num, semi, d, semi[v]);
    }
  }

  // ---------------------------------------------------------------- when the tree is exact

  // The comparisons below are about the regions hanging below the start: the start and
  // the regions that list a predecessor.

  // Local test: the tree parent of v is above every predecessor of v.
  ghost predicate ParentProperty(g: Cfg, dfs: seq<nat>, num: map<nat, nat>, t: seq<nat>)
    requires IsForest(t) && |t| == |dfs|
  {
    forall u, v: nat :: 1 <= v < |t| && Rooted(t, v) && u in num && num[u] < |t| && g.Edge(u, dfs[v]) ==>
      Anc(t, t[v], num[u])
  }

  ghost predicate Exact(g: Cfg, dfs: seq<nat>, t: seq<nat>)
    requires IsForest(t) && |t| == |dfs|
  {
    forall d: nat, v: nat :: d < |t| && v < |t| && Rooted(t, v) ==> (Anc(t, d, v) <==> Dominates(g, dfs[d], dfs[v]))
  }

  ghost predicate ParentsDominate(g: Cfg, dfs: seq<nat>, t: seq<nat>)
    requires IsForest(t) && |t| == |dfs|
  {
    forall v: nat :: 1 <= v < |t| && Rooted(t, v) ==> Dominates(g, dfs[t[v]], dfs[v])
  }

  // Under the local test every tree ancestor of the end of a path is on the path.
  lemma {:induction false} AncestorsOnPath(g: Cfg, dfs: seq<nat>, parents: seq<nat>, num: map<nat, nat>,
          t: seq<nat>, a: nat, p: seq<nat>)
    requires Numbering(g, dfs, parents, num) && IsForest(t) && |t| == |dfs| && ParentProperty(g, dfs, num, t)
    requires IsPath(g, p) && p[0] == g.start && (forall x :: Reachable(g, x) ==> x in num)
    requires p[|p| - 1] in num && Rooted(t, num[p[|p| - 1]]) && Anc(t, a, num[p[|p| - 1]])
    ensures a < |dfs| && dfs[a] in p
    decreases |p|
  {
    var v := num[p[|p| - 1]];
    assert dfs[v] == p[|p| - 1];
    AncLeq(t, a, v);
    if |p| == 1 {
      assert num[dfs[0]] == 0;
    } else if a != v {
      var k := |p| - 2;
      PathPrefix(g, p, k);
      assert PathBetween(g, p[..k + 1], g.start, p[k]);
      assert g.Edge(p[k], p[k + 1]);
      var u := num[p[k]];
      AncTrans(t, a, t[v], u);
      AncTrans(t, 0, t[v], u);
      AncestorsOnPath(g, dfs, parents, num, t, a, p[..k + 1]);
    }
  }

  // The tree equals true dominance exactly when each parent dominates its child,
  // and exactly when the local test succeeds.
  lemma Exactness(g: Cfg, dfs: seq<nat>, parents: seq<nat>, num: map<nat, nat>, t: seq<nat>)
    requires g.Wf() && Candidates(g, dfs, parents, num, t) && IsForest(t)
    requires forall x :: Reachable(g, x) ==> x in num
    ensures Exact(g, dfs, t) <==> ParentsDominate(g, dfs, t)
    ensures Exact(g, dfs, t) <==> ParentProperty(g, dfs, num, t)
  {
    if ParentsDominate(g, dfs, t) {
      ParentsDominateImpliesProperty(g, dfs, parents, num, t);
    }
    if ParentProperty(g, dfs, num, t) {
      forall d: nat, v: nat | d < |t| && v < |t| && Rooted(t, v)
        ensures Anc(t, d, v) <==> Dominates(g, dfs[d], dfs[v])
      {
        if Anc(t, d, v) {
          forall p | PathBetween(g, p, g.start, dfs[v]) ensures dfs[d] in p {
            AncestorsOnPath(g, dfs, parents, num, t, d, p);
          }
        }
        if Dominates(g, dfs[d], dfs[v]) {
          Completeness(g, dfs, parents, num, t, d, v);
        }
      }
    }
    if Exact(g, dfs, t) {
      forall v: nat | 1 <= v < |t| && Rooted(t, v) ensures Dominates(g, dfs[t[v]], dfs[v]) {
        assert Anc(t, t[v], t[v]);
        assert Anc(t, t[v], v);
      }
    }
  }

  lemma ParentsDominateImpliesProperty(g: Cfg, dfs: seq<nat>, parents: seq<nat>, num: map<nat, nat>, t: seq<nat>)
    requires g.Wf() && Candidates(g, dfs, parents, num, t) && IsForest(t) && ParentsDominate(g, dfs, t)
    ensures ParentProperty(g, dfs, num, t)
  {
    forall u, v: nat | 1 <= v < |t| && Rooted(t, v) && u in num && num[u] < |t| && g.Edge(u, dfs[v])
      ensures Anc(t, t[v], num[u])
    {
      assert num[dfs[t[v]]] == t[v] && num[dfs[v]] == v;
      DominatesPred(g, dfs[t[v]], u, dfs[v]);
      NumberAnchored(g, dfs, parents, num, num[u], dfs[v]);
      AnchoredIsRooted(g, dfs, parents, num, t, num[u]);
      Completeness(g, dfs, parents, num, t, t[v], num[u]);
    }
  }

  // ---------------------------------------------------------------- exactness, read off the search

  // p leaves a region numbered below c for one numbered above c and ends at v
  // without touching a number up to c again.
  ghost predicate Bypass(g: Cfg, num: map<nat, nat>, c: nat, v: nat, p: seq<nat>) {
    && |p| >= 2 && PathBetween(g, p, p[0], v)
    && p[0] in num && num[p[0]] < c
    && forall i :: 1 <= i < |p| ==> p[i] in num && num[p[i]] > c
  }

  // A smaller number is on every path exactly when no path passes it by.
  lemma DominatesUnlessBypassed(g: Cfg, dfs: seq<nat>, parents: seq<nat>, num: map<nat, nat>, c: nat, v: nat)
    requires Numbering(g, dfs, parents, num) && c < v < |dfs| && forall x :: Reachable(g, x) ==> x in num
    ensures Dominates(g, dfs[c], dfs[v]) <==> !exists p :: Bypass(g, num, c, dfs[v], p)
  {
    if p :| Bypass(g, num, c, dfs[v], p) {
      BypassAvoids(g, dfs, parents, num, c, v, p);
    }
    if q :| PathBetween(g, q, g.start, dfs[v]) && dfs[c] !in q {
      var p := LastBelow(g, dfs, parents, num, c, v, q);
    }
  }

  lemma BypassAvoids(g: Cfg, dfs: seq<nat>, parents: seq<nat>, num: map<nat, nat>, c: nat, v: nat, p: seq<nat>)
    requires Numbering(g, dfs, parents, num) && c < v < |dfs| && Bypass(g, num, c, dfs[v], p)
    ensures !Dominates(g, dfs[c], dfs[v])
  {
    RootAnc(parents, num[p[0]]);
    var q := TreeDescent(g, dfs, parents, num, 0, num[p[0]]);
    PathJoin(g, q, p);
    assert forall x :: x in q + p[1..] ==> x in num && num[x] != c;
    assert dfs[c] in num && num[dfs[c]] == c;
    assert dfs[c] !in q + p[1..];
  }

  lemma LastBelow(g: Cfg, dfs: seq<nat>, parents: seq<nat>, num: map<nat, nat>, c: nat, v: nat, q: seq<nat>)
    returns (p: seq<nat>)
    requires Numbering(g, dfs, parents, num) && c < v < |dfs| && forall x :: Reachable(g, x) ==> x in num
    requires PathBetween(g, q, g.start, dfs[v]) && dfs[c] !in q
    ensures Bypass(g, num, c, dfs[v], p)
  {
    forall i | 0 <= i < |q| ensures q[i] in num && num[q[i]] != c {
      PathPrefix(g, q, i);
      assert PathBetween(g, q[..i + 1], g.start, q[i]);
      assert dfs[num[q[i]]] == q[i];
    }
    var j: nat := |q| - 1;
    while num[q[j]] > c
      invariant j < |q|
      invariant forall i :: j < i < |q| ==> num[q[i]] > c
      decreases j
    {
      assert num[dfs[0]] == 0;
      j := j - 1;
    }
    PathSuffix(g, q, j);
    p := q[j..];
  }

  // Whether v is passed by: c is the candidate that semiDominators will compute for v.
  ghost predicate PassedBy(g: Cfg, dfs: seq<nat>, parents: seq<nat>, num: map<nat, nat>, v: nat) {
    && Numbering(g, dfs, parents, num) && 0 < v < |dfs| && Known(g, num, dfs[v]) && g.Anchored(dfs[v])
    && exists c: nat, p ::
      IsCandidate(g, dfs, parents, num, v, c) && Bypass(g, num, c, dfs[v], p)
  }

  lemma CandidateUnique(g: Cfg, dfs: seq<nat>, parents: seq<nat>, num: map<nat, nat>, v: nat, c: nat, c': nat)
    requires Numbering(g, dfs, parents, num) && 0 < v < |dfs| && Known(g, num, dfs[v])
    requires IsCandidate(g, dfs, parents, num, v, c) && IsCandidate(g, dfs, parents, num, v, c')
    ensures c == c'
  {
  }

  // The tree is exact if and only if the search leaves no such region that is passed by.
  lemma ExactUnlessPassedBy(g: Cfg, dfs: seq<nat>, parents: seq<nat>, num: map<nat, nat>, t: seq<nat>)
    requires g.Wf() && Candidates(g, dfs, parents, num, t) && IsForest(t)
    requires forall x :: Reachable(g, x) ==> x in num
    ensures Exact(g, dfs, t) <==> !exists v: nat :: PassedBy(g, dfs, parents, num, v)
  {
    Exactness(g, dfs, parents, num, t);
    forall v: nat | 1 <= v < |t| && Rooted(t, v)
      ensures Dominates(g, dfs[t[v]], dfs[v]) <==> !PassedBy(g, dfs, parents, num, v)
    {
      ParentUnlessPassedBy(g, dfs, parents, num, t, v);
    }
    forall v: nat | PassedBy(g, dfs, parents, num, v) ensures v < |t| && Rooted(t, v) {
      AnchoredIsRooted(g, dfs, parents, num, t, v);
    }
  }

  lemma ParentUnlessPassedBy(g: Cfg, dfs: seq<nat>, parents: seq<nat>, num: map<nat, nat>, t: seq<nat>, v: nat)
    requires g.Wf() && Candidates(g, dfs, parents, num, t) && IsForest(t) && 1 <= v < |t| && Rooted(t, v)
    requires forall x :: Reachable(g, x) ==> x in num
    ensures Dominates(g, dfs[t[v]], dfs[v]) <==> !PassedBy(g, dfs, parents, num, v)
  {
    AnchoredIsRooted(g, dfs, parents, num, t, v);
    assert IsCandidate(g, dfs, parents, num, v, t[v]);
    DominatesUnlessBypassed(g, dfs, parents, num, t[v], v);
    forall c: nat | IsCandidate(g, dfs, parents, num, v, c) ensures c == t[v] {
      CandidateUnique(g, dfs, parents, num, v, c, t[v]);
    }
  }

  // R = 0, a = 1, v = 2, u = 3 with edges R-a, R-u, a-v, a-u, u-v.
  const EXAMPLE := Cfg(0, [[3, 1], [3, 2], [], [2]], [[], [0], [1, 3], [0, 1]])
  const EXAMPLE_DFS: seq<nat> := [0, 1, 2, 3]
  const EXAMPLE_PARENTS: seq<nat> := [0, 0, 1, 1]
  const EXAMPLE_NUM: map<nat, nat> := map[0 := 0, 1 := 1, 2 := 2, 3 := 3]
  const EXAMPLE_IDOM: seq<nat> := [0, 0, 1, 0]

  lemma ExampleWf()
    ensures EXAMPLE.Wf()
  {
    var g := EXAMPLE;
    assert g.succs == [[3, 1], [3, 2], [], [2]] && g.preds == [[], [0], [1, 3], [0, 1]];
    forall u: nat, v: nat | v < 4 ensures u in g.preds[v] <==> g.Edge(u, v) {
      ExampleEdges(u, v);
    }
    hide Cfg.Edge;
  }

  lemma ExampleEdges(u: nat, v: nat)
    requires v < 4
    ensures u in EXAMPLE.preds[v] <==> EXAMPLE.Edge(u, v)
  {
    assert EXAMPLE.preds[v] == if v == 0 then [] else if v == 1 then [0] else if v == 2 then [1, 3] else [0, 1];
    if u < 4 {
      assert EXAMPLE.succs[u] == if u == 0 then [3, 1] else if u == 1 then [3, 2] else if u == 2 then [] else [2];
    }
  }

  lemma ExampleNumbering()
    ensures Numbering(EXAMPLE, EXAMPLE_DFS, EXAMPLE_PARENTS, EXAMPLE_NUM)
  {
    var g := EXAMPLE;
    assert g.succs[0] == [3, 1] && g.succs[1] == [3, 2];
    assert 1 in g.succs[0] && 2 in g.succs[1] && 3 in g.succs[1];
  }

  lemma ExampleCandidates()
    ensures Candidates(EXAMPLE, EXAMPLE_DFS, EXAMPLE_PARENTS, EXAMPLE_NUM, EXAMPLE_IDOM)
  {
    ExampleNumbering();
    hide Numbering;
    var g := EXAMPLE;
    assert g.preds[1] == [0] && g.preds[2] == [1, 3] && g.preds[3] == [0, 1];
    assert Climb(EXAMPLE_PARENTS, 3, 2) == Climb(EXAMPLE_PARENTS, 1, 2) == 1;
    assert 0 in g.preds[1] && 1 in g.preds[2] && 0 in g.preds[3];
  }

  const E1 := St([(0, 0), (0, 3), (0, 1)], [0], [0], map[0 := 0], [], [0], [0])
  const E2 := St([(0, 0), (0, 3), (0, 1), (1, 3), (1, 2)], [0, 1], [0, 0], map[0 := 0, 1 := 1], [], [0, 1], [0, 2])
  const E3 := St([(0, 0), (0, 3), (0, 1), (1, 3), (1, 2)], [0, 1, 2], [0, 0, 1], map[0 := 0, 1 := 1, 2 := 2], [],
    [0, 1, 2], [0, 2, 4])
  const E4 := St([(0, 0), (0, 3), (0, 1), (1, 3)], [0, 1, 2], [0, 0, 1], map[0 := 0, 1 := 1, 2 := 2], [2],
    [0, 1], [0, 2])
  const E5 := St([(0, 0), (0, 3), (0, 1), (1, 3)], EXAMPLE_DFS, EXAMPLE_PARENTS, EXAMPLE_NUM, [2], [0, 1, 3], [0, 2, 3])
  const E6 := St([(0, 0), (0, 3), (0, 1)], EXAMPLE_DFS, EXAMPLE_PARENTS, EXAMPLE_NUM, [2, 3], [0, 1], [0, 2])
  const E7 := St([(0, 0), (0, 3)], EXAMPLE_DFS, EXAMPLE_PARENTS, EXAMPLE_NUM, [2, 3, 1], [0], [0])
  const E8 := St([(0, 0)], EXAMPLE_DFS, EXAMPLE_PARENTS, EXAMPLE_NUM, [2, 3, 1, 3], [0], [0])
  const E9 := St([], EXAMPLE_DFS, EXAMPLE_PARENTS, EXAMPLE_NUM, [2, 3, 1, 3, 0], [], [])

  lemma ExamplePushes()
    ensures Pushes(0, [3, 1], map[0 := 0]) == [(0, 3), (0, 1)]
    ensures Pushes(1, [3, 2], map[0 := 0, 1 := 1]) == [(1, 3), (1, 2)]
    ensures Pushes(2, [], map[0 := 0, 1 := 1, 2 := 2]) == []
    ensures Pushes(3, [2], EXAMPLE_NUM) == []
  {
    assert [3, 1][..1] == [3] == [3, 2][..1] && [3][..0] == [] == [2][..0];
    assert Pushes(0, [3], map[0 := 0]) == [(0, 3)];
    assert Pushes(1, [3], map[0 := 0, 1 := 1]) == [(1, 3)];
  }

  lemma ExampleVisits()
    ensures Step(EXAMPLE, Initial(EXAMPLE)) == E1 && Step(EXAMPLE, E1) == E2
    ensures Step(EXAMPLE, E2) == E3 && Step(EXAMPLE, E4) == E5
  {
    ExamplePushes();
    hide Pushes;
    assert EXAMPLE.succs[0] == [3, 1] && EXAMPLE.succs[1] == [3, 2];
    assert EXAMPLE.succs[2] == [] && EXAMPLE.succs[3] == [2];
  }

  lemma ExampleCloses()
    ensures Step(EXAMPLE, E3) == E4 && Step(EXAMPLE, E5) == E6 && Step(EXAMPLE, E6) == E7
    ensures Step(EXAMPLE, E7) == E8 && Step(EXAMPLE, E8) == E9
  {
    hide Visit;
  }

  // The search numbers the regions R, a, v, u.
  lemma ExampleSearch()
    ensures SearchYields(EXAMPLE, EXAMPLE_DFS, EXAMPLE_PARENTS, EXAMPLE_NUM, [2, 3, 1, 3, 0])
  {
    hide Step;
    ExampleVisits();
    ExampleCloses();
    var g := EXAMPLE;
    assert Steps(g, 0) == Initial(g) && Steps(g, 1) == E1 && Steps(g, 2) == E2 && Steps(g, 3) == E3;
    assert Steps(g, 4) == E4 && Steps(g, 5) == E5 && Steps(g, 6) == E6;
    assert Steps(g, 7) == E7 && Steps(g, 8) == E8 && Steps(g, 9) == E9;
    assert StopsWith(g, 9, EXAMPLE_DFS, EXAMPLE_PARENTS, EXAMPLE_NUM, [2, 3, 1, 3, 0]);
  }

  // Visited in that order the tree puts a above v, yet R-u-v passes a by.
  lemma InexactExample()
    ensures EXAMPLE.Wf()
    ensures Candidates(EXAMPLE, EXAMPLE_DFS, EXAMPLE_PARENTS, EXAMPLE_NUM, EXAMPLE_IDOM) && IsForest(EXAMPLE_IDOM)
    ensures DepthFirst(EXAMPLE, EXAMPLE_DFS, EXAMPLE_PARENTS)
    ensures Bypass(EXAMPLE, EXAMPLE_NUM, 1, 2, [0, 3, 2])
    ensures Anc(EXAMPLE_IDOM, 1, 2) && Rooted(EXAMPLE_IDOM, 2) && !Dominates(EXAMPLE, 1, 2)
    ensures !Exact(EXAMPLE, EXAMPLE_DFS, EXAMPLE_IDOM)
  {
    ExampleWf();
    ExampleCandidates();
    hide Candidates, Cfg.Wf;
    assert EXAMPLE.succs[0] == [3, 1] && EXAMPLE.succs[3] == [2];
    assert 3 in EXAMPLE.succs[0] && 2 in EXAMPLE.succs[3];
    assert PathBetween(EXAMPLE, [0, 3, 2], 0, 2);
    assert Anc(EXAMPLE_PARENTS, 0, 1) && Anc(EXAMPLE_IDOM, 0, 1);
  }

  // The start region returns: its edge into the end region is not listed there.
  const RETURNS := Cfg(0, [[1], []], [[], []])

  const R1 := St([(0, 0), (0, 1)], [0], [0], map[0 := 0], [], [0], [0])
  const R2 := St([(0, 0), (0, 1)], [0, 1], [0, 0], map[0 := 0, 1 := 1], [], [0, 1], [0, 1])
  const R3 := St([(0, 0)], [0, 1], [0, 0], map[0 := 0, 1 := 1], [1], [0], [0])
  const R4 := St([], [0, 1], [0, 0], map[0 := 0, 1 := 1], [1, 0], [], [])

  lemma ReturnSteps()
    ensures Step(RETURNS, Initial(RETURNS)) == R1 && Step(RETURNS, R1) == R2
    ensures Step(RETURNS, R2) == R3 && Step(RETURNS, R3) == R4
  {
    assert [1][..0] == [];
    assert Pushes(0, [1], map[0 := 0]) == [(0, 1)] && Pushes(1, [], map[0 := 0, 1 := 1]) == [];
    hide Pushes;
    assert RETURNS.succs[0] == [1] && RETURNS.succs[1] == [];
  }

  lemma ReturnSearch()
    ensures SearchYields(RETURNS, [0, 1], [0, 0], map[0 := 0, 1 := 1], [1, 0])
  {
    hide Step;
    ReturnSteps();
    var g := RETURNS;
    assert Steps(g, 0) == Initial(g) && Steps(g, 1) == R1 && Steps(g, 2) == R2 && Steps(g, 3) == R3 && Steps(g, 4) == R4;
    assert StopsWith(g, 4, [0, 1], [0, 0], map[0 := 0, 1 := 1], [1, 0]);
  }

  // On what the search yields the end region becomes a root of its own, although the
  // start dominates it, and the climb from it never reaches the start.
  lemma ReturnExample(dfs: seq<nat>, parents: seq<nat>, num: map<nat, nat>, rpo: seq<nat>, semi: seq<nat>)
    requires SearchYields(RETURNS, dfs, parents, num, rpo) && Candidates(RETURNS, dfs, parents, num, semi)
    ensures RETURNS.Wf() && RETURNS.Edge(0, 1) && !RETURNS.Anchored(1) && Dominates(RETURNS, 0, 1)
    ensures IsForest(semi) && num == map[0 := 0, 1 := 1] && |semi| == 2 && !(exists k: nat :: Up(semi, 1, k) == 0)
  {
    var g := RETURNS;
    ReturnSearch();
    OneOutcome(g, [0, 1], [0, 0], map[0 := 0, 1 := 1], [1, 0], dfs, parents, num, rpo);
    hide SearchYields;
    assert g.succs[0] == [1] && 1 in g.succs[0] && g.preds[1] == [];
    assert g.Edge(0, 1) && g.Listed(0);
    forall p | PathBetween(g, p, g.start, 1) ensures 0 in p {
      assert p[0] == 0;
    }
    CandidatesFormForest(g, [0, 1], [0, 0], map[0 := 0, 1 := 1], semi);
    ClimbStops(semi, 0, 1);
  }

  // ---------------------------------------------------------------- what the computed tree is

  lemma NumbersAll(g: Cfg, dfs: seq<nat>, parents: seq<nat>, num: map<nat, nat>)
    requires g.Wf() && AllReachable(g) && Numbering(g, dfs, parents, num)
    requires forall v :: v in num <==> Reachable(g, v)
    ensures forall v :: 0 < v < |dfs| ==> Known(g, num, dfs[v])
    ensures forall v: nat :: v in num <==> v < |g.succs|
  {
    forall v, u | 0 < v < |dfs| && u in g.preds[dfs[v]] ensures u in num {
      assert g.Edge(u, dfs[v]);
    }
  }

  // Exactness on numbers and on regions is the same thing.
  lemma ExactTransfers(g: Cfg, dfs: seq<nat>, num: map<nat, nat>, t: seq<nat>)
    requires IsForest(t) && |t| == |dfs|
    requires forall v: nat :: v < |t| ==> (Rooted(t, v) <==> g.Anchored(dfs[v]))
    requires forall v :: v in num ==> num[v] < |t| && dfs[num[v]] == v
    requires forall i :: 0 <= i < |dfs| ==> dfs[i] in num && num[dfs[i]] == i
    ensures Exact(g, dfs, t) <==> ExactNodes(g, num, t)
  {
    if ExactNodes(g, num, t) {
      forall d: nat, v: nat | d < |t| && v < |t| && Rooted(t, v) ensures Anc(t, d, v) <==> Dominates(g, dfs[d], dfs[v]) {
        assert dfs[d] in num && dfs[v] in num;
      }
    }
  }

  ghost predicate ExactNodes(g: Cfg, num: map<nat, nat>, t: seq<nat>)
    requires IsForest(t) && forall v :: v in num ==> num[v] < |t|
  {
    forall a, b :: a in num && b in num && g.Anchored(b) ==> (Anc(t, num[a], num[b]) <==> Dominates(g, a, b))
  }

  // The regions hanging below the start are the ones that list a predecessor and the
  // others are roots of their own; what dominates one of the former is above it; and the
  // tree is exact when parents dominate and when the local test succeeds.
  ghost predicate TreeFor(g: Cfg, dfs: seq<nat>, num: map<nat, nat>, t: seq<nat>)
    requires IsForest(t) && |t| == |dfs| && (forall v :: v in num ==> num[v] < |t|)
  {
    && (forall v: nat :: v in num <==> v < |g.succs|)
    && (forall v :: v in num ==> (Rooted(t, num[v]) <==> g.Anchored(v)))
    && (forall v :: v in num && !g.Anchored(v) ==> t[num[v]] == num[v])
    && (forall a, b :: a in num && b in num && g.Anchored(b) && Dominates(g, a, b) ==> Anc(t, num[a], num[b]))
    && (ExactNodes(g, num, t) <==> ParentProperty(g, dfs, num, t))
    && (ExactNodes(g, num, t) <==> ParentsDominate(g, dfs, t))
  }

  lemma CandidatesTreeFor(g: Cfg, dfs: seq<nat>, parents: seq<nat>, num: map<nat, nat>, semi: seq<nat>)
    requires g.Wf() && AllReachable(g) && Candidates(g, dfs, parents, num, semi) && IsForest(semi)
    requires forall v :: v in num <==> Reachable(g, v)
    requires forall v: nat :: v in num <==> v < |g.succs|
    ensures TreeFor(g, dfs, num, semi)
    ensures ExactNodes(g, num, semi) <==> !exists v: nat :: PassedBy(g, dfs, parents, num, v)
  {
    hide Exact, ExactNodes, ParentProperty, ParentsDominate, PassedBy, IsCandidate, Rooted, Anc, Dominates;
    CandidatesFormForest(g, dfs, parents, num, semi);
    forall a, b | a in num && b in num && g.Anchored(b) && Dominates(g, a, b) ensures Anc(semi, num[a], num[b]) {
      Completeness(g, dfs, parents, num, semi, num[a], num[b]);
    }
    Exactness(g, dfs, parents, num, semi);
    ExactUnlessPassedBy(g, dfs, parents, num, semi);
    ExactTransfers(g, dfs, num, semi);
  }

  // What `dominates` answers: the ancestor relation of the tree, on region numbers.
  datatype Dom = Dom(num: map<nat, nat>, tree: seq<nat>) {
    ghost predicate Above(a: nat, b: nat) {
      IsForest(tree) && a in num && b in num && num[b] < |tree| && Anc(tree, num[a], num[b])
    }
  }

  lemma AboveTrans(dom: Dom, a: nat, b: nat, c: nat)
    requires dom.Above(a, b) && dom.Above(b, c)
    ensures dom.Above(a, c)
  {
    AncTrans(dom.tree, dom.num[a], dom.num[b], dom.num[c]);
  }

  // dom is computed for g, and rpo is the list of the search.
  ghost predicate Built(g: Cfg, dom: Dom, rpo: seq<nat>) {
    exists dfs, parents :: BuiltFrom(g, dfs, parents, dom, rpo)
  }

  ghost predicate BuiltFrom(g: Cfg, dfs: seq<nat>, parents: seq<nat>, dom: Dom, rpo: seq<nat>) {
    SearchYields(g, dfs, parents, dom.num, rpo) && Candidates(g, dfs, parents, dom.num, dom.tree)
  }

  lemma BuiltOnce(g: Cfg, dom: Dom, rpo: seq<nat>, dom': Dom, rpo': seq<nat>)
    requires Built(g, dom, rpo) && Built(g, dom', rpo')
    ensures dom' == dom && rpo' == rpo
  {
    hide SearchYields;
    var dfs, parents :| BuiltFrom(g, dfs, parents, dom, rpo);
    var dfs', parents' :| BuiltFrom(g, dfs', parents', dom', rpo');
    OneOutcome(g, dfs, parents, dom.num, rpo, dfs', parents', dom'.num, rpo');
    forall v: nat | 0 < v < |dfs| ensures dom.tree[v] == dom'.tree[v] {
      CandidateUnique(g, dfs, parents, dom.num, v, dom.tree[v], dom'.tree[v]);
    }
    assert dom.tree == dom'.tree;
  }

  // The tree tells the truth about the regions that hang below the start.
  ghost predicate Truthful(g: Cfg, dom: Dom) {
    forall a: nat, b: nat :: dom.Above(a, b) && g.Anchored(b) ==> Dominates(g, a, b)
  }

  // It does exactly when the search leaves no region passed by.
  lemma TruthfulIff(g: Cfg, dfs: seq<nat>, parents: seq<nat>, dom: Dom, rpo: seq<nat>)
    requires g.Wf() && AllReachable(g) && BuiltFrom(g, dfs, parents, dom, rpo)
    ensures Truthful(g, dom) <==> !exists v: nat :: PassedBy(g, dfs, parents, dom.num, v)
  {
    SearchIs(g, dfs, parents, dom.num, rpo);
    hide SearchYields, PostOrder, DepthFirst, PreOrder, GroupedSuccs, PassedBy, IsCandidate, ParentProperty, ParentsDominate,
      Dominates;
    CandidatesFormForest(g, dfs, parents, dom.num, dom.tree);
    NumbersAll(g, dfs, parents, dom.num);
    CandidatesTreeFor(g, dfs, parents, dom.num, dom.tree);
    hide Candidates, AllReachable, Reachable, Cfg.Wf;
    assert Truthful(g, dom) <==> ExactNodes(g, dom.num, dom.tree);
  }

  // A candidate lies above its region in the depth-first tree,
  lemma CandidateAbove(g: Cfg, dfs: seq<nat>, parents: seq<nat>, num: map<nat, nat>, semi: seq<nat>, v: nat)
    requires g.Wf() && Candidates(g, dfs, parents, num, semi) && 0 < v < |dfs|
    requires DepthFirst(g, dfs, parents) && PreOrder(parents)
    ensures semi[v] < |parents| && Anc(parents, semi[v], v)
  {
    assert IsCandidate(g, dfs, parents, num, v, semi[v]);
    if g.preds[dfs[v]] != [] {
      var u :| u in g.preds[dfs[v]] && semi[v] == Climb(parents, num[u], v);
      assert g.Edge(dfs[num[u]], dfs[v]);
      if num[u] >= v {
        ClimbIsAncestor(parents, num[u], v);
        AncSpan(parents, semi[v], v, num[u]);
      }
    }
  }

  // and so does everything above it in the computed tree.
  lemma {:induction false} ComputedIsTreeAncestor(g: Cfg, dfs: seq<nat>, parents: seq<nat>, num: map<nat, nat>,
          semi: seq<nat>, a: nat, v: nat)
    requires g.Wf() && Candidates(g, dfs, parents, num, semi) && IsForest(semi) && v < |dfs|
    requires DepthFirst(g, dfs, parents) && PreOrder(parents) && Anc(semi, a, v)
    ensures Anc(parents, a, v)
    decreases v
  {
    if a != v {
      CandidateAbove(g, dfs, parents, num, semi, v);
      ComputedIsTreeAncestor(g, dfs, parents, num, semi, a, semi[v]);
      AncTrans(parents, a, semi[v], v);
    }
  }

  // By the time a region is mentioned, everything below it in the tree has been.
  ghost predicate InnerFirst(dom: Dom, rs: seq<nat>) {
    forall i, k :: 0 <= i < k < |rs| && dom.Above(rs[i], rs[k]) ==> rs[k] in rs[..i + 1]
  }

  // The list of the search mentions every region, inner ones first.
  lemma BuiltOrder(g: Cfg, dom: Dom, rpo: seq<nat>)
    requires g.Wf() && AllReachable(g) && Built(g, dom, rpo)
    ensures InnerFirst(dom, rpo) && forall r: nat :: r in rpo <==> r < |g.succs|
  {
    hide BuiltFrom, Dom.Above, FirstIndex;
    var dfs, parents :| BuiltFrom(g, dfs, parents, dom, rpo);
    AllMentioned(g, dfs, parents, dom, rpo);
    forall i, k | 0 <= i < k < |rpo| && dom.Above(rpo[i], rpo[k]) ensures rpo[k] in rpo[..i + 1] {
      FirstIndexUpTo(rpo, i);
      if rpo[i] != rpo[k] {
        BelowFirst(g, dfs, parents, dom, rpo, rpo[i], rpo[k]);
        assert rpo[..i + 1][FirstIndex(rpo, rpo[k])] == rpo[k];
      }
    }
  }

  lemma AllMentioned(g: Cfg, dfs: seq<nat>, parents: seq<nat>, dom: Dom, rpo: seq<nat>)
    requires g.Wf() && AllReachable(g) && BuiltFrom(g, dfs, parents, dom, rpo)
    ensures forall r: nat :: r in rpo <==> r < |g.succs|
  {
    SearchIs(g, dfs, parents, dom.num, rpo);
    hide SearchYields, Candidates, PostOrder, DepthFirst, PreOrder, GroupedSuccs;
    forall r: nat | r in rpo ensures r < |g.succs| {
      assert Reachable(g, r);
    }
  }

  lemma FirstIndexUpTo(xs: seq<nat>, i: nat)
    requires i < |xs|
    ensures xs[i] in xs && FirstIndex(xs, xs[i]) <= i && xs[i] in xs[..i + 1]
  {
    assert xs[..i + 1][i] == xs[i];
  }

  lemma BelowFirst(g: Cfg, dfs: seq<nat>, parents: seq<nat>, dom: Dom, rpo: seq<nat>, a: nat, b: nat)
    requires g.Wf() && AllReachable(g) && BuiltFrom(g, dfs, parents, dom, rpo) && dom.Above(a, b) && a != b
    ensures a in rpo && b in rpo && FirstIndex(rpo, b) < FirstIndex(rpo, a)
  {
    SearchIs(g, dfs, parents, dom.num, rpo);
    hide SearchYields, PostOrder, DepthFirst, PreOrder, GroupedSuccs, IsCandidate;
    ComputedIsTreeAncestor(g, dfs, parents, dom.num, dom.tree, dom.num[a], dom.num[b]);
    DescendantsFirst(g, dfs, parents, dom.num, rpo, dom.num[a], dom.num[b]);
  }

  // ---------------------------------------------------------------- the dominator tree

  class DomTree {
    var nodeToIdx: map<nat, nat>
    var idxToNode: seq<nat>
    var idomTree: seq<nat>

    ghost predicate Valid()
      reads this
    {
      && IsForest(idomTree) && |idxToNode| == |idomTree|
      && (forall v :: v in nodeToIdx ==> nodeToIdx[v] < |idomTree| && idxToNode[nodeToIdx[v]] == v)
      && forall i :: 0 <= i < |idxToNode| ==> idxToNode[i] in nodeToIdx && nodeToIdx[idxToNode[i]] == i
    }

    ghost predicate Above(a: nat, b: nat)
      requires Valid() && a in nodeToIdx && b in nodeToIdx
      reads this
    {
      Anc(idomTree, nodeToIdx[a], nodeToIdx[b])
    }

    // b hangs below the start region.
    ghost predicate Hangs(b: nat)
      requires Valid() && b in nodeToIdx
      reads this
    {
      Rooted(idomTree, nodeToIdx[b])
    }

    // The computed relation is true dominance of the regions that list a predecessor.
    ghost predicate ExactFor(g: Cfg)
      requires Valid()
      reads this
    {
      ExactNodes(g, nodeToIdx, idomTree)
    }

    ghost predicate TreeOf(g: Cfg)
      requires Valid()
      reads this
    {
      TreeFor(g, idxToNode, nodeToIdx, idomTree)
    }

    ghost predicate FromSearch(g: Cfg, parents: seq<nat>, rpo: seq<nat>)
      requires Valid()
      reads this
    {
      && SearchYields(g, idxToNode, parents, nodeToIdx, rpo)
      && Candidates(g, idxToNode, parents, nodeToIdx, idomTree)
      && (ExactFor(g) <==> !exists v: nat :: PassedBy(g, idxToNode, parents, nodeToIdx, v))
    }

    constructor (g: Cfg)
      requires g.Wf() && AllReachable(g)
      ensures Valid() && TreeOf(g)
      ensures exists parents, rpo :: FromSearch(g, parents, rpo)
    {
      nodeToIdx, idxToNode, idomTree := map[], [], [];
      new;
      Recalc(g);
    }

    method Recalc(g: Cfg)
      requires g.Wf() && AllReachable(g)
      modifies this
      ensures Valid() && TreeOf(g)
      ensures exists parents, rpo :: FromSearch(g, parents, rpo)
    {
      hide Candidates, TreeFor, ExactNodes, SearchYields, PassedBy, DepthFirst, PreOrder, PostOrder, RepeatsFollowParents,
        GroupedSuccs, AllReachable, Reachable, IsTree;
      var dfs, parents, num, rpo := Dfs(g);
      NumbersAll(g, dfs, parents, num);
      var semi := SemiDominators(g, dfs, parents, num);
      CandidatesFormForest(g, dfs, parents, num, semi);
      idomTree := IDominators(semi);
      idxToNode, nodeToIdx := dfs, num;
      CandidatesTreeFor(g, dfs, parents, num, semi);
      assert FromSearch(g, parents, rpo);
    }

    // The loop needs b to be a, or to hang below the start: any other climb never ends.
    method Dominates(a: nat, b: nat) returns (r: bool)
      requires Valid() && a in nodeToIdx && b in nodeToIdx
      requires Above(a, b) || Hangs(b)
      ensures r <==> Above(a, b)
    {
      var aIdx: nat, bIdx: nat := nodeToIdx[a], nodeToIdx[b];
      while bIdx != 0 && bIdx != aIdx
        invariant bIdx < |idomTree|
        invariant Anc(idomTree, aIdx, bIdx) <==> Above(a, b)
        invariant Anc(idomTree, aIdx, bIdx) || Rooted(idomTree, bIdx)
        decreases bIdx
      {
        bIdx := idomTree[bIdx];
      }
      r := aIdx == bIdx;
    }

    function Idom(a: nat): (d: nat)
      requires Valid() && a in nodeToIdx
      reads this
      ensures d in nodeToIdx && Above(d, a)
    {
      var d := idomTree[nodeToIdx[a]];
      assert Anc(idomTree, d, d);
      idxToNode[d]
    }

    // On a computed tree the climb of dominates(a, b) stops exactly when b is a, is the
    // start, or lists a predecessor.
    lemma DominatesStops(g: Cfg, a: nat, b: nat)
      requires Valid() && TreeOf(g) && a in nodeToIdx && b in nodeToIdx
      ensures (exists k: nat :: Up(idomTree, nodeToIdx[b], k) == nodeToIdx[a] || Up(idomTree, nodeToIdx[b], k) == 0)
        <==> a == b || g.Anchored(b)
      ensures (Above(a, b) || Hangs(b)) <==> a == b || g.Anchored(b)
    {
      ClimbStops(idomTree, nodeToIdx[a], nodeToIdx[b]);
      assert a == b <==> nodeToIdx[a] == nodeToIdx[b];
    }
  }
}
