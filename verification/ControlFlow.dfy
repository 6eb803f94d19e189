// Control-flow graphs: regions are numbered, each with an ordered list of
// successors and of predecessors (RegionNodeBase in src/Node.hpp).
module ControlFlow {

  datatype Cfg = Cfg(start: nat, succs: seq<seq<nat>>, preds: seq<seq<nat>>) {
    ghost predicate Edge(u: nat, v: nat) {
      u < |succs| && v < |succs| && v in succs[u]
    }

    ghost predicate WfSuccs() {
      && start < |succs|
      && forall u, v :: 0 <= u < |succs| && v in succs[u] ==> v < |succs|
    }

    // The predecessor list of v reports exactly the edges into v.
    ghost predicate Listed(v: nat) {
      v < |preds| && forall u: nat :: u in preds[v] <==> Edge(u, v)
    }

    // v is the start or reports a predecessor.
    ghost predicate Anchored(v: nat) {
      v < |preds| && (v == start || preds[v] != [])
    }

    // Predecessor lists report edges. Only a region without successors may keep edges
    // to itself: a return enters the end region without being reported there.
    ghost predicate Wf() {
      && WfSuccs()
      && |preds| == |succs|
      && (forall u: nat, v: nat :: v < |preds| && u in preds[v] ==> Edge(u, v))
      && forall v: nat :: v < |preds| && succs[v] != [] ==> Listed(v)
    }
  }

  ghost predicate IsPath(g: Cfg, p: seq<nat>) {
    && p != []
    && (forall i :: 0 <= i < |p| ==> p[i] < |g.succs|)
    && forall i, j :: 0 <= i < j < |p| && j == i + 1 ==> g.Edge(p[i], p[j])
  }

  ghost predicate PathBetween(g: Cfg, p: seq<nat>, u: nat, v: nat) {
    IsPath(g, p) && p[0] == u && p[|p| - 1] == v
  }

  ghost predicate Reachable(g: Cfg, v: nat) {
    exists p :: PathBetween(g, p, g.start, v)
  }

  // d lies on every path from the start region to v.
  ghost predicate Dominates(g: Cfg, d: nat, v: nat) {
    forall p :: PathBetween(g, p, g.start, v) ==> d in p
  }

  ghost predicate AllReachable(g: Cfg) {
    forall v :: 0 <= v < |g.succs| ==> Reachable(g, v)
  }

  // A region with a successor has its predecessors listed.
  lemma SourceListed(g: Cfg, u: nat, v: nat)
    requires g.Wf() && g.Edge(u, v)
    ensures g.Listed(u)
  {
  }

  lemma SourceAnchored(g: Cfg, u: nat, v: nat)
    requires g.Wf() && Reachable(g, u) && g.Edge(u, v)
    ensures g.Anchored(u)
  {
    SourceListed(g, u, v);
    var p :| PathBetween(g, p, g.start, u);
    if |p| > 1 {
      var k := |p| - 2;
      assert g.Edge(p[k], p[k + 1]);
    }
  }

  lemma PathAppend(g: Cfg, p: seq<nat>, v: nat)
    requires IsPath(g, p) && g.Edge(p[|p| - 1], v)
    ensures PathBetween(g, p + [v], p[0], v)
  {
    var q := p + [v];
    forall i, j | 0 <= i < j < |q| && j == i + 1 ensures g.Edge(q[i], q[j]) {
      if j < |p| {
        assert g.Edge(p[i], p[j]);
      }
    }
  }

  lemma PathJoin(g: Cfg, p: seq<nat>, q: seq<nat>)
    requires IsPath(g, p) && IsPath(g, q) && p[|p| - 1] == q[0]
    ensures PathBetween(g, p + q[1..], p[0], q[|q| - 1])
  {
    var r := p + q[1..];
    forall i, j | 0 <= i < j < |r| && j == i + 1 ensures g.Edge(r[i], r[j]) {
      if j < |p| {
        assert g.Edge(p[i], p[j]);
      } else {
        assert r[i] == q[i - |p| + 1] && r[j] == q[j - |p| + 1];
      }
    }
    assert |q| > 1 ==> r[|r| - 1] == q[|q| - 1];
  }

  lemma PathSuffix(g: Cfg, p: seq<nat>, k: nat)
    requires IsPath(g, p) && k < |p|
    ensures PathBetween(g, p[k..], p[k], p[|p| - 1])
  {
    var q := p[k..];
    forall i, j | 0 <= i < j < |q| && j == i + 1 ensures g.Edge(q[i], q[j]) {
      assert q[i] == p[k + i] && q[j] == p[k + j];
    }
  }

  lemma PathPrefix(g: Cfg, p: seq<nat>, k: nat)
    requires IsPath(g, p) && k < |p|
    ensures PathBetween(g, p[..k + 1], p[0], p[k])
  {
    var q := p[..k + 1];
    forall i, j | 0 <= i < j < |q| && j == i + 1 ensures g.Edge(q[i], q[j]) {
      assert q[i] == p[i] && q[j] == p[j];
    }
  }

  lemma ReachableStep(g: Cfg, u: nat, v: nat)
    requires Reachable(g, u) && g.Edge(u, v)
    ensures Reachable(g, v)
  {
    var p :| PathBetween(g, p, g.start, u);
    PathAppend(g, p, v);
  }

  lemma StartReachable(g: Cfg)
    requires g.start < |g.succs|
    ensures Reachable(g, g.start)
  {
    assert PathBetween(g, [g.start], g.start, g.start);
  }

  // A set closed under successors holds everything reachable from its members.
  lemma {:induction false} ClosedHoldsPath(g: Cfg, X: set<nat>, p: seq<nat>)
    requires IsPath(g, p) && p[0] in X
    requires forall u, v :: u in X && g.Edge(u, v) ==> v in X
    ensures p[|p| - 1] in X
    decreases |p|
  {
    if |p| > 1 {
      assert g.Edge(p[0], p[1]);
      PathSuffix(g, p, 1);
      ClosedHoldsPath(g, X, p[1..]);
    }
  }
}
