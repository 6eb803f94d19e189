// Edges between regions, as they are found in the node graph (successors() and
// predecessors(), src/Node.cpp:17-72).
module RegionEdges {
  import opened SeqUtil
  import opened ControlFlow
  import opened UseDef

  predicate IsCheck(k: Kind) {
    k.NullCheck? || k.BoundsCheck?
  }

  // The region that control node x leaves: predecessors() reports it for all of them
  // but returns, whose edges only successors() knows.
  function Source(ns: Nodes, x: nat): Option<nat>
    requires x < |ns|
  {
    var node := ns[x];
    if node.kind.Jmp? || node.kind.Ret? then RegionAt(ns, SlotOr(node.ops, 0))
    else if node.kind.IfTrue? || node.kind.IfFalse? then
      var s := SlotOr(node.ops, 0);
      if s.Some? && s.value < |ns| && ns[s.value].kind.If? then RegionAt(ns, SlotOr(ns[s.value].ops, 0)) else None
    else if node.kind.Call? || IsCheck(node.kind) then RegionAt(ns, SlotOr(node.ops, |node.ops| - 1))
    else None
  }

  // The i-th input of region node S leaves region r. Calls and checks only continue in
  // region nodes proper, not in the end of the function.
  ghost predicate EntersFrom(ns: Nodes, S: nat, i: nat, r: nat) {
    && S < |ns| && ns[S].kind.IsRegion() && i < |ns[S].ops| && ns[S].ops[i].Some? && ns[S].ops[i].value < |ns|
    && Source(ns, ns[S].ops[i].value) == Some(r)
    && var k := ns[ns[S].ops[i].value].kind; (k.Call? || IsCheck(k) ==> ns[S].kind.Region?)
  }

  ghost predicate NodeEdge(ns: Nodes, r: nat, s: nat) {
    exists S: nat, i: nat :: EntersFrom(ns, S, i, r) && ns[S].kind.region == s
  }

  // g is the control flow graph of ns.
  ghost predicate Flow(ns: Nodes, g: Cfg) {
    forall r: nat, s: nat :: g.Edge(r, s) <==> NodeEdge(ns, r, s)
  }

  lemma EdgeInput(ns: Nodes, r: nat, s: nat) returns (S: nat, i: nat)
    requires NodeEdge(ns, r, s)
    ensures EntersFrom(ns, S, i, r) && S < |ns| && ns[S].kind.IsRegion() && ns[S].kind.region == s
  {
    S, i :| EntersFrom(ns, S, i, r) && ns[S].kind.region == s;
  }

  lemma InputEdge(ns: Nodes, S: nat, i: nat, r: nat)
    requires EntersFrom(ns, S, i, r)
    ensures S < |ns| && ns[S].kind.IsRegion() && NodeEdge(ns, r, ns[S].kind.region)
  {
  }

  // What predecessors() lists for one input: returns are passed over.
  function Reported(ns: Nodes, s: Slot): seq<nat> {
    if s.Some? && s.value < |ns| && !ns[s.value].kind.Ret? && Source(ns, s.value).Some? then [Source(ns, s.value).value] else []
  }

  function Predecessors(ns: Nodes, ops: seq<Slot>): seq<nat> {
    if ops == [] then [] else Predecessors(ns, ops[..|ops| - 1]) + Reported(ns, ops[|ops| - 1])
  }

  // The predecessor lists of g are those of the region nodes.
  ghost predicate Lists(ns: Nodes, g: Cfg) {
    forall S :: 0 <= S < |ns| && ns[S].kind.IsRegion() ==>
      ns[S].kind.region < |g.preds| && g.preds[ns[S].kind.region] == Predecessors(ns, ns[S].ops)
  }

  // When no input before the k-th is empty or a return, the k-th predecessor listed is the
  // region that the k-th input leaves.
  lemma PredecessorAt(ns: Nodes, g: Cfg, S: nat, k: nat, r: nat)
    requires Lists(ns, g) && S < |ns| && ns[S].kind.IsRegion() && k < |ns[S].ops|
    requires forall j: nat :: j <= k ==> InputReported(ns, S, j)
    requires ns[S].ops[k].Some? && ns[S].ops[k].value < |ns| && Source(ns, ns[S].ops[k].value) == Some(r)
    ensures ns[S].kind.region < |g.preds| && k < |g.preds[ns[S].kind.region]| && g.preds[ns[S].kind.region][k] == r
  {
    PredecessorsAt(ns, S, k);
    PredecessorsPrefix(ns, ns[S].ops, k + 1);
  }

  ghost predicate InputReported(ns: Nodes, S: nat, j: nat) {
    && S < |ns| && j < |ns[S].ops| && ns[S].ops[j].Some? && ns[S].ops[j].value < |ns|
    && !ns[ns[S].ops[j].value].kind.Ret? && Source(ns, ns[S].ops[j].value).Some?
  }

  lemma {:induction false} PredecessorsAt(ns: Nodes, S: nat, k: nat)
    requires S < |ns| && k < |ns[S].ops| && forall j: nat :: j <= k ==> InputReported(ns, S, j)
    ensures |Predecessors(ns, ns[S].ops[..k + 1])| == k + 1
    ensures ns[S].ops[k].Some? && ns[S].ops[k].value < |ns|
    ensures Some(Predecessors(ns, ns[S].ops[..k + 1])[k]) == Source(ns, ns[S].ops[k].value)
    decreases k
  {
    assert InputReported(ns, S, k);
    var ops := ns[S].ops[..k + 1];
    assert ops[..k] == ns[S].ops[..k] && ops[k] == ns[S].ops[k];
    if k > 0 {
      PredecessorsAt(ns, S, k - 1);
    }
  }

  lemma {:induction false} PredecessorsPrefix(ns: Nodes, ops: seq<Slot>, k: nat)
    requires k <= |ops|
    ensures |Predecessors(ns, ops[..k])| <= |Predecessors(ns, ops)|
    ensures Predecessors(ns, ops)[..|Predecessors(ns, ops[..k])|] == Predecessors(ns, ops[..k])
    decreases |ops|
  {
    if k < |ops| {
      assert ops[..|ops| - 1][..k] == ops[..k];
      PredecessorsPrefix(ns, ops[..|ops| - 1], k);
    } else {
      assert ops[..k] == ops;
    }
  }
}
