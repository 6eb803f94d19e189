// Late placement of data nodes (getUserRegions and dataSchedule,
// src/Function.cpp:162-249).
module Schedule {
  import opened SeqUtil
  import opened Tree
  import opened ControlFlow
  import opened UseDef
  import opened RegionEdges
  import opened Values
  import opened Dominators

  predicate IsData(k: Kind) {
    !k.IsControl() && !k.Phi?
  }

  // ---------------------------------------------------------------- where a node is used

  predicate UsesAtEntry(k: Kind) {
    k.Ret? || k.If?
  }

  predicate UsesAtLast(k: Kind) {
    k.Call? || k.NullCheck? || k.BoundsCheck?
  }

  // User u needs v in region r: the region that u ends, the matching predecessor
  // for a phi, or the region u is mapped to.
  ghost predicate NeededIn(ns: Nodes, g: Cfg, mapped: map<nat, nat>, v: nat, u: nat, r: nat) {
    && u < |ns|
    && var node := ns[u];
      if UsesAtEntry(node.kind) then RegionAt(ns, SlotOr(node.ops, 0)) == Some(r)
      else if UsesAtLast(node.kind) then RegionAt(ns, SlotOr(node.ops, |node.ops| - 1)) == Some(r)
      else if node.kind.Phi? then exists i :: 1 <= i < |node.ops| && PhiNeeds(ns, g, u, i, v, r)
      else u in mapped && mapped[u] == r
  }

  // The i-th slot of phi u holds v and belongs to predecessor r.
  ghost predicate PhiNeeds(ns: Nodes, g: Cfg, u: nat, i: nat, v: nat, r: nat) {
    && u < |ns| && 1 <= i < |ns[u].ops| && ns[u].ops[i] == Some(v)
    && var s := RegionAt(ns, SlotOr(ns[u].ops, 0));
      s.Some? && s.value < |g.preds| && i - 1 < |g.preds[s.value]| && g.preds[s.value][i - 1] == r
  }

  ghost predicate IsDataUser(ns: Nodes, u: nat) {
    u < |ns| && !UsesAtEntry(ns[u].kind) && !UsesAtLast(ns[u].kind) && !ns[u].kind.Phi?
  }

  // Every data user of v is mapped.
  ghost predicate UsersMapped(ns: Nodes, mapped: map<nat, nat>, v: nat)
    requires v < |ns|
  {
    forall u :: u in ns[v].users && IsDataUser(ns, u) ==> u in mapped
  }

  // ---------------------------------------------------------------- the graphs that can be scheduled

  // Control nodes and phis know their region, a phi has one value per predecessor, and
  // the region of a control node lists a predecessor or is the start.
  ghost predicate UserOk(ns: Nodes, g: Cfg, u: nat)
    requires u < |ns|
  {
    var node := ns[u];
    && (UsesAtEntry(node.kind) ==> AnchoredRegion(g, RegionAt(ns, SlotOr(node.ops, 0))))
    && (UsesAtLast(node.kind) ==> AnchoredRegion(g, RegionAt(ns, SlotOr(node.ops, |node.ops| - 1))))
    && (node.kind.Phi? ==>
      var s := RegionAt(ns, SlotOr(node.ops, 0));
      s.Some? && ns[node.ops[0].value].kind.Region? && s.value < |g.preds| && |g.preds[s.value]| == |node.ops| - 1)
    && (node.kind.IsControl() && IsDataUser(ns, u) ==>
      forall i :: 0 <= i < |node.ops| && node.ops[i].Some? && node.ops[i].value < |ns| ==> ns[node.ops[i].value].kind.IsControl())
  }

  ghost predicate AnchoredRegion(g: Cfg, r: Option<nat>) {
    r.Some? && g.Anchored(r.value)
  }

  // u is dead but holds v in its i-th slot.
  ghost predicate DeadHolds(ns: Nodes, u: nat, i: nat, v: nat) {
    && u < |ns| && v < |ns| && IsData(ns[u].kind) && IsData(ns[v].kind) && ns[u].users == multiset{}
    && i < |ns[u].ops| && ns[u].ops[i] == Some(v)
  }

  // No dead data node holds a data node.
  ghost predicate NoDeadUser(ns: Nodes) {
    forall u: nat, i: nat, v: nat :: !DeadHolds(ns, u, i, v)
  }

  ghost predicate Schedulable(ns: Nodes, rank: seq<nat>, g: Cfg) {
    && Dual(ns) && Acyclic(ns, rank) && g.Wf() && AllReachable(g)
    && (forall u :: 0 <= u < |ns| ==> UserOk(ns, g, u))
    && (forall n :: 0 <= n < |ns| && ns[n].kind.IsRegion() ==> ns[n].kind.region < |g.succs|)
    && forall n :: 0 <= n < |ns| && IsData(ns[n].kind) && !Computed(ns[n].kind) ==> ns[n].ops == []
  }

  ghost predicate Used(ns: Nodes, v: nat) {
    v < |ns| && IsData(ns[v].kind) && ns[v].users != multiset{}
  }

  // The regions that need v are numbered regions that list a predecessor.
  lemma NeededIsRegion(ns: Nodes, rank: seq<nat>, g: Cfg, mapped: map<nat, nat>, v: nat, u: nat, r: nat)
    requires Schedulable(ns, rank, g) && NeededIn(ns, g, mapped, v, u, r)
    requires forall x :: x in mapped && x < |ns| && !ns[x].kind.Phi? ==> g.Anchored(mapped[x])
    ensures g.Anchored(r)
  {
    hide Dual, Acyclic;
    assert UserOk(ns, g, u);
    if ns[u].kind.Phi? {
      var i :| 1 <= i < |ns[u].ops| && PhiNeeds(ns, g, u, i, v, r);
      var s := RegionAt(ns, SlotOr(ns[u].ops, 0)).value;
      assert r in g.preds[s];
      assert g.Edge(r, s) && Reachable(g, r);
      SourceAnchored(g, r, s);
    }
  }

  // A used node is needed somewhere, once its data users are mapped.
  lemma NeededSomewhere(ns: Nodes, rank: seq<nat>, g: Cfg, mapped: map<nat, nat>, v: nat) returns (u: nat, r: nat)
    requires Schedulable(ns, rank, g) && Used(ns, v) && UsersMapped(ns, mapped, v)
    ensures u in ns[v].users && NeededIn(ns, g, mapped, v, u, r)
  {
    u :| u in ns[v].users;
    var i := UserHasSlot(ns, v, u);
    hide Dual, Acyclic;
    assert UserOk(ns, g, u);
    var node := ns[u];
    if UsesAtEntry(node.kind) {
      r := RegionAt(ns, SlotOr(node.ops, 0)).value;
    } else if UsesAtLast(node.kind) {
      r := RegionAt(ns, SlotOr(node.ops, |node.ops| - 1)).value;
    } else if node.kind.Phi? {
      var s := RegionAt(ns, SlotOr(node.ops, 0)).value;
      assert i != 0;
      r := g.preds[s][i - 1];
      assert PhiNeeds(ns, g, u, i, v, r);
    } else {
      assert IsDataUser(ns, u);
      r := mapped[u];
    }
  }

  // ---------------------------------------------------------------- collecting the user regions

  ghost predicate RegionsOf(ns: Nodes, g: Cfg, mapped: map<nat, nat>, v: nat, users: multiset<nat>, res: seq<nat>) {
    forall r: nat :: r in res <==> exists u :: u in users && NeededIn(ns, g, mapped, v, u, r)
  }

  lemma RegionsAdd(ns: Nodes, g: Cfg, mapped: map<nat, nat>, v: nat, users: multiset<nat>, u: nat, res: seq<nat>,
          more: seq<nat>)
    requires RegionsOf(ns, g, mapped, v, users, res)
    requires forall r: nat :: r in more <==> NeededIn(ns, g, mapped, v, u, r)
    ensures RegionsOf(ns, g, mapped, v, users + multiset{u}, res + more)
  {
    hide NeededIn;
    forall r: nat
      ensures r in res + more <==> exists x :: x in users + multiset{u} && NeededIn(ns, g, mapped, v, x, r)
    {
      if x :| x in users + multiset{u} && NeededIn(ns, g, mapped, v, x, r) {
        if x in users {
          assert r in res;
        } else {
          assert x == u;
        }
      }
      if r in res {
        var x :| x in users && NeededIn(ns, g, mapped, v, x, r);
        assert x in users + multiset{u};
      } else if r in more {
        assert u in users + multiset{u};
      }
    }
  }

  method GetUserRegions(F: Graph, g: Cfg, mapped: map<nat, nat>, v: nat,
          ghost rank: seq<nat>) returns (complete: bool, res: seq<nat>)
    requires Schedulable(F.nodes, rank, g) && v < |F.nodes|
    ensures F.nodes[v].kind.IsControl() ==> complete && res == []
    ensures !F.nodes[v].kind.IsControl() ==>
      (complete <==> UsersMapped(F.nodes, mapped, v)) && RegionsOf(F.nodes, g, mapped, v, F.nodes[v].users, res)
    ensures !F.nodes[v].kind.IsControl() ==> ControlRegionsIn(F.nodes, v, res) && PhiRegionsIn(F.nodes, g, v, res)
  {
    hide Acyclic, NeededIn, Uses, ControlRegionsIn, PhiRegionsIn;
    if F.nodes[v].kind.IsControl() {
      return true, [];
    }
    complete, res := true, [];
    var rest := F.nodes[v].users;
    ghost var seen := multiset{};
    while rest != multiset{}
      invariant seen + rest == F.nodes[v].users
      invariant RegionsOf(F.nodes, g, mapped, v, seen, res)
      invariant complete <==> forall u :: u in seen && IsDataUser(F.nodes, u) ==> u in mapped
      decreases |rest|
    {
      hide RegionsOf;
      var u :| u in rest;
      assert u in F.nodes[v].users;
      ghost var i := UserHasSlot(F.nodes, v, u);
      var more := RegionsOfUser(F, g, mapped, v, u, rank);
      RegionsAdd(F.nodes, g, mapped, v, seen, u, res, more);
      if !UsesAtEntry(F.nodes[u].kind) && !UsesAtLast(F.nodes[u].kind) && !F.nodes[u].kind.Phi? && u !in mapped {
        complete := false;
      }
      res := res + more;
      rest := rest - multiset{u};
      seen := seen + multiset{u};
    }
    assert seen == F.nodes[v].users;
    CollectedRegions(F.nodes, g, mapped, v, res);
  }

  // Every return, branch, call or check that uses v contributes the region whose node it names,
  ghost predicate ControlRegionsIn(ns: Nodes, v: nat, res: seq<nat>)
    requires v < |ns|
  {
    forall u: nat, k: nat, X: nat ::
      u in ns[v].users && u < |ns| && k < |ns[u].ops| && ns[u].ops[k] == Some(X) && X < |ns| && ns[X].kind.IsRegion()
      && (if ns[u].kind.Ret? || ns[u].kind.If? then k == 0
        else (ns[u].kind.Call? || ns[u].kind.NullCheck? || ns[u].kind.BoundsCheck?) && k == |ns[u].ops| - 1) ==>
        ns[X].kind.region in res
  }

  // and every phi the k-th predecessor of its region, where v is its k-th value.
  ghost predicate PhiRegionsIn(ns: Nodes, g: Cfg, v: nat, res: seq<nat>)
    requires v < |ns|
  {
    forall u: nat, k: nat, X: nat ::
      u in ns[v].users && u < |ns| && ns[u].kind.Phi? && 0 < k < |ns[u].ops| && ns[u].ops[k] == Some(v)
      && ns[u].ops[0] == Some(X) && X < |ns| && ns[X].kind.IsRegion() && ns[X].kind.region < |g.preds|
      && k - 1 < |g.preds[ns[X].kind.region]| ==>
        g.preds[ns[X].kind.region][k - 1] in res
  }

  lemma CollectedRegions(ns: Nodes, g: Cfg, mapped: map<nat, nat>, v: nat, res: seq<nat>)
    requires v < |ns| && RegionsOf(ns, g, mapped, v, ns[v].users, res)
    ensures ControlRegionsIn(ns, v, res) && PhiRegionsIn(ns, g, v, res)
  {
    hide NeededIn;
    forall u: nat, k: nat, X: nat |
      u in ns[v].users && u < |ns| && k < |ns[u].ops| && ns[u].ops[k] == Some(X) && X < |ns| && ns[X].kind.IsRegion()
      && (if ns[u].kind.Ret? || ns[u].kind.If? then k == 0
        else (ns[u].kind.Call? || ns[u].kind.NullCheck? || ns[u].kind.BoundsCheck?) && k == |ns[u].ops| - 1)
      ensures ns[X].kind.region in res
    {
      ControlNeeds(ns, g, mapped, v, u, k, X);
    }
    forall u: nat, k: nat, X: nat |
      u in ns[v].users && u < |ns| && ns[u].kind.Phi? && 0 < k < |ns[u].ops| && ns[u].ops[k] == Some(v)
      && ns[u].ops[0] == Some(X) && X < |ns| && ns[X].kind.IsRegion() && ns[X].kind.region < |g.preds|
      && k - 1 < |g.preds[ns[X].kind.region]|
      ensures g.preds[ns[X].kind.region][k - 1] in res
    {
      PhiNeedsFrom(ns, g, mapped, v, u, X);
      assert ns[u].ops[1..][k - 1] == Some(v);
    }
  }

  // The regions pushed for one user.
  method RegionsOfUser(F: Graph, g: Cfg, mapped: map<nat, nat>, v: nat, u: nat,
          ghost rank: seq<nat>) returns (more: seq<nat>)
    requires Schedulable(F.nodes, rank, g) && v < |F.nodes| && u < |F.nodes|
    ensures forall r: nat :: r in more <==> NeededIn(F.nodes, g, mapped, v, u, r)
  {
    hide Acyclic, Dual;
    var node := F.nodes[u];
    assert UserOk(F.nodes, g, u);
    if UsesAtEntry(node.kind) {
      more := [RegionAt(F.nodes, SlotOr(node.ops, 0)).value];
    } else if UsesAtLast(node.kind) {
      more := [RegionAt(F.nodes, SlotOr(node.ops, |node.ops| - 1)).value];
    } else if node.kind.Phi? {
      more := PhiRegions(F, g, v, u);
    } else if u in mapped {
      more := [mapped[u]];
    } else {
      more := [];
    }
  }

  method PhiRegions(F: Graph, g: Cfg, v: nat, u: nat) returns (more: seq<nat>)
    requires u < |F.nodes| && F.nodes[u].kind.Phi? && UserOk(F.nodes, g, u)
    ensures forall r: nat :: r in more <==> exists i :: 1 <= i < |F.nodes[u].ops| && PhiNeeds(F.nodes, g, u, i, v, r)
  {
    more := [];
    var ops := F.nodes[u].ops;
    var s := RegionAt(F.nodes, SlotOr(ops, 0)).value;
    for i := 1 to |ops|
      invariant forall r: nat :: r in more <==> exists k :: 1 <= k < i && PhiNeeds(F.nodes, g, u, k, v, r)
    {
      if ops[i] == Some(v) {
        ghost var before := more;
        more := more + [g.preds[s][i - 1]];
        assert PhiNeeds(F.nodes, g, u, i, v, g.preds[s][i - 1]);
        assert forall r: nat :: r in more <==> r in before || r == g.preds[s][i - 1];
      }
      assert forall r: nat :: PhiNeeds(F.nodes, g, u, i, v, r) ==> ops[i] == Some(v) && r == g.preds[s][i - 1];
    }
  }

  // ---------------------------------------------------------------- nearest common dominator

  ghost predicate AboveAll(DT: DomTree, d: nat, rs: seq<nat>)
    requires DT.Valid() && d in DT.nodeToIdx && forall k :: 0 <= k < |rs| ==> rs[k] in DT.nodeToIdx
    reads DT
  {
    forall k :: 0 <= k < |rs| ==> DT.Above(d, rs[k])
  }

  ghost predicate AllHang(DT: DomTree, rs: seq<nat>)
    requires DT.Valid()
    reads DT
  {
    forall k :: 0 <= k < |rs| ==> rs[k] in DT.nodeToIdx && DT.Hangs(rs[k])
  }

  lemma RootAboveAll(DT: DomTree, rs: seq<nat>)
    requires DT.Valid() && AllHang(DT, rs)
    ensures DT.idxToNode[0] in DT.nodeToIdx && AboveAll(DT, DT.idxToNode[0], rs)
  {
    forall k | 0 <= k < |rs| ensures DT.Above(DT.idxToNode[0], rs[k]) {
      assert DT.Hangs(rs[k]);
    }
  }

  method DominatesAll(DT: DomTree, d: nat, rs: seq<nat>) returns (r: bool)
    requires DT.Valid() && d in DT.nodeToIdx && AllHang(DT, rs)
    ensures r <==> AboveAll(DT, d, rs)
  {
    for k := 0 to |rs|
      invariant forall i :: 0 <= i < k ==> DT.Above(d, rs[i])
    {
      var ok := DT.Dominates(d, rs[k]);
      if !ok {
        return false;
      }
    }
    return true;
  }

  // Climb from the first region until all are dominated: the lowest such region.
  method NearestCommonDominator(DT: DomTree, rs: seq<nat>) returns (d: nat)
    requires DT.Valid() && rs != [] && AllHang(DT, rs)
    ensures d in DT.nodeToIdx && AboveAll(DT, d, rs)
    ensures forall c :: c in DT.nodeToIdx && AboveAll(DT, c, rs) ==> DT.Above(c, d)
  {
    d := rs[0];
    var all := DominatesAll(DT, d, rs);
    while !all
      invariant d in DT.nodeToIdx && (all <==> AboveAll(DT, d, rs))
      invariant forall c :: c in DT.nodeToIdx && AboveAll(DT, c, rs) ==> DT.Above(c, d)
      decreases DT.nodeToIdx[d], !all
    {
      ClimbStep(DT, d, rs);
      d := DT.Idom(d);
      all := DominatesAll(DT, d, rs);
    }
  }

  lemma ClimbStep(DT: DomTree, d: nat, rs: seq<nat>)
    requires DT.Valid() && d in DT.nodeToIdx && AllHang(DT, rs)
    requires !AboveAll(DT, d, rs)
    requires forall c :: c in DT.nodeToIdx && AboveAll(DT, c, rs) ==> DT.Above(c, d)
    ensures DT.nodeToIdx[DT.Idom(d)] < DT.nodeToIdx[d]
    ensures forall c :: c in DT.nodeToIdx && AboveAll(DT, c, rs) ==> DT.Above(c, DT.Idom(d))
  {
    RootAboveAll(DT, rs);
    assert DT.idxToNode[DT.nodeToIdx[d]] == d;
    forall c | c in DT.nodeToIdx && AboveAll(DT, c, rs) ensures DT.Above(c, DT.Idom(d)) {
      assert c != d;
      assert DT.nodeToIdx[c] != DT.nodeToIdx[d] by {
        assert DT.idxToNode[DT.nodeToIdx[c]] == c && DT.idxToNode[DT.nodeToIdx[d]] == d;
      }
    }
  }

  // ---------------------------------------------------------------- the schedule under construction

  // The tree knows every region, and the ones that list a predecessor hang below the start.
  ghost predicate Covers(DT: DomTree, g: Cfg)
    reads DT
  {
    && DT.Valid() && (forall r: nat :: r in DT.nodeToIdx <==> r < |g.succs|)
    && forall r :: r in DT.nodeToIdx ==> (DT.Hangs(r) <==> g.Anchored(r))
  }

  // mapped holds the phis and the nodes placed so far, lists the placed nodes by
  // region, latest first.
  datatype Plan = Plan(mapped: map<nat, nat>, lists: map<nat, seq<nat>>)

  function ListOf(lists: map<nat, seq<nat>>, r: nat): seq<nat> {
    if r in lists then lists[r] else []
  }

  ghost predicate MappedOk(ns: Nodes, g: Cfg, DT: DomTree, mapped: map<nat, nat>)
    reads DT
  {
    && Covers(DT, g)
    && (forall v :: v in mapped ==> v < |ns| && (Used(ns, v) || ns[v].kind.Phi?) && mapped[v] < |g.succs|)
    && (forall v :: v in mapped && !ns[v].kind.Phi? ==> g.Anchored(mapped[v]))
    && forall v :: 0 <= v < |ns| && ns[v].kind.Phi? ==> v in mapped && RegionAt(ns, SlotOr(ns[v].ops, 0)) == Some(mapped[v])
  }

  // Each placed node is listed once, in its region.
  ghost predicate ListsOk(ns: Nodes, p: Plan) {
    forall r: nat :: Distinct(ListOf(p.lists, r)) &&
      forall v: nat :: v in ListOf(p.lists, r) <==> v in p.mapped && v < |ns| && IsData(ns[v].kind) && p.mapped[v] == r
  }

  // d is above every region that needs v.
  ghost predicate AboveNeeds(ns: Nodes, g: Cfg, DT: DomTree, mapped: map<nat, nat>, v: nat, d: nat)
    requires DT.Valid() && v < |ns|
    reads DT
  {
    && d in DT.nodeToIdx
    && forall u: nat, r: nat :: u in ns[v].users && NeededIn(ns, g, mapped, v, u, r) ==>
      r in DT.nodeToIdx && DT.Hangs(r) && DT.Above(d, r)
  }

  // d is above every region that needs v, and below all regions that are.
  ghost predicate Lowest(ns: Nodes, g: Cfg, DT: DomTree, mapped: map<nat, nat>, v: nat, d: nat)
    requires DT.Valid() && v < |ns|
    reads DT
  {
    && AboveNeeds(ns, g, DT, mapped, v, d)
    && forall c :: c in DT.nodeToIdx && AboveNeeds(ns, g, DT, mapped, v, c) ==> DT.Above(c, d)
  }

  ghost predicate PlacedOk(ns: Nodes, g: Cfg, DT: DomTree, mapped: map<nat, nat>)
    requires DT.Valid()
    reads DT
  {
    forall v :: v in mapped && v < |ns| && IsData(ns[v].kind) ==>
      UsersMapped(ns, mapped, v) && Lowest(ns, g, DT, mapped, v, mapped[v])
  }

  // Users are listed before the nodes they use.
  ghost predicate OrderOk(ns: Nodes, p: Plan) {
    forall v: nat, u: nat, r: nat :: v < |ns| && u in ns[v].users && v in ListOf(p.lists, r) && u in ListOf(p.lists, r) ==>
      FirstIndex(ListOf(p.lists, r), u) < FirstIndex(ListOf(p.lists, r), v)
  }

  ghost predicate PlanOk(ns: Nodes, g: Cfg, DT: DomTree, p: Plan)
    reads DT
  {
    MappedOk(ns, g, DT, p.mapped) && ListsOk(ns, p) && PlacedOk(ns, g, DT, p.mapped) && OrderOk(ns, p)
  }

  function Place(p: Plan, v: nat, d: nat): Plan {
    Plan(p.mapped[v := d], p.lists[d := ListOf(p.lists, d) + [v]])
  }

  lemma PlaceNeeds(ns: Nodes, g: Cfg, mapped: map<nat, nat>, v: nat, d: nat, w: nat)
    requires v !in mapped && w < |ns| && UsersMapped(ns, mapped, w)
    ensures UsersMapped(ns, mapped[v := d], w)
    ensures forall u, r: nat :: u in ns[w].users ==> (NeededIn(ns, g, mapped[v := d], w, u, r) <==> NeededIn(ns, g, mapped, w, u, r))
  {
    forall u, r: nat | u in ns[w].users ensures NeededIn(ns, g, mapped[v := d], w, u, r) <==> NeededIn(ns, g, mapped, w, u, r) {
      if IsDataUser(ns, u) {
        assert u in mapped;
      }
    }
  }

  lemma NeedsStay(ns: Nodes, g: Cfg, DT: DomTree, mapped: map<nat, nat>, v: nat, d: nat, w: nat, c: nat)
    requires DT.Valid() && v !in mapped && w < |ns| && UsersMapped(ns, mapped, w)
    ensures AboveNeeds(ns, g, DT, mapped[v := d], w, c) <==> AboveNeeds(ns, g, DT, mapped, w, c)
  {
    hide NeededIn, UsersMapped, DomTree.Above, DomTree.Valid;
    PlaceNeeds(ns, g, mapped, v, d, w);
  }

  lemma NeedsKnown(ns: Nodes, g: Cfg, DT: DomTree, mapped: map<nat, nat>, v: nat, d: nat)
    requires DT.Valid() && v < |ns| && AboveNeeds(ns, g, DT, mapped, v, d)
    ensures d in DT.nodeToIdx
  {
  }

  lemma LowestStays(ns: Nodes, g: Cfg, DT: DomTree, mapped: map<nat, nat>, v: nat, d: nat, w: nat, e: nat)
    requires DT.Valid() && v !in mapped && w < |ns| && UsersMapped(ns, mapped, w) && Lowest(ns, g, DT, mapped, w, e)
    ensures Lowest(ns, g, DT, mapped[v := d], w, e)
  {
    hide AboveNeeds, UsersMapped, DomTree.Above, DomTree.Valid;
    NeedsStay(ns, g, DT, mapped, v, d, w, e);
    NeedsKnown(ns, g, DT, mapped, w, e);
    forall c | c in DT.nodeToIdx && AboveNeeds(ns, g, DT, mapped[v := d], w, c) ensures DT.Above(c, e) {
      NeedsStay(ns, g, DT, mapped, v, d, w, c);
    }
  }

  // The nearest common dominator of the collected regions is the lowest one.
  lemma NearestIsLowest(ns: Nodes, rank: seq<nat>, g: Cfg, DT: DomTree, mapped: map<nat, nat>, v: nat, rs: seq<nat>,
          d: nat)
    requires Schedulable(ns, rank, g) && MappedOk(ns, g, DT, mapped) && v < |ns|
    requires RegionsOf(ns, g, mapped, v, ns[v].users, rs)
    requires AllHang(DT, rs) && d in DT.nodeToIdx && AboveAll(DT, d, rs)
    requires forall c :: c in DT.nodeToIdx && AboveAll(DT, c, rs) ==> DT.Above(c, d)
    ensures Lowest(ns, g, DT, mapped, v, d)
  {
    hide NeededIn, Schedulable, DomTree.Valid, DomTree.Above, DomTree.Hangs;
    forall u: nat, r: nat | u in ns[v].users && NeededIn(ns, g, mapped, v, u, r)
      ensures r in DT.nodeToIdx && DT.Hangs(r) && DT.Above(d, r)
    {
      assert r in rs;
    }
    forall c | c in DT.nodeToIdx && AboveNeeds(ns, g, DT, mapped, v, c) ensures DT.Above(c, d) {
      forall k | 0 <= k < |rs| ensures DT.Above(c, rs[k]) {
        var r: nat := rs[k];
        assert r in rs;
      }
    }
  }

  lemma RegionsKnown(ns: Nodes, rank: seq<nat>, g: Cfg, DT: DomTree, mapped: map<nat, nat>, v: nat, rs: seq<nat>)
    requires Schedulable(ns, rank, g) && MappedOk(ns, g, DT, mapped) && v < |ns|
    requires RegionsOf(ns, g, mapped, v, ns[v].users, rs)
    ensures AllHang(DT, rs)
  {
    hide NeededIn;
    forall k | 0 <= k < |rs| ensures rs[k] in DT.nodeToIdx && DT.Hangs(rs[k]) {
      var r: nat := rs[k];
      assert r in rs;
      var u :| u in ns[v].users && NeededIn(ns, g, mapped, v, u, r);
      NeededIsRegion(ns, rank, g, mapped, v, u, r);
    }
  }

  lemma PlaceLists(ns: Nodes, p: Plan, v: nat, d: nat)
    requires ListsOk(ns, p) && v !in p.mapped && v < |ns| && IsData(ns[v].kind)
    ensures ListsOk(ns, Place(p, v, d))
  {
    var p' := Place(p, v, d);
    forall r: nat
      ensures Distinct(ListOf(p'.lists, r))
      ensures forall x: nat :: x in ListOf(p'.lists, r) <==> x in p'.mapped && x < |ns| && IsData(ns[x].kind) && p'.mapped[x] == r
    {
      var xs := ListOf(p.lists, r);
      assert Distinct(xs) && v !in xs;
      assert ListOf(p'.lists, r) == if r == d then xs + [v] else xs;
    }
  }

  lemma PlaceOrder(ns: Nodes, p: Plan, v: nat, d: nat)
    requires ListsOk(ns, p) && OrderOk(ns, p) && v !in p.mapped && v < |ns| && v !in ns[v].users
    requires forall w :: w in p.mapped && w < |ns| && IsData(ns[w].kind) ==> v !in ns[w].users
    ensures OrderOk(ns, Place(p, v, d))
  {
    var p' := Place(p, v, d);
    forall w: nat, u: nat, r: nat | w < |ns| && u in ns[w].users && w in ListOf(p'.lists, r) && u in ListOf(p'.lists, r)
      ensures FirstIndex(ListOf(p'.lists, r), u) < FirstIndex(ListOf(p'.lists, r), w)
    {
      var xs := ListOf(p.lists, r);
      assert v !in xs;
      if r == d {
        assert ListOf(p'.lists, r) == xs + [v];
        FirstIndexAppend(xs, v, u);
        FirstIndexAppend(xs, v, w);
        if w in xs {
          assert u != v;
        }
      } else {
        assert ListOf(p'.lists, r) == xs;
      }
    }
  }

  // A waiting node uses none of the nodes placed before it, nor itself.
  lemma UsesNoPlaced(ns: Nodes, rank: seq<nat>, g: Cfg, DT: DomTree, mapped: map<nat, nat>, v: nat)
    requires Schedulable(ns, rank, g) && DT.Valid() && PlacedOk(ns, g, DT, mapped) && Used(ns, v) && v !in mapped
    ensures v !in ns[v].users
    ensures forall w :: w in mapped && w < |ns| && IsData(ns[w].kind) ==> v !in ns[w].users
  {
    hide Lowest, Dual, Acyclic;
    NotOwnUser(ns, rank, v);
    assert IsData(ns[v].kind) ==> IsDataUser(ns, v);
  }

  lemma PlaceMapped(ns: Nodes, g: Cfg, DT: DomTree, mapped: map<nat, nat>, v: nat, d: nat)
    requires MappedOk(ns, g, DT, mapped) && Used(ns, v) && v !in mapped && d in DT.nodeToIdx && DT.Hangs(d)
    ensures MappedOk(ns, g, DT, mapped[v := d])
  {
    hide RegionAt;
  }

  // What is above a region that hangs below the start hangs there too.
  lemma LowestHangs(ns: Nodes, rank: seq<nat>, g: Cfg, DT: DomTree, mapped: map<nat, nat>, v: nat, d: nat)
    requires Schedulable(ns, rank, g) && DT.Valid() && Used(ns, v) && UsersMapped(ns, mapped, v)
    requires Lowest(ns, g, DT, mapped, v, d)
    ensures d in DT.nodeToIdx && DT.Hangs(d)
  {
    hide Schedulable, NeededIn;
    var u, r := NeededSomewhere(ns, rank, g, mapped, v);
    AncChain(DT.idomTree, 0, DT.nodeToIdx[d], DT.nodeToIdx[r]);
  }

  lemma PlaceKeepsPlan(ns: Nodes, rank: seq<nat>, g: Cfg, DT: DomTree, p: Plan, v: nat, d: nat)
    requires Schedulable(ns, rank, g) && PlanOk(ns, g, DT, p) && Used(ns, v) && v !in p.mapped
    requires UsersMapped(ns, p.mapped, v) && Lowest(ns, g, DT, p.mapped, v, d)
    ensures PlanOk(ns, g, DT, Place(p, v, d))
  {
    hide UsersMapped, ListsOk, OrderOk, PlacedOk, Schedulable, NeededIn;
    PlaceLists(ns, p, v, d);
    UsesNoPlaced(ns, rank, g, DT, p.mapped, v);
    PlacePlaced(ns, g, DT, p, v, d);
    PlaceOrder(ns, p, v, d);
    LowestHangs(ns, rank, g, DT, p.mapped, v, d);
    PlaceMapped(ns, g, DT, p.mapped, v, d);
  }

  lemma PlacePlaced(ns: Nodes, g: Cfg, DT: DomTree, p: Plan, v: nat, d: nat)
    requires DT.Valid() && PlacedOk(ns, g, DT, p.mapped) && v !in p.mapped && v < |ns|
    requires UsersMapped(ns, p.mapped, v) && Lowest(ns, g, DT, p.mapped, v, d)
    ensures PlacedOk(ns, g, DT, p.mapped[v := d])
  {
    hide Lowest, UsersMapped;
    var mapped' := p.mapped[v := d];
    forall w | w in mapped' && w < |ns| && IsData(ns[w].kind)
      ensures UsersMapped(ns, mapped', w) && Lowest(ns, g, DT, mapped', w, mapped'[w])
    {
      PlaceNeeds(ns, g, p.mapped, v, d, w);
      LowestStays(ns, g, DT, p.mapped, v, d, w, if w == v then d else p.mapped[w]);
    }
  }

  lemma NotOwnUser(ns: Nodes, rank: seq<nat>, v: nat)
    requires Dual(ns) && Acyclic(ns, rank) && v < |ns| && IsData(ns[v].kind)
    requires !Computed(ns[v].kind) ==> ns[v].ops == []
    ensures v !in ns[v].users
  {
    assert forall i :: 0 <= i < |ns[v].ops| ==> ns[v].ops[i] != Some(v) by {
      assert Computed(ns[v].kind) ==> !RankBelow(ns, rank, v, v);
    }
    assert Some(v) !in multiset(ns[v].ops);
    assert ns[v].users[v] == Uses(ns, v, v);
  }

  // ---------------------------------------------------------------- the fixpoint places everything

  // v waits: its data users are mapped and something needs it.
  ghost predicate Waits(ns: Nodes, mapped: map<nat, nat>, v: nat) {
    Used(ns, v) && v !in mapped && UsersMapped(ns, mapped, v)
  }

  function Level(ns: Nodes, rank: seq<nat>, v: nat): nat
    requires v < |ns| == |rank|
  {
    if Computed(ns[v].kind) then 1 + rank[v] else 0
  }

  lemma LevelRises(ns: Nodes, rank: seq<nat>, g: Cfg, v: nat, u: nat)
    requires Schedulable(ns, rank, g) && NoDeadUser(ns) && Used(ns, v) && u in ns[v].users && IsDataUser(ns, u)
    ensures Used(ns, u) && Level(ns, rank, v) < Level(ns, rank, u)
  {
    var i := UserHasSlot(ns, v, u);
    assert UserOk(ns, g, u);
    assert IsData(ns[u].kind);
    assert !DeadHolds(ns, u, i, v);
    assert Computed(ns[u].kind);
    assert RankBelow(ns, rank, v, u);
  }

  function MaxLevel(ns: Nodes, rank: seq<nat>, n: nat): (m: nat)
    requires n <= |ns| == |rank|
    ensures forall v :: 0 <= v < n ==> Level(ns, rank, v) <= m
  {
    if n == 0 then 0 else
      var m := MaxLevel(ns, rank, n - 1);
      if Level(ns, rank, n - 1) > m then Level(ns, rank, n - 1) else m
  }

  // If nothing waits, every used data node is mapped: the ones highest up first.
  lemma {:induction false} NothingWaits(ns: Nodes, rank: seq<nat>, g: Cfg, mapped: map<nat, nat>, v: nat)
    requires Schedulable(ns, rank, g) && NoDeadUser(ns) && Used(ns, v)
    requires forall x: nat :: !Waits(ns, mapped, x)
    ensures v in mapped
    decreases MaxLevel(ns, rank, |ns|) - Level(ns, rank, v)
  {
    hide MaxLevel;
    assert Level(ns, rank, v) <= MaxLevel(ns, rank, |ns|);
    forall u | u in ns[v].users && IsDataUser(ns, u) ensures u in mapped {
      LevelRises(ns, rank, g, v, u);
      assert Level(ns, rank, u) <= MaxLevel(ns, rank, |ns|);
      NothingWaits(ns, rank, g, mapped, u);
    }
    assert !Waits(ns, mapped, v);
  }

  // ---------------------------------------------------------------- the result

  // A scheduled data node is listed exactly once, in the lowest region that
  // dominates all regions needing it, and within a region before its users.
  ghost predicate ValidSchedule(ns: Nodes, g: Cfg, DT: DomTree, mapped: map<nat, nat>, result: map<nat, seq<nat>>)
    requires DT.Valid()
    reads DT
  {
    && (forall r: nat :: Distinct(ListOf(result, r)))
    && (forall v: nat, r: nat :: v in ListOf(result, r) <==> Used(ns, v) && v in mapped && mapped[v] == r)
    && (forall v: nat :: Used(ns, v) && v in mapped ==> Lowest(ns, g, DT, mapped, v, mapped[v]))
    && (forall v :: 0 <= v < |ns| && ns[v].kind.Phi? ==> v in mapped && RegionAt(ns, SlotOr(ns[v].ops, 0)) == Some(mapped[v]))
    && forall v: nat, u: nat, r: nat :: v < |ns| && u in ns[v].users && v in ListOf(result, r) && u in ListOf(result, r) ==>
      FirstIndex(ListOf(result, r), v) < FirstIndex(ListOf(result, r), u)
  }

  ghost predicate AllScheduled(ns: Nodes, mapped: map<nat, nat>) {
    forall v: nat :: Used(ns, v) ==> v in mapped
  }

  // What a dead node holds is never placed: the dead node is a user that has no region.
  lemma DeadUserBlocks(ns: Nodes, rank: seq<nat>, g: Cfg, DT: DomTree, mapped: map<nat, nat>, u: nat, i: nat, v: nat)
    requires Schedulable(ns, rank, g) && MappedOk(ns, g, DT, mapped) && PlacedOk(ns, g, DT, mapped) && DeadHolds(ns, u, i, v)
    ensures Used(ns, v) && v !in mapped
  {
    hide Lowest, Acyclic;
    SlotHasUser(ns, u, i, v);
    assert IsDataUser(ns, u);
    hide Dual;
  }

  // The fixpoint schedules every used data node exactly when no dead node holds one.
  lemma AllScheduledIff(ns: Nodes, rank: seq<nat>, g: Cfg, DT: DomTree, mapped: map<nat, nat>)
    requires Schedulable(ns, rank, g) && MappedOk(ns, g, DT, mapped) && PlacedOk(ns, g, DT, mapped)
    requires forall x: nat :: !Waits(ns, mapped, x)
    ensures AllScheduled(ns, mapped) <==> NoDeadUser(ns)
  {
    hide Schedulable, MappedOk, PlacedOk, Waits, Used, DeadHolds;
    if NoDeadUser(ns) {
      forall v: nat | Used(ns, v) ensures v in mapped {
        NothingWaits(ns, rank, g, mapped, v);
      }
    } else {
      var u: nat, i: nat, v: nat :| DeadHolds(ns, u, i, v);
      DeadUserBlocks(ns, rank, g, DT, mapped, u, i, v);
    }
  }

  lemma ReversedOrder(ns: Nodes, p: Plan, result: map<nat, seq<nat>>, v: nat, u: nat, r: nat)
    requires ListsOk(ns, p) && OrderOk(ns, p) && ListOf(result, r) == Reversed(ListOf(p.lists, r))
    requires v < |ns| && u in ns[v].users && v in ListOf(result, r) && u in ListOf(result, r)
    ensures FirstIndex(ListOf(result, r), v) < FirstIndex(ListOf(result, r), u)
  {
    hide FirstIndex, Reversed;
    assert Distinct(ListOf(p.lists, r));
    ReversedElems(ListOf(p.lists, r));
    ReversedIndex(ListOf(p.lists, r), u);
    ReversedIndex(ListOf(p.lists, r), v);
  }

  lemma ReversedLists(ns: Nodes, p: Plan, result: map<nat, seq<nat>>)
    requires ListsOk(ns, p) && forall r: nat :: ListOf(result, r) == Reversed(ListOf(p.lists, r))
    ensures forall r: nat :: Distinct(ListOf(result, r))
    ensures forall v: nat, r: nat :: v in ListOf(result, r) <==> v in p.mapped && v < |ns| && IsData(ns[v].kind) && p.mapped[v] == r
  {
    hide Reversed;
    forall r: nat ensures Distinct(ListOf(result, r)) && forall v: nat :: v in ListOf(result, r) <==> v in ListOf(p.lists, r) {
      assert Distinct(ListOf(p.lists, r));
      ReversedElems(ListOf(p.lists, r));
    }
  }

  lemma PlanIsSchedule(ns: Nodes, rank: seq<nat>, g: Cfg, DT: DomTree, p: Plan, result: map<nat, seq<nat>>)
    requires Schedulable(ns, rank, g) && PlanOk(ns, g, DT, p) && forall x: nat :: !Waits(ns, p.mapped, x)
    requires forall r: nat :: ListOf(result, r) == Reversed(ListOf(p.lists, r))
    ensures ValidSchedule(ns, g, DT, p.mapped, result)
    ensures AllScheduled(ns, p.mapped) <==> NoDeadUser(ns)
  {
    hide Schedulable, Lowest, UsersMapped, Reversed, FirstIndex, OrderOk, ListsOk, AllScheduled, NoDeadUser;
    ReversedLists(ns, p, result);
    AllScheduledIff(ns, rank, g, DT, p.mapped);
    forall v: nat, u: nat, r: nat | v < |ns| && u in ns[v].users && v in ListOf(result, r) && u in ListOf(result, r)
      ensures FirstIndex(ListOf(result, r), v) < FirstIndex(ListOf(result, r), u)
    {
      ReversedOrder(ns, p, result, v, u, r);
    }
  }

  // ---------------------------------------------------------------- the algorithm

  // Phis stay in their own region.
  method MapPhis(F: Graph, g: Cfg, DT: DomTree, ghost rank: seq<nat>) returns (mapped: map<nat, nat>)
    requires Schedulable(F.nodes, rank, g) && Covers(DT, g)
    ensures MappedOk(F.nodes, g, DT, mapped)
    ensures forall v :: v in mapped ==> v < |F.nodes| && IsPhi(F.nodes, v)
  {
    hide Dual, Acyclic;
    mapped := map[];
    for v := 0 to |F.nodes|
      invariant forall x: nat :: x in mapped <==> x < v && IsPhi(F.nodes, x)
      invariant forall x :: x in mapped ==>
        mapped[x] < |g.succs| && RegionAt(F.nodes, SlotOr(F.nodes[x].ops, 0)) == Some(mapped[x])
    {
      if F.nodes[v].kind.Phi? {
        assert UserOk(F.nodes, g, v);
        mapped := mapped[v := RegionAt(F.nodes, SlotOr(F.nodes[v].ops, 0)).value];
      }
    }
  }

  ghost predicate IsPhi(ns: Nodes, v: nat) {
    v < |ns| && ns[v].kind.Phi?
  }

  lemma FirstPlan(ns: Nodes, g: Cfg, DT: DomTree, mapped: map<nat, nat>)
    requires MappedOk(ns, g, DT, mapped) && forall v :: v in mapped ==> IsPhi(ns, v)
    ensures PlanOk(ns, g, DT, Plan(mapped, map[]))
  {
  }

  // One node of a pass: place it if it waits.
  method TryPlace(F: Graph, g: Cfg, DT: DomTree, p: Plan, v: nat, ghost rank: seq<nat>) returns (placed: bool, p': Plan)
    requires Schedulable(F.nodes, rank, g) && PlanOk(F.nodes, g, DT, p) && v < |F.nodes| && v !in p.mapped
    ensures PlanOk(F.nodes, g, DT, p') && (placed <==> Waits(F.nodes, p.mapped, v))
    ensures if placed then p'.mapped.Keys == p.mapped.Keys + {v} else p' == p
  {
    hide NeededIn, Schedulable, ListsOk, OrderOk, PlacedOk, Lowest, AboveAll;
    var complete, rs := GetUserRegions(F, g, p.mapped, v, rank);
    WaitsIffRegions(F.nodes, rank, g, DT, p.mapped, v, complete, rs);
    if complete && rs != [] {
      RegionsKnown(F.nodes, rank, g, DT, p.mapped, v, rs);
      var d := NearestCommonDominator(DT, rs);
      NearestIsLowest(F.nodes, rank, g, DT, p.mapped, v, rs, d);
      PlaceKeepsPlan(F.nodes, rank, g, DT, p, v, d);
      return true, Place(p, v, d);
    }
    return false, p;
  }

  lemma WaitsIffRegions(ns: Nodes, rank: seq<nat>, g: Cfg, DT: DomTree, mapped: map<nat, nat>, v: nat,
          complete: bool, rs: seq<nat>)
    requires Schedulable(ns, rank, g) && MappedOk(ns, g, DT, mapped) && v < |ns| && v !in mapped
    requires ns[v].kind.IsControl() ==> complete && rs == []
    requires !ns[v].kind.IsControl() ==> (complete <==> UsersMapped(ns, mapped, v)) && RegionsOf(ns, g, mapped, v, ns[v].users, rs)
    ensures complete && rs != [] <==> Waits(ns, mapped, v)
    ensures complete && rs != [] ==> !ns[v].kind.IsControl()
  {
    hide NeededIn, UsersMapped, Schedulable;
    if Waits(ns, mapped, v) {
      var u, r := NeededSomewhere(ns, rank, g, mapped, v);
      assert r in rs;
    }
    if complete && rs != [] {
      var r: nat := rs[0];
      assert r in rs;
    }
  }

  lemma FewMapped(ns: Nodes, mapped: map<nat, nat>)
    requires forall v :: v in mapped ==> v < |ns|
    ensures |mapped| <= |ns|
  {
    SetBelow(mapped.Keys, |ns|);
  }

  method DataSchedule(F: Graph, g: Cfg, DT: DomTree, ghost rank: seq<nat>) returns (result: map<nat, seq<nat>>,
          mapped: map<nat, nat>)
    requires Schedulable(F.nodes, rank, g) && Covers(DT, g)
    ensures ValidSchedule(F.nodes, g, DT, mapped, result)
    ensures AllScheduled(F.nodes, mapped) <==> NoDeadUser(F.nodes)
  {
    hide Schedulable, MappedOk, ListsOk, OrderOk, PlacedOk, Waits;
    var phis := MapPhis(F, g, DT, rank);
    FirstPlan(F.nodes, g, DT, phis);
    var p := Plan(phis, map[]);
    var wasMapped := true;
    PlanFits(F.nodes, g, DT, p);
    while wasMapped
      invariant PlanOk(F.nodes, g, DT, p) && |p.mapped| <= |F.nodes|
      invariant !wasMapped ==> forall x: nat :: !Waits(F.nodes, p.mapped, x)
      decreases |F.nodes| - |p.mapped|, wasMapped
    {
      wasMapped, p := Pass(F, g, DT, p, rank);
    }
    result := map r | r in p.lists :: Reversed(p.lists[r]);
    mapped := p.mapped;
    PlanIsSchedule(F.nodes, rank, g, DT, p, result);
  }

  lemma PlanFits(ns: Nodes, g: Cfg, DT: DomTree, p: Plan)
    requires PlanOk(ns, g, DT, p)
    ensures |p.mapped| <= |ns|
  {
    FewMapped(ns, p.mapped);
  }

  // One pass over all nodes.
  method Pass(F: Graph, g: Cfg, DT: DomTree, p: Plan, ghost rank: seq<nat>) returns (wasMapped: bool, p': Plan)
    requires Schedulable(F.nodes, rank, g) && PlanOk(F.nodes, g, DT, p)
    ensures PlanOk(F.nodes, g, DT, p') && |p'.mapped| <= |F.nodes|
    ensures wasMapped ==> |p'.mapped| > |p.mapped|
    ensures !wasMapped ==> p' == p && forall x: nat :: !Waits(F.nodes, p.mapped, x)
  {
    hide Schedulable, PlanOk, UsersMapped;
    wasMapped, p' := false, p;
    for v := 0 to |F.nodes|
      invariant PlanOk(F.nodes, g, DT, p')
      invariant |p'.mapped.Keys| >= |p.mapped.Keys| && (wasMapped ==> |p'.mapped.Keys| > |p.mapped.Keys|)
      invariant !wasMapped ==> p' == p && forall x: nat :: x < v ==> !Waits(F.nodes, p.mapped, x)
    {
      if v in p'.mapped {
        continue;
      }
      var placed, q := TryPlace(F, g, DT, p', v, rank);
      wasMapped := wasMapped || placed;
      p' := q;
    }
    PlanFits(F.nodes, g, DT, p');
  }

  // With an exact dominator tree, a definition's region dominates every region
  // that needs it.
  lemma DefinitionsDominateUses(ns: Nodes, g: Cfg, DT: DomTree, mapped: map<nat, nat>, result: map<nat, seq<nat>>,
          v: nat, u: nat, r: nat)
    requires Covers(DT, g) && DT.ExactFor(g) && ValidSchedule(ns, g, DT, mapped, result)
    requires Used(ns, v) && v in mapped && u in ns[v].users && NeededIn(ns, g, mapped, v, u, r)
    ensures Dominates(g, mapped[v], r)
  {
    hide NeededIn;
    assert Lowest(ns, g, DT, mapped, v, mapped[v]);
  }

  // ---------------------------------------------------------------- slot by slot

  // X is the region node that control user u works in: it is in the first slot of a
  // return or branch, in the last one of a call or check.
  lemma ControlNeeds(ns: Nodes, g: Cfg, mapped: map<nat, nat>, v: nat, u: nat, k: nat, X: nat)
    requires u < |ns| && k < |ns[u].ops| && ns[u].ops[k] == Some(X) && X < |ns| && ns[X].kind.IsRegion()
    requires if ns[u].kind.Ret? || ns[u].kind.If? then k == 0
      else (ns[u].kind.Call? || ns[u].kind.NullCheck? || ns[u].kind.BoundsCheck?) && k == |ns[u].ops| - 1
    ensures forall r: nat :: NeededIn(ns, g, mapped, v, u, r) <==> r == ns[X].kind.region
  {
  }

  // A phi of region node X takes its k-th value from the k-th predecessor of that region.
  lemma PhiNeedsFrom(ns: Nodes, g: Cfg, mapped: map<nat, nat>, v: nat, u: nat, X: nat)
    requires u < |ns| && ns[u].kind.Phi? && ns[u].ops != [] && ns[u].ops[0] == Some(X)
    requires X < |ns| && ns[X].kind.IsRegion() && ns[X].kind.region < |g.preds|
    ensures forall r: nat :: NeededIn(ns, g, mapped, v, u, r) <==>
      exists k: nat :: k < |g.preds[ns[X].kind.region]| && k < |ns[u].ops[1..]|
        && g.preds[ns[X].kind.region][k] == r && ns[u].ops[1..][k] == Some(v)
  {
    var preds, vals := g.preds[ns[X].kind.region], ns[u].ops[1..];
    forall r: nat
      ensures NeededIn(ns, g, mapped, v, u, r) <==> exists k: nat :: k < |preds| && k < |vals| && preds[k] == r && vals[k] == Some(v)
    {
      if NeededIn(ns, g, mapped, v, u, r) {
        var i :| 1 <= i < |ns[u].ops| && PhiNeeds(ns, g, u, i, v, r);
        assert preds[i - 1] == r && vals[i - 1] == Some(v);
      }
      if k: nat :| k < |preds| && k < |vals| && preds[k] == r && vals[k] == Some(v) {
        assert PhiNeeds(ns, g, u, k + 1, v, r);
      }
    }
  }

  // Any other user needs its operands in the region it is placed in.
  lemma OtherNeeds(ns: Nodes, g: Cfg, mapped: map<nat, nat>, v: nat, u: nat)
    requires u < |ns| && !ns[u].kind.Ret? && !ns[u].kind.If? && !ns[u].kind.Call? && !ns[u].kind.Phi?
    requires !ns[u].kind.NullCheck? && !ns[u].kind.BoundsCheck?
    ensures forall r: nat :: NeededIn(ns, g, mapped, v, u, r) <==> u in mapped && mapped[u] == r
  {
  }

  lemma PlacedAboveNeed(ns: Nodes, g: Cfg, DT: DomTree, mapped: map<nat, nat>, result: map<nat, seq<nat>>, v: nat,
          u: nat, r: nat)
    requires Covers(DT, g) && ValidSchedule(ns, g, DT, mapped, result)
    requires Used(ns, v) && v in mapped && u in ns[v].users && NeededIn(ns, g, mapped, v, u, r)
    ensures DT.Valid() && mapped[v] in DT.nodeToIdx && r in DT.nodeToIdx && DT.Hangs(r) && DT.Above(mapped[v], r)
  {
    hide NeededIn;
    assert Lowest(ns, g, DT, mapped, v, mapped[v]);
  }

  // What is needed in one region only is placed there.
  lemma PlacedAtOnlyNeed(ns: Nodes, g: Cfg, DT: DomTree, mapped: map<nat, nat>, result: map<nat, seq<nat>>, v: nat,
          u: nat, r: nat)
    requires Covers(DT, g) && ValidSchedule(ns, g, DT, mapped, result)
    requires Used(ns, v) && v in mapped && u in ns[v].users && NeededIn(ns, g, mapped, v, u, r)
    requires forall w: nat, q: nat :: w in ns[v].users && NeededIn(ns, g, mapped, v, w, q) ==> q == r
    ensures mapped[v] == r
  {
    hide NeededIn, ValidSchedule, Covers;
    PlacedAboveNeed(ns, g, DT, mapped, result, v, u, r);
    OnlyNeedAbove(ns, g, DT, mapped, result, v, r);
    SameRegion(DT, mapped[v], r);
  }

  lemma OnlyNeedAbove(ns: Nodes, g: Cfg, DT: DomTree, mapped: map<nat, nat>, result: map<nat, seq<nat>>, v: nat, r: nat)
    requires Covers(DT, g) && ValidSchedule(ns, g, DT, mapped, result)
    requires Used(ns, v) && v in mapped && r in DT.nodeToIdx && DT.Hangs(r)
    requires forall w: nat, q: nat :: w in ns[v].users && NeededIn(ns, g, mapped, v, w, q) ==> q == r
    ensures mapped[v] in DT.nodeToIdx && DT.Above(r, mapped[v])
  {
    hide NeededIn, DomTree.Hangs;
    assert Lowest(ns, g, DT, mapped, v, mapped[v]);
    assert DT.Above(r, r);
    assert AboveNeeds(ns, g, DT, mapped, v, r);
  }

  lemma SameRegion(DT: DomTree, a: nat, b: nat)
    requires DT.Valid() && a in DT.nodeToIdx && b in DT.nodeToIdx && DT.Above(a, b) && DT.Above(b, a)
    ensures a == b
  {
    AncAntisym(DT.idomTree, DT.nodeToIdx[a], DT.nodeToIdx[b]);
    assert DT.idxToNode[DT.nodeToIdx[a]] == a && DT.idxToNode[DT.nodeToIdx[b]] == b;
  }

  // A value held by a return, branch, call or check is placed above the region whose
  // node that user names, and in that region if nothing else uses it.
  lemma ControlUseDominated(ns: Nodes, g: Cfg, DT: DomTree, mapped: map<nat, nat>, result: map<nat, seq<nat>>, v: nat,
          u: nat, i: nat, k: nat, X: nat)
    requires Dual(ns) && Covers(DT, g) && ValidSchedule(ns, g, DT, mapped, result) && Used(ns, v) && v in mapped
    requires u < |ns| && i < |ns[u].ops| && ns[u].ops[i] == Some(v)
    requires k < |ns[u].ops| && ns[u].ops[k] == Some(X) && X < |ns| && ns[X].kind.IsRegion()
    requires if ns[u].kind.Ret? || ns[u].kind.If? then k == 0
      else (ns[u].kind.Call? || ns[u].kind.NullCheck? || ns[u].kind.BoundsCheck?) && k == |ns[u].ops| - 1
    ensures var r := ns[X].kind.region; mapped[v] in DT.nodeToIdx && r in DT.nodeToIdx && DT.Above(mapped[v], r)
    ensures DT.ExactFor(g) ==> Dominates(g, mapped[v], ns[X].kind.region)
    ensures ns[u].kind.If? || Source(ns, u) == Some(ns[X].kind.region)
    ensures (forall w: nat :: w in ns[v].users ==> w == u) ==> mapped[v] == ns[X].kind.region
  {
    SlotHasUser(ns, u, i, v);
    ControlNeeds(ns, g, mapped, v, u, k, X);
    hide NeededIn, ValidSchedule, Covers, Dual;
    var r: nat := ns[X].kind.region;
    PlacedAboveNeed(ns, g, DT, mapped, result, v, u, r);
    NeedDominated(ns, g, DT, mapped, result, v, u, r);
    if forall w: nat :: w in ns[v].users ==> w == u {
      PlacedAtOnlyNeed(ns, g, DT, mapped, result, v, u, r);
    }
  }

  lemma NeedDominated(ns: Nodes, g: Cfg, DT: DomTree, mapped: map<nat, nat>, result: map<nat, seq<nat>>, v: nat,
          u: nat, r: nat)
    requires Covers(DT, g) && ValidSchedule(ns, g, DT, mapped, result)
    requires Used(ns, v) && v in mapped && u in ns[v].users && NeededIn(ns, g, mapped, v, u, r)
    ensures DT.ExactFor(g) ==> Dominates(g, mapped[v], r)
  {
    hide NeededIn, ValidSchedule, DomTree.ExactFor;
    if DT.ExactFor(g) {
      DefinitionsDominateUses(ns, g, DT, mapped, result, v, u, r);
    }
  }

  // A value in slot k + 1 of a phi is placed above the k-th predecessor of the region of
  // the phi, and in it if that slot is the only one that holds the value.
  lemma PhiUseDominated(ns: Nodes, g: Cfg, DT: DomTree, mapped: map<nat, nat>, result: map<nat, seq<nat>>, v: nat,
          u: nat, k: nat, X: nat)
    requires Dual(ns) && Covers(DT, g) && ValidSchedule(ns, g, DT, mapped, result) && Used(ns, v) && v in mapped
    requires u < |ns| && ns[u].kind.Phi? && k + 1 < |ns[u].ops| && ns[u].ops[k + 1] == Some(v)
    requires ns[u].ops[0] == Some(X) && X < |ns| && ns[X].kind.IsRegion()
    requires ns[X].kind.region < |g.preds| && k < |g.preds[ns[X].kind.region]|
    ensures var r := g.preds[ns[X].kind.region][k];
      mapped[v] in DT.nodeToIdx && r in DT.nodeToIdx && DT.Above(mapped[v], r)
    ensures DT.ExactFor(g) ==> Dominates(g, mapped[v], g.preds[ns[X].kind.region][k])
    ensures OnlySlot(ns, v, u, k + 1) ==> mapped[v] == g.preds[ns[X].kind.region][k]
  {
    PhiSlotNeeds(ns, g, mapped, v, u, k, X);
    hide NeededIn, ValidSchedule, Covers, Dual, OnlySlot;
    var r: nat := g.preds[ns[X].kind.region][k];
    PlacedAboveNeed(ns, g, DT, mapped, result, v, u, r);
    NeedDominated(ns, g, DT, mapped, result, v, u, r);
    if OnlySlot(ns, v, u, k + 1) {
      PhiOnlyNeed(ns, g, mapped, v, u, k, X);
      PlacedAtOnlyNeed(ns, g, DT, mapped, result, v, u, r);
    }
  }

  lemma PhiSlotNeeds(ns: Nodes, g: Cfg, mapped: map<nat, nat>, v: nat, u: nat, k: nat, X: nat)
    requires Dual(ns) && u < |ns| && ns[u].kind.Phi? && k + 1 < |ns[u].ops| && ns[u].ops[k + 1] == Some(v)
    requires ns[u].ops[0] == Some(X) && X < |ns| && ns[X].kind.IsRegion()
    requires ns[X].kind.region < |g.preds| && k < |g.preds[ns[X].kind.region]|
    ensures v < |ns| && u in ns[v].users && NeededIn(ns, g, mapped, v, u, g.preds[ns[X].kind.region][k])
  {
    SlotHasUser(ns, u, k + 1, v);
    PhiNeedsFrom(ns, g, mapped, v, u, X);
    hide NeededIn, Dual;
    assert ns[u].ops[1..][k] == Some(v);
  }

  // No other slot of u, and no other node, holds v.
  ghost predicate OnlySlot(ns: Nodes, v: nat, u: nat, i: nat)
    requires v < |ns| && u < |ns|
  {
    && (forall w: nat :: w in ns[v].users ==> w == u)
    && forall j: nat :: j < |ns[u].ops| && ns[u].ops[j] == Some(v) ==> j == i
  }

  lemma PhiOnlyNeed(ns: Nodes, g: Cfg, mapped: map<nat, nat>, v: nat, u: nat, k: nat, X: nat)
    requires v < |ns| && u < |ns| && ns[u].kind.Phi? && k + 1 < |ns[u].ops| && ns[u].ops[0] == Some(X)
    requires X < |ns| && ns[X].kind.IsRegion() && ns[X].kind.region < |g.preds| && k < |g.preds[ns[X].kind.region]|
    requires OnlySlot(ns, v, u, k + 1)
    ensures forall w: nat, q: nat :: w in ns[v].users && NeededIn(ns, g, mapped, v, w, q) ==>
      q == g.preds[ns[X].kind.region][k]
  {
    PhiNeedsFrom(ns, g, mapped, v, u, X);
    hide NeededIn;
    forall w: nat, q: nat | w in ns[v].users && NeededIn(ns, g, mapped, v, w, q) ensures q == g.preds[ns[X].kind.region][k] {
      var j: nat :| j < |g.preds[ns[X].kind.region]| && j < |ns[u].ops[1..]|
        && g.preds[ns[X].kind.region][j] == q && ns[u].ops[1..][j] == Some(v);
      assert ns[u].ops[j + 1] == Some(v);
    }
  }

  // A value held by a scheduled node is placed above the region of that node, and in it
  // if nothing else uses it.
  lemma DataUseDominated(ns: Nodes, g: Cfg, DT: DomTree, mapped: map<nat, nat>, result: map<nat, seq<nat>>, v: nat,
          u: nat, i: nat)
    requires Dual(ns) && Covers(DT, g) && ValidSchedule(ns, g, DT, mapped, result) && Used(ns, v) && v in mapped
    requires u < |ns| && IsData(ns[u].kind) && u in mapped && i < |ns[u].ops| && ns[u].ops[i] == Some(v)
    ensures mapped[v] in DT.nodeToIdx && mapped[u] in DT.nodeToIdx && DT.Above(mapped[v], mapped[u])
    ensures (forall w: nat :: w in ns[v].users ==> w == u) ==> mapped[v] == mapped[u]
  {
    SlotHasUser(ns, u, i, v);
    OtherNeeds(ns, g, mapped, v, u);
    hide NeededIn, ValidSchedule, Covers, Dual;
    PlacedAboveNeed(ns, g, DT, mapped, result, v, u, mapped[u]);
    if forall w: nat :: w in ns[v].users ==> w == u {
      PlacedAtOnlyNeed(ns, g, DT, mapped, result, v, u, mapped[u]);
    }
  }
}
