// The linear order of the regions (Function::linearize, src/Function.cpp:251-281).
module LinearOrder {
  import opened SeqUtil
  import opened Tree
  import opened ControlFlow
  import opened DepthFirstSearch
  import opened NaturalLoops
  import opened LoopTree
  import opened Dominators

  // ---------------------------------------------------------------- groups

  // The header of the smallest loop that holds v, or v itself outside all loops.
  function Lead(hs: seq<nat>, bb: map<nat, nat>, v: nat): nat {
    if v in bb && bb[v] < |hs| then hs[bb[v]] else v
  }

  // Regions of one group are listed together.
  function Group(loops: seq<Loop>, bb: map<nat, nat>, v: nat): seq<nat> {
    if v in bb && bb[v] < |loops| then loops[bb[v]].blocks else [v]
  }

  lemma GroupMembers(g: Cfg, hs: seq<nat>, loops: seq<Loop>, bb: map<nat, nat>, top: seq<nat>, v: nat)
    requires Nest(g, hs, loops, bb, top) && v < |g.succs|
    ensures Distinct(Group(loops, bb, v))
    ensures v in bb ==> bb[v] < |loops|
    ensures forall w: nat :: w in Group(loops, bb, v) <==> w < |g.succs| && Lead(hs, bb, w) == Lead(hs, bb, v)
  {
    hide LatchesOk, SubLoopsOk, ParentOf;
    if v in bb {
      assert MapsTo(bb, v, bb[v]);
    }
    forall w: nat ensures w in Group(loops, bb, v) <==> w < |g.succs| && Lead(hs, bb, w) == Lead(hs, bb, v) {
      if v !in bb {
        LeadAlone(g, hs, loops, bb, top, v, w);
      } else if w !in bb {
        LeadAlone(g, hs, loops, bb, top, w, v);
      }
      if w in bb {
        assert MapsTo(bb, w, bb[w]);
        InLoopBounds(g, hs[bb[w]], w);
      }
    }
  }

  // A region outside all loops leads nobody else.
  lemma LeadAlone(g: Cfg, hs: seq<nat>, loops: seq<Loop>, bb: map<nat, nat>, top: seq<nat>, v: nat, w: nat)
    requires Nest(g, hs, loops, bb, top) && v !in bb
    ensures Lead(hs, bb, w) == v <==> w == v
  {
    hide LatchesOk, SubLoopsOk, BlocksOk, ParentOf;
    if w in bb {
      assert MapsTo(bb, w, bb[w]);
      HeaderInnermost(g, hs, bb[w]);
      assert MapsTo(bb, hs[bb[w]], bb[w]);
    }
  }

  // ---------------------------------------------------------------- the order of the groups

  // Scanning order, a member of x's group turns up before any of y's.
  ghost predicate ComesFirst(order: seq<nat>, hs: seq<nat>, bb: map<nat, nat>, x: nat, y: nat) {
    exists i: nat :: Announces(order, hs, bb, i, x, y)
  }

  ghost predicate Announces(order: seq<nat>, hs: seq<nat>, bb: map<nat, nat>, i: nat, x: nat, y: nat) {
    && i < |order| && Lead(hs, bb, order[i]) == Lead(hs, bb, x)
    && forall j :: 0 <= j <= i ==> Lead(hs, bb, order[j]) != Lead(hs, bb, y)
  }

  lemma ComesFirstAsym(order: seq<nat>, hs: seq<nat>, bb: map<nat, nat>, x: nat, y: nat)
    requires ComesFirst(order, hs, bb, x, y)
    ensures !ComesFirst(order, hs, bb, y, x)
  {
    hide Lead;
    var i: nat :| Announces(order, hs, bb, i, x, y);
    forall j: nat ensures !Announces(order, hs, bb, j, y, x) {
      assert i <= j || j <= i;
    }
  }

  // ---------------------------------------------------------------- the list under construction

  ghost predicate AppearsAt(xs: seq<nat>, k: nat, block: seq<nat>) {
    k + |block| <= |xs| && xs[k..k + |block|] == block
  }

  ghost predicate Contiguous(xs: seq<nat>, block: seq<nat>) {
    exists k: nat :: AppearsAt(xs, k, block)
  }

  // The first k regions of order have been placed with their groups.
  ghost predicate Listed(g: Cfg, hs: seq<nat>, loops: seq<Loop>, bb: map<nat, nat>, order: seq<nat>, k: nat,
          result: seq<nat>)
    requires k <= |order|
  {
    && Distinct(result)
    && (forall v: nat :: v in result <==> v < |g.succs| && Met(hs, bb, order, k, v))
    && (forall i :: 0 <= i < |loops| && loops[i].blocks != [] && loops[i].blocks[0] in result ==> Contiguous(result, loops[i].blocks))
    && forall p, q :: 0 <= p < q < |result| && Lead(hs, bb, result[p]) != Lead(hs, bb, result[q]) ==>
      ComesFirst(order, hs, bb, result[p], result[q])
  }

  // v's group has a member among the first k of order.
  ghost predicate Met(hs: seq<nat>, bb: map<nat, nat>, order: seq<nat>, k: nat, v: nat)
    requires k <= |order|
  {
    exists i :: 0 <= i < k && Lead(hs, bb, order[i]) == Lead(hs, bb, v)
  }

  lemma MetNext(hs: seq<nat>, bb: map<nat, nat>, order: seq<nat>, k: nat, v: nat)
    requires k < |order|
    ensures Met(hs, bb, order, k + 1, v) <==> Met(hs, bb, order, k, v) || Lead(hs, bb, order[k]) == Lead(hs, bb, v)
  {
    hide Lead;
  }

  lemma ContiguousStays(xs: seq<nat>, ys: seq<nat>, block: seq<nat>)
    requires Contiguous(xs, block)
    ensures Contiguous(xs + ys, block)
  {
    var k: nat :| AppearsAt(xs, k, block);
    assert (xs + ys)[k..k + |block|] == xs[k..k + |block|];
    assert AppearsAt(xs + ys, k, block);
  }

  lemma ContiguousEnd(xs: seq<nat>, block: seq<nat>)
    ensures Contiguous(xs + block, block)
  {
    assert AppearsAt(xs + block, |xs|, block);
  }

  // A region already placed is skipped.
  lemma SkipListed(g: Cfg, hs: seq<nat>, loops: seq<Loop>, bb: map<nat, nat>, order: seq<nat>, k: nat, result: seq<nat>)
    requires k < |order| && Listed(g, hs, loops, bb, order, k, result) && order[k] in result
    ensures Listed(g, hs, loops, bb, order, k + 1, result)
  {
    hide Lead, ComesFirst, Contiguous;
    forall v: nat ensures v in result <==> v < |g.succs| && Met(hs, bb, order, k + 1, v) {
      MetNext(hs, bb, order, k, v);
    }
  }

  lemma NewGroup(g: Cfg, hs: seq<nat>, loops: seq<Loop>, bb: map<nat, nat>, top: seq<nat>, order: seq<nat>, k: nat,
          result: seq<nat>)
    requires Nest(g, hs, loops, bb, top) && k < |order| && order[k] < |g.succs|
    requires Listed(g, hs, loops, bb, order, k, result) && order[k] !in result
    ensures var block := Group(loops, bb, order[k]);
      && Distinct(result + block)
      && (forall v: nat :: v in result + block <==> v < |g.succs| && Met(hs, bb, order, k + 1, v))
      && forall v :: v in block ==> Lead(hs, bb, v) == Lead(hs, bb, order[k])
  {
    GroupMembers(g, hs, loops, bb, top, order[k]);
    hide Nest, Lead, ComesFirst, Contiguous, Group;
    var block := Group(loops, bb, order[k]);
    forall v | v in block ensures v !in result {
      assert Met(hs, bb, order, k, v) <==> Met(hs, bb, order, k, order[k]);
    }
    DistinctJoin(result, block);
    forall v: nat ensures v in result + block <==> v < |g.succs| && Met(hs, bb, order, k + 1, v) {
      MetNext(hs, bb, order, k, v);
    }
  }

  lemma NewGroupOrder(g: Cfg, hs: seq<nat>, loops: seq<Loop>, bb: map<nat, nat>, order: seq<nat>, k: nat,
          result: seq<nat>, block: seq<nat>, p: nat, q: nat)
    requires k < |order| && order[k] < |g.succs| && Listed(g, hs, loops, bb, order, k, result) && order[k] !in result
    requires forall v :: v in block ==> Lead(hs, bb, v) == Lead(hs, bb, order[k])
    requires p < q < |result + block| && Lead(hs, bb, (result + block)[p]) != Lead(hs, bb, (result + block)[q])
    ensures ComesFirst(order, hs, bb, (result + block)[p], (result + block)[q])
  {
    hide Lead, Contiguous;
    var x, y := (result + block)[p], (result + block)[q];
    if q >= |result| {
      assert y in block;
      assert p < |result| by {
        assert p >= |result| ==> x in block;
      }
      assert x in result;
      var i :| 0 <= i < k && Lead(hs, bb, order[i]) == Lead(hs, bb, x);
      assert !Met(hs, bb, order, k, order[k]);
      assert Announces(order, hs, bb, i, x, y);
    }
  }

  lemma NewGroupBlocks(g: Cfg, hs: seq<nat>, loops: seq<Loop>, bb: map<nat, nat>, top: seq<nat>, order: seq<nat>,
          k: nat, result: seq<nat>, i: nat)
    requires Nest(g, hs, loops, bb, top) && k < |order| && order[k] < |g.succs|
    requires Listed(g, hs, loops, bb, order, k, result)
    requires i < |loops| && loops[i].blocks != [] && loops[i].blocks[0] in result + Group(loops, bb, order[k])
    ensures Contiguous(result + Group(loops, bb, order[k]), loops[i].blocks)
  {
    hide LatchesOk, SubLoopsOk, ParentOf, Innermost, Lead, ComesFirst, Contiguous, Met;
    var block := Group(loops, bb, order[k]);
    if loops[i].blocks[0] in result {
      ContiguousStays(result, block, loops[i].blocks);
    } else {
      var h := loops[i].blocks[0];
      assert MapsTo(bb, h, i);
      if order[k] in bb {
        assert MapsTo(bb, order[k], bb[order[k]]);
        if bb[order[k]] < |loops| {
          assert h in loops[bb[order[k]]].blocks;
          assert MapsTo(bb, h, bb[order[k]]);
        }
      }
      assert block == loops[i].blocks;
      ContiguousEnd(result, block);
    }
  }

  lemma ListGroup(g: Cfg, hs: seq<nat>, loops: seq<Loop>, bb: map<nat, nat>, top: seq<nat>, order: seq<nat>, k: nat,
          result: seq<nat>)
    requires Nest(g, hs, loops, bb, top) && k < |order| && order[k] < |g.succs|
    requires Listed(g, hs, loops, bb, order, k, result) && order[k] !in result
    ensures Listed(g, hs, loops, bb, order, k + 1, result + Group(loops, bb, order[k]))
  {
    hide Nest, Lead, ComesFirst, Contiguous, Group, Met;
    var block := Group(loops, bb, order[k]);
    var result' := result + block;
    NewGroup(g, hs, loops, bb, top, order, k, result);
    forall i | 0 <= i < |loops| && loops[i].blocks != [] && loops[i].blocks[0] in result' ensures Contiguous(result', loops[i].blocks) {
      NewGroupBlocks(g, hs, loops, bb, top, order, k, result, i);
    }
    forall p, q | 0 <= p < q < |result'| && Lead(hs, bb, result'[p]) != Lead(hs, bb, result'[q])
      ensures ComesFirst(order, hs, bb, result'[p], result'[q])
    {
      NewGroupOrder(g, hs, loops, bb, order, k, result, block, p, q);
    }
  }

  // ---------------------------------------------------------------- linearize

  // Every region once, each loop's own blocks together with the header in front,
  // groups in the order in which they turn up in the reversed list.
  ghost predicate Linear(g: Cfg, hs: seq<nat>, loops: seq<Loop>, bb: map<nat, nat>, rpo: seq<nat>, result: seq<nat>) {
    && Distinct(result) && (forall v: nat :: v in result <==> v < |g.succs|)
    && |hs| == |loops|
    && (forall i :: 0 <= i < |loops| ==> loops[i].blocks != [] && loops[i].blocks[0] == hs[i] && Contiguous(result, loops[i].blocks))
    && forall x: nat, y: nat :: x < |g.succs| && y < |g.succs| && Lead(hs, bb, x) != Lead(hs, bb, y) ==>
      (Precedes(result, x, y) <==> ComesFirst(Reversed(rpo), hs, bb, x, y))
  }

  ghost predicate Precedes(xs: seq<nat>, x: nat, y: nat) {
    x in xs && y in xs && FirstIndex(xs, x) < FirstIndex(xs, y)
  }

  lemma AllListed(g: Cfg, hs: seq<nat>, loops: seq<Loop>, bb: map<nat, nat>, top: seq<nat>, rpo: seq<nat>,
          result: seq<nat>)
    requires Nest(g, hs, loops, bb, top) && forall v: nat :: v in rpo <==> v < |g.succs|
    requires Listed(g, hs, loops, bb, Reversed(rpo), |Reversed(rpo)|, result)
    ensures Linear(g, hs, loops, bb, rpo, result)
  {
    hide Lead, Contiguous, ComesFirst, LatchesOk, SubLoopsOk, Innermost;
    var order := Reversed(rpo);
    forall v: nat ensures v in result <==> v < |g.succs| {
      if v < |g.succs| {
        assert v in rpo;
        var i :| 0 <= i < |rpo| && rpo[i] == v;
        assert order[|rpo| - 1 - i] == v;
        assert Met(hs, bb, order, |order|, v);
      }
    }
    forall i | 0 <= i < |loops| ensures loops[i].blocks != [] && loops[i].blocks[0] == hs[i] && Contiguous(result, loops[i].blocks) {
      assert hs[i] in result;
    }
    AllOrdered(g, hs, loops, bb, order, result);
  }

  lemma AllOrdered(g: Cfg, hs: seq<nat>, loops: seq<Loop>, bb: map<nat, nat>, order: seq<nat>, result: seq<nat>)
    requires Listed(g, hs, loops, bb, order, |order|, result) && forall v: nat :: v in result <==> v < |g.succs|
    ensures forall x: nat, y: nat :: x < |g.succs| && y < |g.succs| && Lead(hs, bb, x) != Lead(hs, bb, y) ==>
      (Precedes(result, x, y) <==> ComesFirst(order, hs, bb, x, y))
  {
    hide Lead, Contiguous, ComesFirst, Met;
    forall x: nat, y: nat | x < |g.succs| && y < |g.succs| && Lead(hs, bb, x) != Lead(hs, bb, y)
      ensures Precedes(result, x, y) <==> ComesFirst(order, hs, bb, x, y)
    {
      assert x in result && y in result;
      var p, q := FirstIndex(result, x), FirstIndex(result, y);
      assert result[p] == x && result[q] == y;
      if p < q {
        assert ComesFirst(order, hs, bb, result[p], result[q]);
      } else {
        assert ComesFirst(order, hs, bb, result[q], result[p]);
        ComesFirstAsym(order, hs, bb, y, x);
      }
    }
  }

  method Linearize(g: Cfg, rpo: seq<nat>, LI: LoopInfo, ghost hs: seq<nat>) returns (result: seq<nat>)
    requires Nest(g, hs, LI.loops, LI.bbMap, LI.topLoops)
    requires forall v: nat :: v in rpo <==> v < |g.succs|
    ensures Linear(g, hs, LI.loops, LI.bbMap, rpo, result)
  {
    hide Nest, Lead, Listed;
    var order := Reversed(rpo);
    ReversedElems(rpo);
    result := [];
    var visited: set<nat> := {};
    NothingListed(g, hs, LI, order);
    for k := 0 to |order|
      invariant Listed(g, hs, LI.loops, LI.bbMap, order, k, result)
      invariant forall v :: v in visited <==> v in result
    {
      var R := order[k];
      assert R in order;
      if R in visited {
        SkipListed(g, hs, LI.loops, LI.bbMap, order, k, result);
        continue;
      }
      GroupMembers(g, hs, LI.loops, LI.bbMap, LI.topLoops, R);
      ListGroup(g, hs, LI.loops, LI.bbMap, LI.topLoops, order, k, result);
      if R !in LI.bbMap {
        result := result + [R];
        visited := visited + {R};
        continue;
      }
      var blocks := LI.loops[LI.bbMap[R]].blocks;
      ghost var before := result;
      for m := 0 to |blocks|
        invariant result == before + blocks[..m]
        invariant forall v :: v in visited <==> v in result
      {
        result := result + [blocks[m]];
        visited := visited + {blocks[m]};
      }
      assert result == before + blocks;
    }
    AllListed(g, hs, LI.loops, LI.bbMap, LI.topLoops, rpo, result);
  }

  lemma NothingListed(g: Cfg, hs: seq<nat>, LI: LoopInfo, order: seq<nat>)
    ensures Listed(g, hs, LI.loops, LI.bbMap, order, 0, [])
  {
  }

  // ---------------------------------------------------------------- what the order means

  // With a post-order free of repeats a dominator comes first, unless the loop of
  // the dominated region encloses it: inner loops are listed after the outer one.
  lemma DominatorComesFirst(g: Cfg, hs: seq<nat>, loops: seq<Loop>, bb: map<nat, nat>, top: seq<nat>, rpo: seq<nat>,
          result: seq<nat>, a: nat, b: nat)
    requires Nest(g, hs, loops, bb, top) && Linear(g, hs, loops, bb, rpo, result)
    requires Distinct(rpo) && DominatorsLast(g, rpo) && forall v: nat :: v in rpo <==> v < |g.succs|
    requires a < |g.succs| && b < |g.succs| && Dominates(g, a, b) && Lead(hs, bb, a) != Lead(hs, bb, b)
    ensures Precedes(result, a, b) <==> !(b in bb && InLoop(g, Lead(hs, bb, b), a))
  {
    LeadOf(g, hs, loops, bb, top, a);
    LeadOf(g, hs, loops, bb, top, b);
    var la, lb := Lead(hs, bb, a), Lead(hs, bb, b);
    LeadersCompare(g, hs, loops, bb, top, a, b);
    hide Nest, Lead, InLoop, DominatorsLast, Dominates;
    if Dominates(g, la, lb) {
      LeaderFirst(g, hs, loops, bb, top, rpo, a, b);
    } else {
      LeaderFirst(g, hs, loops, bb, top, rpo, b, a);
      ComesFirstAsym(Reversed(rpo), hs, bb, b, a);
    }
  }

  // The leader dominates its group, and holds it if it is a header.
  lemma LeadOf(g: Cfg, hs: seq<nat>, loops: seq<Loop>, bb: map<nat, nat>, top: seq<nat>, v: nat)
    requires Nest(g, hs, loops, bb, top) && v < |g.succs|
    ensures var l := Lead(hs, bb, v); l < |g.succs| && Dominates(g, l, v) && Lead(hs, bb, l) == l
    ensures v in bb ==> InLoop(g, Lead(hs, bb, v), v)
    ensures v !in bb ==> Lead(hs, bb, v) == v
    ensures forall k :: 0 <= k < |hs| && InLoop(g, hs[k], v) ==> v in bb && InLoop(g, hs[k], Lead(hs, bb, v))
  {
    hide LatchesOk, SubLoopsOk, BlocksOk, ParentOf, InLoop;
    if v in bb {
      assert MapsTo(bb, v, bb[v]);
      HeaderDominatesLoop(g, hs[bb[v]], v);
      HeaderInnermost(g, hs, bb[v]);
      assert MapsTo(bb, hs[bb[v]], bb[v]);
    }
    forall k | 0 <= k < |hs| && InLoop(g, hs[k], v) ensures v in bb && InLoop(g, hs[k], Lead(hs, bb, v)) {
      var i := InnermostExists(g, hs, v, k);
      assert MapsTo(bb, v, i);
      HeaderInnermost(g, hs, k);
      if i < k {
        MeetMeansNested(g, hs, i, k, v);
      }
    }
  }

  // A region between the header and a member of the loop is a member.
  lemma BetweenInLoop(g: Cfg, h: nat, a: nat, b: nat)
    requires Sound(g) && InLoop(g, h, b) && Dominates(g, h, a) && Dominates(g, a, b) && a < |g.succs| && a != h
    ensures InLoop(g, h, a)
  {
    InLoopBounds(g, h, b);
    assert b != h by {
      if b == h {
        assert Reachable(g, h);
        DominatesAntisym(g, h, a);
      }
    }
    HeaderDominatesLoop(g, h, b);
    var m, r := InnerAfterOuter(g, h, a, b);
    var p, x :| ReachesLatch(g, h, p, b, x);
    PathSuffix(g, r, m);
    PathJoin(g, r[m..], p);
    assert ReachesLatch(g, h, r[m..] + p[1..], a, x);
  }

  lemma LeadersCompare(g: Cfg, hs: seq<nat>, loops: seq<Loop>, bb: map<nat, nat>, top: seq<nat>, a: nat, b: nat)
    requires Nest(g, hs, loops, bb, top) && a < |g.succs| && b < |g.succs|
    requires Dominates(g, a, b) && Lead(hs, bb, a) != Lead(hs, bb, b)
    ensures var la, lb := Lead(hs, bb, a), Lead(hs, bb, b);
      if b in bb && InLoop(g, lb, a) then Dominates(g, lb, la) && !Dominates(g, la, lb) else Dominates(g, la, lb)
  {
    LeadOf(g, hs, loops, bb, top, a);
    LeadOf(g, hs, loops, bb, top, b);
    assert Sound(g);
    var la, lb := Lead(hs, bb, a), Lead(hs, bb, b);
    assert b in bb ==> lb in hs by {
      assert b in bb ==> MapsTo(bb, b, bb[b]);
    }
    hide Nest, Lead, InLoop;
    assert Reachable(g, b) && Reachable(g, la) && Reachable(g, a);
    DominatesTrans(g, la, a, b);
    if b in bb && InLoop(g, lb, a) {
      assert InLoop(g, lb, la);
      HeaderDominatesLoop(g, lb, la);
      if Dominates(g, la, lb) {
        DominatesAntisym(g, la, lb);
      }
    } else {
      DominatorsChain(g, la, lb, b);
      if Dominates(g, lb, la) {
        DominatesTrans(g, lb, la, a);
        if b !in bb {
          DominatesAntisym(g, a, b);
        } else if a == lb {
        } else {
          BetweenInLoop(g, lb, a, b);
        }
      }
    }
  }

  // If x's leader strictly dominates y's, x's group turns up first.
  lemma LeaderFirst(g: Cfg, hs: seq<nat>, loops: seq<Loop>, bb: map<nat, nat>, top: seq<nat>, rpo: seq<nat>, x: nat,
          y: nat)
    requires Nest(g, hs, loops, bb, top) && x < |g.succs| && y < |g.succs|
    requires Distinct(rpo) && DominatorsLast(g, rpo) && forall v: nat :: v in rpo <==> v < |g.succs|
    requires Lead(hs, bb, x) != Lead(hs, bb, y) && Dominates(g, Lead(hs, bb, x), Lead(hs, bb, y))
    ensures ComesFirst(Reversed(rpo), hs, bb, x, y)
  {
    hide Nest, Lead, InLoop, DominatorsLast, Dominates;
    LeadOf(g, hs, loops, bb, top, x);
    var l := Lead(hs, bb, x);
    assert l in rpo;
    var i :| 0 <= i < |rpo| && rpo[i] == l;
    var order := Reversed(rpo);
    var k: nat := |rpo| - 1 - i;
    forall j | 0 <= j <= k ensures Lead(hs, bb, order[j]) != Lead(hs, bb, y) {
      assert order[j] == rpo[|rpo| - 1 - j];
      NotLedBefore(g, hs, loops, bb, top, rpo, x, y, i, |rpo| - 1 - j);
    }
    assert Announces(order, hs, bb, k, x, y);
  }

  lemma NotLedBefore(g: Cfg, hs: seq<nat>, loops: seq<Loop>, bb: map<nat, nat>, top: seq<nat>, rpo: seq<nat>,
          x: nat, y: nat, i: nat, j: nat)
    requires Nest(g, hs, loops, bb, top) && x < |g.succs|
    requires DominatorsLast(g, rpo) && forall v: nat :: v in rpo <==> v < |g.succs|
    requires Lead(hs, bb, x) != Lead(hs, bb, y) && Dominates(g, Lead(hs, bb, x), Lead(hs, bb, y))
    requires i <= j < |rpo| && rpo[i] == Lead(hs, bb, x)
    ensures Lead(hs, bb, rpo[j]) != Lead(hs, bb, y)
  {
    hide Nest, Lead, InLoop, Dominates;
    var w := rpo[j];
    assert w in rpo;
    LeadOf(g, hs, loops, bb, top, x);
    LeadOf(g, hs, loops, bb, top, w);
    if Lead(hs, bb, w) == Lead(hs, bb, y) {
      DominatesTrans(g, rpo[i], Lead(hs, bb, w), w);
    }
  }

  // ---------------------------------------------------------------- functions without loops

  // Every edge goes forwards in the linear order.
  ghost predicate Forward(g: Cfg, result: seq<nat>) {
    forall u: nat, v: nat :: g.Edge(u, v) ==> Precedes(result, u, v)
  }

  // No edge returns to a tree ancestor, that is, the graph has no cycle.
  ghost predicate NoBackEdges(g: Cfg, parents: seq<nat>, num: map<nat, nat>)
    requires IsTree(parents) && forall v :: v in num ==> num[v] < |parents|
  {
    forall u: nat, v: nat :: u in num && v in num && g.Edge(u, v) ==> !Anc(parents, num[v], num[u])
  }

  // Without loops the order is the reversed list, each region at its last mention.
  lemma PrecedesInList(g: Cfg, bb: map<nat, nat>, rpo: seq<nat>, result: seq<nat>, u: nat, v: nat)
    requires Linear(g, [], [], bb, rpo, result) && u < |g.succs| && v < |g.succs| && u != v
    ensures Precedes(result, u, v) <==> exists m: nat :: LastAbove(rpo, m, u, v)
  {
    var order := Reversed(rpo);
    assert Lead([], bb, u) == u && Lead([], bb, v) == v;
    if Precedes(result, u, v) {
      var i: nat :| Announces(order, [], bb, i, u, v);
      forall j | |rpo| - 1 - i <= j < |rpo| ensures rpo[j] != v {
        assert rpo[j] == order[|rpo| - 1 - j] == Lead([], bb, order[|rpo| - 1 - j]);
      }
      assert LastAbove(rpo, |rpo| - 1 - i, u, v);
    }
    if m: nat :| LastAbove(rpo, m, u, v) {
      forall j | 0 <= j <= |rpo| - 1 - m ensures Lead([], bb, order[j]) != v {
        assert order[j] == rpo[|rpo| - 1 - j];
      }
      assert Announces(order, [], bb, |rpo| - 1 - m, u, v);
    }
  }

  // u is mentioned at m, and v neither there nor later.
  ghost predicate LastAbove(rpo: seq<nat>, m: nat, u: nat, v: nat) {
    m < |rpo| && rpo[m] == u && forall j :: m <= j < |rpo| ==> rpo[j] != v
  }

  // The last region listed again after others.
  lemma LastAgain(rpo: seq<nat>) returns (j: nat)
    requires !Grouped(rpo)
    ensures Again(rpo, j) && forall m: nat :: m > j ==> !Again(rpo, m)
  {
    var i: nat, m: nat, k: nat :| i < m < k < |rpo| && rpo[i] == rpo[k] && rpo[m] != rpo[i];
    var t := RunStart(rpo, m, k);
    assert rpo[..t][i] == rpo[t];
    j := |rpo|;
    while !Again(rpo, j)
      invariant t <= j && forall m: nat :: m > j ==> !Again(rpo, m)
      decreases j
    {
      j := j - 1;
    }
  }

  // Where the run of equal entries that ends at k, and does not reach back to m, begins.
  lemma RunStart(rpo: seq<nat>, m: nat, k: nat) returns (t: nat)
    requires m < k < |rpo| && rpo[m] != rpo[k]
    ensures m < t <= k && rpo[t] == rpo[k] && rpo[t - 1] != rpo[t]
  {
    t := k;
    while rpo[t - 1] == rpo[t]
      invariant m < t <= k && rpo[t] == rpo[k]
      decreases t
    {
      t := t - 1;
    }
  }

  // No path returns to where it began.
  ghost predicate NoCycle(g: Cfg) {
    forall p :: IsPath(g, p) && |p| > 1 ==> p[0] != p[|p| - 1]
  }

  lemma NoCycleNoBackEdge(g: Cfg, dfs: seq<nat>, parents: seq<nat>, num: map<nat, nat>)
    requires NoCycle(g) && Numbering(g, dfs, parents, num)
    ensures NoBackEdges(g, parents, num)
  {
    forall u: nat, v: nat | u in num && v in num && num[u] < |parents| && g.Edge(u, v) ensures !Anc(parents, num[v], num[u]) {
      if Anc(parents, num[v], num[u]) {
        BackEdgeCycle(g, dfs, parents, num, u, v);
      }
    }
  }

  lemma BackEdgeCycle(g: Cfg, dfs: seq<nat>, parents: seq<nat>, num: map<nat, nat>, u: nat, v: nat)
    requires Numbering(g, dfs, parents, num) && u in num && v in num && g.Edge(u, v) && Anc(parents, num[v], num[u])
    ensures !NoCycle(g)
  {
    var p := TreeDescent(g, dfs, parents, num, num[v], num[u]);
    PathAppend(g, p, v);
    assert IsPath(g, p + [v]) && (p + [v])[0] == v == (p + [v])[|p + [v]| - 1];
  }

  // In an acyclic graph every edge goes forwards exactly when the list of the search
  // mentions no region again after another one: at the last such mention a region
  // overtakes its tree parent.
  lemma ForwardIffNoRepeats(g: Cfg, dfs: seq<nat>, parents: seq<nat>, num: map<nat, nat>, rpo: seq<nat>,
          bb: map<nat, nat>, result: seq<nat>)
    requires g.WfSuccs() && AllReachable(g) && GroupedSuccs(g) && NoCycle(g)
    requires SearchYields(g, dfs, parents, num, rpo) && Linear(g, [], [], bb, rpo, result)
    ensures Forward(g, result) <==> Grouped(rpo)
  {
    SearchIs(g, dfs, parents, num, rpo);
    hide SearchYields, Linear, Distinct, PostOrder, Numbering, RepeatsFollowParents, GroupedSuccs, DepthFirst, PreOrder, NoCycle;
    NoCycleNoBackEdge(g, dfs, parents, num);
    SearchMentionsAll(g, dfs, parents, num, rpo);
    if Grouped(rpo) {
      forall u: nat, v: nat | g.Edge(u, v) ensures Precedes(result, u, v) {
        EdgeForward(g, dfs, parents, num, rpo, u, v);
        PrecedesInList(g, bb, rpo, result, u, v);
      }
    } else {
      var u, v := RepeatGoesBack(g, dfs, parents, num, rpo);
      PrecedesInList(g, bb, rpo, result, u, v);
    }
  }

  lemma SearchMentionsAll(g: Cfg, dfs: seq<nat>, parents: seq<nat>, num: map<nat, nat>, rpo: seq<nat>)
    requires Numbering(g, dfs, parents, num) && AllReachable(g) && (forall v :: v in num <==> Reachable(g, v))
    requires forall v :: v in rpo <==> v in num
    ensures forall v: nat :: v in rpo <==> v < |g.succs|
  {
    forall v: nat | v in rpo ensures v < |g.succs| {
      assert dfs[num[v]] == v;
    }
  }

  lemma EdgeForward(g: Cfg, dfs: seq<nat>, parents: seq<nat>, num: map<nat, nat>, rpo: seq<nat>, u: nat, v: nat)
    requires PostOrder(g, parents, num, rpo) && NoBackEdges(g, parents, num) && Grouped(rpo) && g.Edge(u, v)
    requires u in rpo && forall x :: x in num <==> x in rpo
    ensures u != v && LastAbove(rpo, FirstIndex(rpo, u), u, v)
  {
    assert Finishes(g, parents, num, rpo, u, v);
    assert FirstIndex(rpo, v) < FirstIndex(rpo, u);
    assert rpo[FirstIndex(rpo, v)] == v && rpo[FirstIndex(rpo, u)] == u;
  }

  lemma RepeatGoesBack(g: Cfg, dfs: seq<nat>, parents: seq<nat>, num: map<nat, nat>, rpo: seq<nat>) returns (u: nat,
          v: nat)
    requires Numbering(g, dfs, parents, num) && RepeatsFollowParents(dfs, parents, num, rpo) && !Grouped(rpo)
    ensures u != v && g.Edge(u, v) && !exists m: nat :: LastAbove(rpo, m, u, v)
  {
    hide Grouped;
    var j := LastAgain(rpo);
    v := rpo[j];
    assert ParentListed(dfs, parents, num, rpo[..j], v);
    u := dfs[parents[num[v]]];
    var i :| 0 <= i < j && rpo[..j][i] == u;
    forall m: nat ensures !LastAbove(rpo, m, u, v) {
      if LastAbove(rpo, m, u, v) {
        var t := MentionedAgain(rpo, i, j, m);
      }
    }
  }

  lemma MentionedAgain(rpo: seq<nat>, i: nat, j: nat, m: nat) returns (t: nat)
    requires i < j < m < |rpo| && rpo[i] == rpo[m] && rpo[j] != rpo[m]
    ensures j < t && Again(rpo, t)
  {
    t := RunStart(rpo, j, m);
    assert rpo[..t][i] == rpo[t];
  }

  // R = 0 jumps to a = 1 and to v = 2, and a jumps to v.
  const TRIANGLE := Cfg(0, [[2, 1], [2], []], [[], [0], [0, 1]])

  const T0 := Initial(TRIANGLE)
  const T1 := St([(0, 0), (0, 2), (0, 1)], [0], [0], map[0 := 0], [], [0], [0])
  const T2 := St([(0, 0), (0, 2), (0, 1), (1, 2)], [0, 1], [0, 0], map[0 := 0, 1 := 1], [], [0, 1], [0, 2])
  const T3 := St([(0, 0), (0, 2), (0, 1), (1, 2)], [0, 1, 2], [0, 0, 1], map[0 := 0, 1 := 1, 2 := 2], [], [0, 1, 2], [0, 2, 3])
  const T4 := St([(0, 0), (0, 2), (0, 1)], [0, 1, 2], [0, 0, 1], map[0 := 0, 1 := 1, 2 := 2], [2], [0, 1], [0, 2])
  const T5 := St([(0, 0), (0, 2)], [0, 1, 2], [0, 0, 1], map[0 := 0, 1 := 1, 2 := 2], [2, 1], [0], [0])
  const T6 := St([(0, 0)], [0, 1, 2], [0, 0, 1], map[0 := 0, 1 := 1, 2 := 2], [2, 1, 2], [0], [0])
  const T7 := St([], [0, 1, 2], [0, 0, 1], map[0 := 0, 1 := 1, 2 := 2], [2, 1, 2, 0], [], [])

  // The search takes a first and mentions v again after a.
  lemma TriangleVisits()
    ensures Step(TRIANGLE, T0) == T1 && Step(TRIANGLE, T1) == T2 && Step(TRIANGLE, T2) == T3
  {
    assert Pushes(0, [2, 1], map[0 := 0]) == [(0, 2), (0, 1)] by {
      assert [2, 1][..1] == [2] && [2][..0] == [];
      assert Pushes(0, [2], map[0 := 0]) == [(0, 2)];
    }
    assert Pushes(1, [2], map[0 := 0, 1 := 1]) == [(1, 2)] by {
      assert [2][..0] == [];
    }
    hide Pushes;
    assert Pushes(2, [], map[0 := 0, 1 := 1, 2 := 2]) == [];
  }

  lemma TriangleCloses()
    ensures Step(TRIANGLE, T3) == T4 && Step(TRIANGLE, T4) == T5 && Step(TRIANGLE, T5) == T6
    ensures Step(TRIANGLE, T6) == T7
  {
    hide Visit;
  }

  // The run of the search on the triangle lists v twice.
  lemma TriangleSearch()
    ensures SearchYields(TRIANGLE, [0, 1, 2], [0, 0, 1], map[0 := 0, 1 := 1, 2 := 2], [2, 1, 2, 0])
  {
    hide Step;
    TriangleVisits();
    TriangleCloses();
    var g := TRIANGLE;
    assert Steps(g, 0) == T0 && Steps(g, 1) == T1 && Steps(g, 2) == T2 && Steps(g, 3) == T3;
    assert Steps(g, 4) == T4 && Steps(g, 5) == T5 && Steps(g, 6) == T6 && Steps(g, 7) == T7;
    assert StopsWith(g, 7, [0, 1, 2], [0, 0, 1], map[0 := 0, 1 := 1, 2 := 2], [2, 1, 2, 0]);
  }

  // Whatever linearize makes of the list of the search, it puts v before its predecessor a.
  lemma TriangleGoesBack(dfs: seq<nat>, parents: seq<nat>, num: map<nat, nat>, rpo: seq<nat>, bb: map<nat, nat>,
          result: seq<nat>)
    requires SearchYields(TRIANGLE, dfs, parents, num, rpo) && Linear(TRIANGLE, [], [], bb, rpo, result)
    ensures TRIANGLE.Edge(1, 2) && Precedes(result, 2, 1)
  {
    hide Linear, Precedes, SearchYields;
    TriangleSearch();
    OneOutcome(TRIANGLE, [0, 1, 2], [0, 0, 1], map[0 := 0, 1 := 1, 2 := 2], [2, 1, 2, 0], dfs, parents, num, rpo);
    assert LastAbove([2, 1, 2, 0], 2, 2, 1);
    PrecedesInList(TRIANGLE, bb, [2, 1, 2, 0], result, 2, 1);
    assert TRIANGLE.succs[1] == [2];
    assert 2 in TRIANGLE.succs[1];
  }

  // R = 0 branches, and both arms enter 1.
  const ARMS := Cfg(0, [[1, 1], []], [[], [0, 0]])

  const A1 := St([(0, 0), (0, 1), (0, 1)], [0], [0], map[0 := 0], [], [0], [0])
  const A2 := St([(0, 0), (0, 1), (0, 1)], [0, 1], [0, 0], map[0 := 0, 1 := 1], [], [0, 1], [0, 2])
  const A3 := St([(0, 0), (0, 1)], [0, 1], [0, 0], map[0 := 0, 1 := 1], [1], [0], [0])
  const A4 := St([(0, 0)], [0, 1], [0, 0], map[0 := 0, 1 := 1], [1, 1], [0], [0])
  const A5 := St([], [0, 1], [0, 0], map[0 := 0, 1 := 1], [1, 1, 0], [], [])

  lemma ArmsSteps()
    ensures Step(ARMS, Initial(ARMS)) == A1 && Step(ARMS, A1) == A2 && Step(ARMS, A2) == A3
    ensures Step(ARMS, A3) == A4 && Step(ARMS, A4) == A5
  {
    assert Pushes(0, [1, 1], map[0 := 0]) == [(0, 1), (0, 1)] by {
      assert [1, 1][..1] == [1] && [1][..0] == [];
      assert Pushes(0, [1], map[0 := 0]) == [(0, 1)];
    }
    hide Pushes;
    assert Pushes(1, [], map[0 := 0, 1 := 1]) == [];
    assert ARMS.succs[0] == [1, 1] && ARMS.succs[1] == [];
  }

  lemma ArmsSearch()
    ensures SearchYields(ARMS, [0, 1], [0, 0], map[0 := 0, 1 := 1], [1, 1, 0])
  {
    hide Step;
    ArmsSteps();
    var g := ARMS;
    assert Steps(g, 0) == Initial(g) && Steps(g, 1) == A1 && Steps(g, 2) == A2 && Steps(g, 3) == A3;
    assert Steps(g, 4) == A4 && Steps(g, 5) == A5;
    assert StopsWith(g, 5, [0, 1], [0, 0], map[0 := 0, 1 := 1], [1, 1, 0]);
  }

  lemma ArmsEdges(u: nat, v: nat)
    ensures ARMS.Edge(u, v) <==> u == 0 && v == 1
  {
    if u < 2 {
      assert ARMS.succs[u] == if u == 0 then [1, 1] else [];
    }
  }

  // A repeat that does no harm: the second mention directly follows the first.
  lemma ArmsGoForward(dfs: seq<nat>, parents: seq<nat>, num: map<nat, nat>, rpo: seq<nat>, bb: map<nat, nat>,
          result: seq<nat>)
    requires SearchYields(ARMS, dfs, parents, num, rpo) && Linear(ARMS, [], [], bb, rpo, result)
    ensures !Distinct(rpo) && Forward(ARMS, result)
  {
    hide Linear, Forward, SearchYields;
    ArmsSearch();
    OneOutcome(ARMS, [0, 1], [0, 0], map[0 := 0, 1 := 1], [1, 1, 0], dfs, parents, num, rpo);
    assert rpo[0] == rpo[1];
    ArmsAccepted();
    hide NoCycle, GroupedSuccs, AllReachable;
    ForwardIffNoRepeats(ARMS, dfs, parents, num, rpo, bb, result);
  }

  lemma ArmsAccepted()
    ensures ARMS.WfSuccs() && AllReachable(ARMS) && GroupedSuccs(ARMS) && NoCycle(ARMS)
  {
    var g := ARMS;
    assert g.succs == [[1, 1], []];
    TwoSuccsGrouped(g);
    StartReachable(g);
    ArmsEdges(0, 1);
    ReachableStep(g, 0, 1);
    forall p | IsPath(g, p) && |p| > 1 ensures p[0] != p[|p| - 1] {
      assert g.Edge(p[0], p[1]);
      ArmsEdges(p[0], p[1]);
      if |p| > 2 {
        assert g.Edge(p[1], p[2]);
        ArmsEdges(p[1], p[2]);
      }
    }
    hide Cfg.Edge;
  }
}
