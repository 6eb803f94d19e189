// The loop tree (src/Analyses/Loop.hpp). Loops are numbered by position in
// m_loops, and the pointers between them are these numbers.
module LoopTree {
  import opened SeqUtil
  import opened ControlFlow
  import opened DepthFirstSearch
  import opened NaturalLoops
  import opened Dominators

  datatype Loop = Loop(blocks: seq<nat>, latches: seq<nat>, subLoops: seq<nat>, parent: Option<nat>)

  // ---------------------------------------------------------------- order of the headers

  // No region dominates a later one: what a post-order gives.
  ghost predicate DominatorsLast(g: Cfg, rpo: seq<nat>) {
    forall i, j :: 0 <= i < j < |rpo| ==> !Dominates(g, rpo[i], rpo[j])
  }

  // The list produced by the depth-first search, when it has no repeats, has this form.
  lemma PostOrderPutsDominatorsLast(g: Cfg, dfs: seq<nat>, parents: seq<nat>, num: map<nat, nat>, rpo: seq<nat>)
    requires Numbering(g, dfs, parents, num) && PostOrder(g, parents, num, rpo)
    requires Distinct(rpo) && forall v :: v in num <==> v in rpo
    ensures DominatorsLast(g, rpo)
  {
    forall i, j | 0 <= i < j < |rpo| ensures !Dominates(g, rpo[i], rpo[j]) {
      if Dominates(g, rpo[i], rpo[j]) {
        DominatedFirst(g, dfs, parents, num, rpo, rpo[i], rpo[j]);
      }
    }
  }

  lemma DominatedFirst(g: Cfg, dfs: seq<nat>, parents: seq<nat>, num: map<nat, nat>, rpo: seq<nat>, a: nat, b: nat)
    requires Numbering(g, dfs, parents, num) && PostOrder(g, parents, num, rpo)
    requires (forall v :: v in num <==> v in rpo) && a in rpo && b in rpo && a != b && Dominates(g, a, b)
    ensures FirstIndex(rpo, b) < FirstIndex(rpo, a)
  {
    DominatorIsTreeAncestor(g, dfs, parents, num, num[a], num[b]);
    DescendantsFirst(g, dfs, parents, num, rpo, num[a], num[b]);
  }

  // Headers turn up once each, and none after a header it is dominated by.
  ghost predicate HeadersInOrder(g: Cfg, rpo: seq<nat>) {
    forall i, j :: 0 <= i < j < |rpo| && IsHeader(g, rpo[i]) && IsHeader(g, rpo[j]) ==> !Dominates(g, rpo[i], rpo[j])
  }

  ghost predicate HeadersOnce(g: Cfg, rpo: seq<nat>) {
    forall i, j :: 0 <= i < j < |rpo| && IsHeader(g, rpo[i]) ==> rpo[i] != rpo[j]
  }

  lemma OnlyMention(g: Cfg, rpo: seq<nat>, i: nat)
    requires HeadersOnce(g, rpo) && i < |rpo| && IsHeader(g, rpo[i])
    ensures FirstIndex(rpo, rpo[i]) == i
  {
    assert rpo[FirstIndex(rpo, rpo[i])] == rpo[i];
  }

  // In the list of the search the headers are in order as soon as none is mentioned
  // twice, which is also when creating their loops succeeds; other regions may repeat.
  lemma SearchOrdersHeaders(g: Cfg, dfs: seq<nat>, parents: seq<nat>, num: map<nat, nat>, rpo: seq<nat>)
    requires Numbering(g, dfs, parents, num) && PostOrder(g, parents, num, rpo)
    requires forall v :: v in num <==> v in rpo
    ensures HeadersInOrder(g, rpo) <==> HeadersOnce(g, rpo)
  {
    if HeadersOnce(g, rpo) {
      forall i, j | 0 <= i < j < |rpo| && IsHeader(g, rpo[i]) && IsHeader(g, rpo[j])
        ensures !Dominates(g, rpo[i], rpo[j])
      {
        OnlyMention(g, rpo, i);
        OnlyMention(g, rpo, j);
        if Dominates(g, rpo[i], rpo[j]) {
          DominatedFirst(g, dfs, parents, num, rpo, rpo[i], rpo[j]);
        }
      }
    }
    if HeadersInOrder(g, rpo) {
      forall i, j | 0 <= i < j < |rpo| && IsHeader(g, rpo[i]) ensures rpo[i] != rpo[j] {
        DominatesSelf(g, rpo[i]);
      }
    }
  }

  // R = 0 enters the loop header h = 1 directly and through a = 2; h returns to itself or
  // goes on to e = 3.
  const TWICE := Cfg(0, [[1, 2], [3, 1], [1], []], [[], [0, 2, 1], [0], [1]])
  const TWICE_NUM: map<nat, nat> := map[0 := 0, 2 := 1, 1 := 2, 3 := 3]

  const W1 := St([(0, 0), (0, 1), (0, 2)], [0], [0], map[0 := 0], [], [0], [0])
  const W2 := St([(0, 0), (0, 1), (0, 2), (1, 1)], [0, 2], [0, 0], map[0 := 0, 2 := 1], [], [0, 1], [0, 2])
  const W3 := St([(0, 0), (0, 1), (0, 2), (1, 1), (2, 3)], [0, 2, 1], [0, 0, 1], map[0 := 0, 2 := 1, 1 := 2], [],
    [0, 1, 2], [0, 2, 3])
  const W4 := St([(0, 0), (0, 1), (0, 2), (1, 1), (2, 3)], [0, 2, 1, 3], [0, 0, 1, 2], TWICE_NUM, [],
    [0, 1, 2, 3], [0, 2, 3, 4])
  const W5 := St([(0, 0), (0, 1), (0, 2), (1, 1)], [0, 2, 1, 3], [0, 0, 1, 2], TWICE_NUM, [3], [0, 1, 2], [0, 2, 3])
  const W6 := St([(0, 0), (0, 1), (0, 2)], [0, 2, 1, 3], [0, 0, 1, 2], TWICE_NUM, [3, 1], [0, 1], [0, 2])
  const W7 := St([(0, 0), (0, 1)], [0, 2, 1, 3], [0, 0, 1, 2], TWICE_NUM, [3, 1, 2], [0], [0])
  const W8 := St([(0, 0)], [0, 2, 1, 3], [0, 0, 1, 2], TWICE_NUM, [3, 1, 2, 1], [0], [0])
  const W9 := St([], [0, 2, 1, 3], [0, 0, 1, 2], TWICE_NUM, [3, 1, 2, 1, 0], [], [])

  lemma TwicePushes()
    ensures Pushes(0, [1, 2], map[0 := 0]) == [(0, 1), (0, 2)] && Pushes(1, [1], map[0 := 0, 2 := 1]) == [(1, 1)]
    ensures Pushes(2, [3, 1], map[0 := 0, 2 := 1, 1 := 2]) == [(2, 3)] && Pushes(3, [], TWICE_NUM) == []
  {
    assert [1, 2][..1] == [1] && [3, 1][..1] == [3] && [1][..0] == [] == [3][..0];
    assert Pushes(0, [1], map[0 := 0]) == [(0, 1)];
    assert Pushes(2, [3], map[0 := 0, 2 := 1, 1 := 2]) == [(2, 3)];
  }

  lemma TwiceVisits()
    ensures Step(TWICE, Initial(TWICE)) == W1 && Step(TWICE, W1) == W2 && Step(TWICE, W2) == W3 && Step(TWICE, W3) == W4
  {
    TwicePushes();
    hide Pushes;
    assert TWICE.succs[0] == [1, 2] && TWICE.succs[2] == [1] && TWICE.succs[1] == [3, 1] && TWICE.succs[3] == [];
  }

  lemma TwiceCloses()
    ensures Step(TWICE, W4) == W5 && Step(TWICE, W5) == W6 && Step(TWICE, W6) == W7
  {
    hide Visit;
  }

  lemma TwiceEnds()
    ensures Step(TWICE, W7) == W8 && Step(TWICE, W8) == W9
  {
    hide Visit;
  }

  lemma TwiceSearch()
    ensures SearchYields(TWICE, [0, 2, 1, 3], [0, 0, 1, 2], TWICE_NUM, [3, 1, 2, 1, 0])
  {
    hide Step;
    TwiceVisits();
    TwiceCloses();
    TwiceEnds();
    var g := TWICE;
    assert Steps(g, 0) == Initial(g) && Steps(g, 1) == W1 && Steps(g, 2) == W2 && Steps(g, 3) == W3 && Steps(g, 4) == W4;
    assert Steps(g, 5) == W5 && Steps(g, 6) == W6 && Steps(g, 7) == W7 && Steps(g, 8) == W8 && Steps(g, 9) == W9;
    assert StopsWith(g, 9, [0, 2, 1, 3], [0, 0, 1, 2], TWICE_NUM, [3, 1, 2, 1, 0]);
  }

  lemma TwiceEdges(u: nat, v: nat)
    ensures TWICE.Edge(u, v) <==> (u == 0 && (v == 1 || v == 2)) || (u == 1 && (v == 3 || v == 1)) || (u == 2 && v == 1)
  {
    if u < 4 {
      assert TWICE.succs[u] == if u == 0 then [1, 2] else if u == 1 then [3, 1] else if u == 2 then [1] else [];
    }
  }

  lemma TwiceSound()
    ensures Sound(TWICE)
  {
    var g := TWICE;
    assert g.succs == [[1, 2], [3, 1], [1], []] && g.preds == [[], [0, 2, 1], [0], [1]];
    forall u: nat, v: nat | v < 4 ensures u in g.preds[v] <==> g.Edge(u, v) {
      TwiceEdges(u, v);
      assert g.preds[v] == if v == 0 then [] else if v == 1 then [0, 2, 1] else if v == 2 then [0] else [1];
    }
    StartReachable(g);
    TwiceEdges(0, 1);
    TwiceEdges(0, 2);
    TwiceEdges(1, 3);
    ReachableStep(g, 0, 1);
    ReachableStep(g, 0, 2);
    ReachableStep(g, 1, 3);
    hide Cfg.Edge;
  }

  // The search mentions the one header of that graph twice, so its loop would be created
  // twice, which the assertion in createLoop forbids.
  lemma HeaderTwice(dfs: seq<nat>, parents: seq<nat>, num: map<nat, nat>, rpo: seq<nat>)
    requires SearchYields(TWICE, dfs, parents, num, rpo)
    ensures Sound(TWICE) && rpo == [3, 1, 2, 1, 0] && IsHeader(TWICE, 1)
    ensures !HeadersOnce(TWICE, rpo) && !HeadersInOrder(TWICE, rpo)
  {
    hide SearchYields;
    TwiceSearch();
    OneOutcome(TWICE, [0, 2, 1, 3], [0, 0, 1, 2], TWICE_NUM, [3, 1, 2, 1, 0], dfs, parents, num, rpo);
    TwiceSound();
    TwiceEdges(1, 1);
    assert IsLatch(TWICE, 1, 1);
    assert rpo[1] == rpo[3] == 1;
    DominatesSelf(TWICE, 1);
  }

  // ---------------------------------------------------------------- specification

  // hs lists every loop header once, inner headers before outer ones.
  ghost predicate Headers(g: Cfg, hs: seq<nat>) {
    && Sound(g) && Distinct(hs)
    && (forall i :: 0 <= i < |hs| ==> hs[i] < |g.succs|)
    && (forall v :: v in hs <==> IsHeader(g, v))
    && forall i, j :: 0 <= i < j < |hs| ==> !Dominates(g, hs[i], hs[j])
  }

  // Loop i holds v and no earlier loop does.
  ghost predicate Innermost(g: Cfg, hs: seq<nat>, v: nat, i: nat) {
    && i < |hs| && InLoop(g, hs[i], v)
    && forall k :: 0 <= k < i ==> !InLoop(g, hs[k], v)
  }

  // Loop k is the first after i that holds the header of i.
  ghost predicate ParentOf(g: Cfg, hs: seq<nat>, i: nat, k: nat) {
    && i < k < |hs| && InLoop(g, hs[k], hs[i])
    && forall l :: i < l < k ==> !InLoop(g, hs[l], hs[i])
  }

  // ---------------------------------------------------------------- facts about the order

  lemma HeadersOrdered(g: Cfg, hs: seq<nat>, i: nat, k: nat)
    requires Headers(g, hs) && i < |hs| && k < |hs| && InLoop(g, hs[k], hs[i])
    ensures i <= k
  {
    HeaderDominatesLoop(g, hs[k], hs[i]);
  }

  // Two loops that meet are nested, the later one outside.
  lemma MeetMeansNested(g: Cfg, hs: seq<nat>, i: nat, k: nat, v: nat)
    requires Headers(g, hs) && i < k < |hs| && InLoop(g, hs[i], v) && InLoop(g, hs[k], v)
    ensures InLoop(g, hs[k], hs[i])
  {
    InLoopBounds(g, hs[i], v);
    HeaderDominatesLoop(g, hs[i], v);
    HeaderDominatesLoop(g, hs[k], v);
    assert Reachable(g, v);
    DominatorsChain(g, hs[i], hs[k], v);
    MeetingLoops(g, hs[k], hs[i], v);
  }

  lemma {:induction false} InnermostExists(g: Cfg, hs: seq<nat>, v: nat, n: nat) returns (i: nat)
    requires n < |hs| && InLoop(g, hs[n], v)
    ensures i <= n && Innermost(g, hs, v, i)
  {
    i := 0;
    while !InLoop(g, hs[i], v)
      invariant i <= n && forall k :: 0 <= k < i ==> !InLoop(g, hs[k], v)
      decreases n - i
    {
      i := i + 1;
    }
  }

  lemma {:induction false} ParentExists(g: Cfg, hs: seq<nat>, i: nat, n: nat) returns (k: nat)
    requires i < n < |hs| && InLoop(g, hs[n], hs[i])
    ensures k <= n && ParentOf(g, hs, i, k)
  {
    k := i + 1;
    while !InLoop(g, hs[k], hs[i])
      invariant i < k <= n && forall l :: i < l < k ==> !InLoop(g, hs[l], hs[i])
      decreases n - k
    {
      k := k + 1;
    }
  }

  lemma HeaderInnermost(g: Cfg, hs: seq<nat>, i: nat)
    requires Headers(g, hs) && i < |hs|
    ensures Innermost(g, hs, hs[i], i)
  {
    assert hs[i] in hs;
    forall k | 0 <= k < i ensures !InLoop(g, hs[k], hs[i]) {
      if InLoop(g, hs[k], hs[i]) {
        HeadersOrdered(g, hs, i, k);
      }
    }
  }

  // ---------------------------------------------------------------- state while the bodies are filled

  // Loops below j are filled; of loop j the regions W have been walked.
  ghost predicate MapOk(g: Cfg, hs: seq<nat>, bb: map<nat, nat>, j: nat, W: set<nat>) {
    forall v: nat, i: nat :: MapsTo(bb, v, i) <==> Innermost(g, hs, v, i) && Walked(hs, j, W, v, i)
  }

  ghost predicate MapsTo(bb: map<nat, nat>, v: nat, i: nat) {
    v in bb && bb[v] == i
  }

  ghost predicate Walked(hs: seq<nat>, j: nat, W: set<nat>, v: nat, i: nat)
    requires i < |hs|
  {
    i < j || v == hs[i] || (i == j && v in W)
  }

  ghost predicate Entered(g: Cfg, hs: seq<nat>, W: set<nat>, i: nat) {
    exists v :: v in W && Innermost(g, hs, v, i)
  }

  ghost predicate ParentsOk(g: Cfg, hs: seq<nat>, loops: seq<Loop>, j: nat, W: set<nat>) {
    && |loops| == |hs|
    && forall i, k: nat :: 0 <= i < |loops| ==>
      (loops[i].parent == Some(k) <==> ParentOf(g, hs, i, k) && (k < j || (k == j && Entered(g, hs, W, i))))
  }

  ghost predicate SubLoopsOk(loops: seq<Loop>) {
    forall k :: 0 <= k < |loops| ==>
      && Distinct(loops[k].subLoops)
      && (forall i :: i in loops[k].subLoops ==> i < |loops|)
      && forall i :: 0 <= i < |loops| ==> (i in loops[k].subLoops <==> loops[i].parent == Some(k))
  }

  ghost predicate BlocksOk(hs: seq<nat>, loops: seq<Loop>, bb: map<nat, nat>) {
    && |loops| == |hs|
    && forall k :: 0 <= k < |loops| ==>
      && loops[k].blocks != [] && loops[k].blocks[0] == hs[k]
      && Distinct(loops[k].blocks)
      && forall v: nat :: v in loops[k].blocks <==> MapsTo(bb, v, k)
  }

  ghost predicate LatchesOk(g: Cfg, hs: seq<nat>, loops: seq<Loop>) {
    && |loops| == |hs|
    && forall k, x :: 0 <= k < |loops| ==> (x in loops[k].latches <==> IsLatch(g, hs[k], x))
  }

  ghost predicate FillOk(g: Cfg, hs: seq<nat>, loops: seq<Loop>, bb: map<nat, nat>, j: nat, W: set<nat>) {
    && Headers(g, hs) && LatchesOk(g, hs, loops)
    && MapOk(g, hs, bb, j, W) && ParentsOk(g, hs, loops, j, W) && SubLoopsOk(loops) && BlocksOk(hs, loops, bb)
  }

  // The walk of loop j: W is walked, work is pending.
  ghost predicate WalkOk(g: Cfg, h: nat, W: set<nat>, work: seq<nat>) {
    && (forall v :: v in W ==> v != h && InLoop(g, h, v))
    && (forall k :: 0 <= k < |work| ==> InLoop(g, h, work[k]))
    && (forall x :: IsLatch(g, h, x) && x != h ==> x in W || x in work)
    && forall u, v :: v in W && g.Edge(u, v) && u != h ==> u in W || u in work
  }

  lemma WalkComplete(g: Cfg, h: nat, W: set<nat>)
    requires WalkOk(g, h, W, [])
    ensures forall v :: v in W <==> v != h && InLoop(g, h, v)
  {
    forall v | v != h && InLoop(g, h, v) ensures v in W {
      var p, x :| ReachesLatch(g, h, p, v, x);
      LoopCovered(g, h, W, p, v, x);
    }
  }

  // ---------------------------------------------------------------- one region of the walk

  // A region still unmapped belongs to loop j; a mapped one belongs to an earlier
  // loop, which is nested in j.
  lemma WhoseRegion(g: Cfg, hs: seq<nat>, bb: map<nat, nat>, j: nat, W: set<nat>, v: nat)
    requires Headers(g, hs) && MapOk(g, hs, bb, j, W) && j < |hs|
    requires InLoop(g, hs[j], v) && v != hs[j] && v !in W
    ensures v !in bb ==> Innermost(g, hs, v, j)
    ensures v in bb ==> bb[v] < j && Innermost(g, hs, v, bb[v]) && InLoop(g, hs[j], hs[bb[v]])
  {
    var i := InnermostExists(g, hs, v, j);
    if v in bb {
      assert MapsTo(bb, v, bb[v]);
      var k := bb[v];
      assert Innermost(g, hs, v, k) && Walked(hs, j, W, v, k);
      if v == hs[k] {
        HeadersOrdered(g, hs, k, j);
      }
      MeetMeansNested(g, hs, k, j, v);
    } else {
      assert !MapsTo(bb, v, i);
    }
  }

  lemma OwnBlock(g: Cfg, hs: seq<nat>, bb: map<nat, nat>, j: nat, W: set<nat>, v: nat)
    requires MapOk(g, hs, bb, j, W) && j < |hs| && v !in bb && Innermost(g, hs, v, j)
    ensures MapOk(g, hs, bb[v := j], j, W + {v})
  {
    forall x: nat, i: nat
      ensures MapsTo(bb[v := j], x, i) <==> Innermost(g, hs, x, i) && Walked(hs, j, W + {v}, x, i)
    {
      assert MapsTo(bb, x, i) <==> Innermost(g, hs, x, i) && Walked(hs, j, W, x, i);
    }
  }

  lemma OwnParents(g: Cfg, hs: seq<nat>, loops: seq<Loop>, j: nat, W: set<nat>, v: nat)
    requires ParentsOk(g, hs, loops, j, W) && j < |hs| && Innermost(g, hs, v, j)
    ensures ParentsOk(g, hs, loops, j, W + {v})
  {
    forall i | 0 <= i < j ensures Entered(g, hs, W + {v}, i) <==> Entered(g, hs, W, i) {
      if x :| x in W + {v} && Innermost(g, hs, x, i) {
        assert x in W;
      }
      if x :| x in W && Innermost(g, hs, x, i) {
        assert x in W + {v};
      }
    }
  }

  lemma ForeignMap(g: Cfg, hs: seq<nat>, bb: map<nat, nat>, j: nat, W: set<nat>, v: nat, i: nat)
    requires MapOk(g, hs, bb, j, W) && j < |hs| && i < j && Innermost(g, hs, v, i)
    ensures MapOk(g, hs, bb, j, W + {v})
  {
    forall x: nat, k: nat
      ensures MapsTo(bb, x, k) <==> Innermost(g, hs, x, k) && Walked(hs, j, W + {v}, x, k)
    {
      assert MapsTo(bb, x, k) <==> Innermost(g, hs, x, k) && Walked(hs, j, W, x, k);
    }
  }

  function SetParent(loops: seq<Loop>, i: nat, j: nat): seq<Loop>
    requires i < |loops| && j < |loops| && i != j
  {
    loops[i := loops[i].(parent := Some(j))][j := loops[j].(subLoops := loops[j].subLoops + [i])]
  }

  lemma NewlyEntered(g: Cfg, hs: seq<nat>, W: set<nat>, v: nat, i: nat, k: nat)
    requires Innermost(g, hs, v, i)
    ensures Entered(g, hs, W + {v}, k) <==> Entered(g, hs, W, k) || k == i
  {
    if x :| x in W + {v} && Innermost(g, hs, x, k) {
      if x !in W {
        assert k == i;
      }
    }
    if x :| x in W && Innermost(g, hs, x, k) {
      assert x in W + {v};
    }
    assert v in W + {v};
  }

  lemma FirstEntry(g: Cfg, hs: seq<nat>, loops: seq<Loop>, j: nat, W: set<nat>, v: nat, i: nat)
    requires ParentsOk(g, hs, loops, j, W) && i < j < |hs| && Innermost(g, hs, v, i) && InLoop(g, hs[j], hs[i])
    requires loops[i].parent == None
    ensures ParentsOk(g, hs, SetParent(loops, i, j), j, W + {v})
  {
    var k := ParentExists(g, hs, i, j);
    assert loops[i].parent != Some(k);
    assert k == j && ParentOf(g, hs, i, j);
    var loops' := SetParent(loops, i, j);
    forall l, k: nat | 0 <= l < |loops|
      ensures loops'[l].parent == Some(k) <==> ParentOf(g, hs, l, k) && (k < j || (k == j && Entered(g, hs, W + {v}, l)))
    {
      NewlyEntered(g, hs, W, v, i, l);
      assert loops[l].parent == Some(k) <==> ParentOf(g, hs, l, k) && (k < j || (k == j && Entered(g, hs, W, l)));
    }
  }

  lemma LaterEntry(g: Cfg, hs: seq<nat>, loops: seq<Loop>, j: nat, W: set<nat>, v: nat, i: nat)
    requires ParentsOk(g, hs, loops, j, W) && i < j < |hs| && Innermost(g, hs, v, i)
    requires loops[i].parent != None
    ensures ParentsOk(g, hs, loops, j, W + {v})
  {
    var p := loops[i].parent.value;
    assert ParentOf(g, hs, i, p);
    forall l, k: nat | 0 <= l < |loops|
      ensures loops[l].parent == Some(k) <==> ParentOf(g, hs, l, k) && (k < j || (k == j && Entered(g, hs, W + {v}, l)))
    {
      NewlyEntered(g, hs, W, v, i, l);
      assert loops[l].parent == Some(k) <==> ParentOf(g, hs, l, k) && (k < j || (k == j && Entered(g, hs, W, l)));
    }
  }

  lemma SetParentSubLoops(loops: seq<Loop>, i: nat, j: nat)
    requires SubLoopsOk(loops) && i < |loops| && j < |loops| && i != j && loops[i].parent == None
    ensures SubLoopsOk(SetParent(loops, i, j))
  {
    var loops' := SetParent(loops, i, j);
    forall k | 0 <= k < |loops|
      ensures Distinct(loops'[k].subLoops)
      ensures forall l :: l in loops'[k].subLoops ==> l < |loops|
      ensures forall l :: 0 <= l < |loops| ==> (l in loops'[k].subLoops <==> loops'[l].parent == Some(k))
    {
      assert i !in loops[k].subLoops;
    }
  }

  lemma SetParentBlocks(hs: seq<nat>, loops: seq<Loop>, bb: map<nat, nat>, i: nat, j: nat)
    requires BlocksOk(hs, loops, bb) && i < |loops| && j < |loops| && i != j
    ensures BlocksOk(hs, SetParent(loops, i, j), bb)
  {
  }

  function AddBlock(loops: seq<Loop>, j: nat, v: nat): seq<Loop>
    requires j < |loops|
  {
    loops[j := loops[j].(blocks := loops[j].blocks + [v])]
  }

  lemma AddBlockKeeps(hs: seq<nat>, loops: seq<Loop>, bb: map<nat, nat>, j: nat, v: nat)
    requires BlocksOk(hs, loops, bb) && SubLoopsOk(loops) && j < |loops| && v !in bb
    ensures BlocksOk(hs, AddBlock(loops, j, v), bb[v := j]) && SubLoopsOk(AddBlock(loops, j, v))
  {
    var loops' := AddBlock(loops, j, v);
    forall k | 0 <= k < |loops|
      ensures Distinct(loops'[k].blocks) && forall x: nat :: x in loops'[k].blocks <==> MapsTo(bb[v := j], x, k)
    {
      assert v in loops[k].blocks <==> MapsTo(bb, v, k);
    }
  }

  // ---------------------------------------------------------------- between loops

  lemma AdvanceMap(g: Cfg, hs: seq<nat>, bb: map<nat, nat>, j: nat, W: set<nat>)
    requires Headers(g, hs) && MapOk(g, hs, bb, j, W) && j < |hs|
    requires forall v :: v in W <==> v != hs[j] && InLoop(g, hs[j], v)
    ensures MapOk(g, hs, bb, j + 1, {})
  {
    forall x: nat, k: nat
      ensures MapsTo(bb, x, k) <==> Innermost(g, hs, x, k) && Walked(hs, j + 1, {}, x, k)
    {
      assert MapsTo(bb, x, k) <==> Innermost(g, hs, x, k) && Walked(hs, j, W, x, k);
    }
  }

  lemma AdvanceParents(g: Cfg, hs: seq<nat>, loops: seq<Loop>, j: nat, W: set<nat>)
    requires Headers(g, hs) && ParentsOk(g, hs, loops, j, W) && j < |hs|
    requires forall v :: v in W <==> v != hs[j] && InLoop(g, hs[j], v)
    ensures ParentsOk(g, hs, loops, j + 1, {})
  {
    forall i, k: nat | 0 <= i < |loops|
      ensures loops[i].parent == Some(k) <==> ParentOf(g, hs, i, k) && (k < j + 1 || (k == j + 1 && Entered(g, hs, {}, i)))
    {
      assert loops[i].parent == Some(k) <==> ParentOf(g, hs, i, k) && (k < j || (k == j && Entered(g, hs, W, i)));
      if k == j && ParentOf(g, hs, i, k) {
        HeaderInnermost(g, hs, i);
        assert hs[i] != hs[j];
        assert hs[i] in W;
      }
    }
  }

  lemma InitialFill(g: Cfg, hs: seq<nat>, loops: seq<Loop>, bb: map<nat, nat>)
    requires Headers(g, hs) && Shape(g, hs, loops, bb)
    ensures FillOk(g, hs, loops, bb, 0, {})
  {
    forall v: nat, i: nat ensures MapsTo(bb, v, i) <==> Innermost(g, hs, v, i) && Walked(hs, 0, {}, v, i) {
      if i < |hs| && hs[i] == v {
        HeaderInnermost(g, hs, i);
      }
    }
  }

  // ---------------------------------------------------------------- what the loop tree says

  ghost predicate ParentsLater(loops: seq<Loop>) {
    forall l :: 0 <= l < |loops| && loops[l].parent != None ==> l < loops[l].parent.value < |loops|
  }

  // The finished loop tree.
  ghost predicate Nest(g: Cfg, hs: seq<nat>, loops: seq<Loop>, bb: map<nat, nat>, top: seq<nat>) {
    && Headers(g, hs) && |loops| == |hs|
    && LatchesOk(g, hs, loops) && SubLoopsOk(loops) && BlocksOk(hs, loops, bb) && ParentsLater(loops)
    && (forall v: nat, i: nat :: MapsTo(bb, v, i) <==> Innermost(g, hs, v, i))
    && (forall i, k: nat :: 0 <= i < |loops| ==> (loops[i].parent == Some(k) <==> ParentOf(g, hs, i, k)))
    && Distinct(top) && forall i: nat :: i in top <==> i < |loops| && loops[i].parent == None
  }

  // k is i or a parent of it, at any depth.
  ghost predicate Encloses(loops: seq<Loop>, k: nat, i: nat)
    requires i < |loops| && ParentsLater(loops)
    decreases |loops| - i
  {
    k == i || (loops[i].parent != None && Encloses(loops, k, loops[i].parent.value))
  }

  lemma {:induction false} EnclosesIffHolds(g: Cfg, hs: seq<nat>, loops: seq<Loop>, bb: map<nat, nat>,
          top: seq<nat>, k: nat, i: nat)
    requires Nest(g, hs, loops, bb, top) && i < |loops| && k < |loops|
    ensures Encloses(loops, k, i) <==> InLoop(g, hs[k], hs[i])
    decreases |loops| - i
  {
    hide LatchesOk, SubLoopsOk, BlocksOk, InLoop;
    HeaderInnermost(g, hs, i);
    if k != i {
      if InLoop(g, hs[k], hs[i]) {
        HeadersOrdered(g, hs, i, k);
        HeaderInnermost(g, hs, k);
        var p := ParentExists(g, hs, i, k);
        assert loops[i].parent == Some(p);
        if p < k {
          MeetMeansNested(g, hs, p, k, hs[i]);
        }
      }
      if loops[i].parent != None {
        var p: nat := loops[i].parent.value;
        assert loops[i].parent == Some(p);
        EnclosesIffHolds(g, hs, loops, bb, top, k, p);
        if InLoop(g, hs[k], hs[p]) {
          LoopNested(g, hs[k], hs[p], hs[i]);
        }
      }
    }
  }

  // The blocks of a loop and of all loops below it are exactly the header and the
  // regions that reach a latch without passing it.
  lemma BodyIsUnionOfBlocks(g: Cfg, hs: seq<nat>, loops: seq<Loop>, bb: map<nat, nat>, top: seq<nat>, k: nat, v: nat)
    requires Nest(g, hs, loops, bb, top) && k < |loops|
    ensures InLoop(g, hs[k], v) <==> exists i :: 0 <= i < |loops| && v in loops[i].blocks && Encloses(loops, k, i)
  {
    if InLoop(g, hs[k], v) {
      var i := InnermostExists(g, hs, v, k);
      assert MapsTo(bb, v, i);
      HeaderInnermost(g, hs, k);
      if i < k {
        MeetMeansNested(g, hs, i, k, v);
      }
      EnclosesIffHolds(g, hs, loops, bb, top, k, i);
      assert v in loops[i].blocks && Encloses(loops, k, i);
    }
    if i :| 0 <= i < |loops| && v in loops[i].blocks && Encloses(loops, k, i) {
      assert MapsTo(bb, v, i);
      EnclosesIffHolds(g, hs, loops, bb, top, k, i);
      LoopNested(g, hs[k], hs[i], v);
    }
  }

  // On the edges and paths of the graph: x is a latch of the loop of h exactly when an edge
  // leads from x to h and every path from the start to x passes h,
  lemma LatchesAreBackEdges(g: Cfg, hs: seq<nat>, loops: seq<Loop>, bb: map<nat, nat>, top: seq<nat>, x: nat, h: nat)
    requires Nest(g, hs, loops, bb, top)
    ensures (exists k :: 0 <= k < |loops| && loops[k].blocks != [] && loops[k].blocks[0] == h && x in loops[k].latches) <==>
      g.Edge(x, h) && forall p :: PathBetween(g, p, g.start, x) ==> h in p
  {
    hide SubLoopsOk, Cfg.Edge;
    if g.Edge(x, h) && forall p :: PathBetween(g, p, g.start, x) ==> h in p {
      assert IsLatch(g, h, x);
      assert IsHeader(g, h) && h in hs;
      var k :| 0 <= k < |hs| && hs[k] == h;
      assert x in loops[k].latches;
    }
  }

  // and whatever reaches a latch without passing the header is in the loop or in one below.
  lemma PathsStayInLoop(g: Cfg, hs: seq<nat>, loops: seq<Loop>, bb: map<nat, nat>, top: seq<nat>, k: nat, x: nat,
          p: seq<nat>, i: nat)
    requires Nest(g, hs, loops, bb, top) && k < |loops| && x in loops[k].latches
    requires p != [] && PathBetween(g, p, p[0], x) && hs[k] !in p && i < |p|
    ensures exists l :: 0 <= l < |loops| && p[i] in loops[l].blocks && Encloses(loops, k, l)
  {
    assert IsLatch(g, hs[k], x);
    PathSuffix(g, p, i);
    assert ReachesLatch(g, hs[k], p[i..], p[i], x);
    BodyIsUnionOfBlocks(g, hs, loops, bb, top, k, p[i]);
  }

  // A region is mapped to the smallest loop that holds it.
  lemma MappedToSmallest(g: Cfg, hs: seq<nat>, loops: seq<Loop>, bb: map<nat, nat>, top: seq<nat>, v: nat, k: nat)
    requires Nest(g, hs, loops, bb, top) && k < |loops| && InLoop(g, hs[k], v)
    ensures v in bb && bb[v] < |loops| && InLoop(g, hs[bb[v]], v)
    ensures forall y :: InLoop(g, hs[bb[v]], y) ==> InLoop(g, hs[k], y)
  {
    var i := InnermostExists(g, hs, v, k);
    assert MapsTo(bb, v, i);
    HeaderInnermost(g, hs, k);
    if i < k {
      MeetMeansNested(g, hs, i, k, v);
    }
    forall y | InLoop(g, hs[i], y) ensures InLoop(g, hs[k], y) {
      LoopNested(g, hs[k], hs[i], y);
    }
  }

  // The parent strictly encloses its child and lies within every loop that does;
  // a loop without parent is enclosed by no other.
  lemma ParentIsSmallest(g: Cfg, hs: seq<nat>, loops: seq<Loop>, bb: map<nat, nat>, top: seq<nat>, i: nat, k: nat)
    requires Nest(g, hs, loops, bb, top) && i < |loops| && k < |loops| && k != i && InLoop(g, hs[k], hs[i])
    ensures loops[i].parent != None
    ensures var p := loops[i].parent.value;
      && p < |loops| && p != i && !InLoop(g, hs[i], hs[p])
      && forall y :: (InLoop(g, hs[i], y) ==> InLoop(g, hs[p], y)) && (InLoop(g, hs[p], y) ==> InLoop(g, hs[k], y))
  {
    hide LatchesOk, SubLoopsOk, BlocksOk, InLoop;
    HeadersOrdered(g, hs, i, k);
    var p := ParentExists(g, hs, i, k);
    assert loops[i].parent == Some(p);
    HeaderInnermost(g, hs, k);
    if p < k {
      MeetMeansNested(g, hs, p, k, hs[i]);
    }
    if InLoop(g, hs[i], hs[p]) {
      HeadersOrdered(g, hs, p, i);
    }
    forall y
      ensures (InLoop(g, hs[i], y) ==> InLoop(g, hs[p], y)) && (InLoop(g, hs[p], y) ==> InLoop(g, hs[k], y))
    {
      if InLoop(g, hs[i], y) {
        LoopNested(g, hs[p], hs[i], y);
      }
      if InLoop(g, hs[p], y) {
        LoopNested(g, hs[k], hs[p], y);
      }
    }
  }

  // ---------------------------------------------------------------- the analysis

  ghost predicate ExactTree(g: Cfg, DT: DomTree)
    reads DT
  {
    && Sound(g) && DT.Valid() && DT.ExactFor(g)
    && (forall v: nat :: v in DT.nodeToIdx <==> v < |g.succs|)
    && forall v :: v in DT.nodeToIdx && g.Anchored(v) ==> DT.Hangs(v)
  }

  // The listed predecessors hold all latches.
  lemma ListedPreds(g: Cfg, v: nat, x: nat)
    requires Sound(g) && v < |g.succs|
    ensures x in g.preds[v] ==> g.Edge(x, v)
    ensures IsLatch(g, v, x) ==> x in g.preds[v]
  {
    if IsLatch(g, v, x) {
      HeaderListed(g, v, x);
    }
  }

  class LoopInfo {
    var loops: seq<Loop>
    var topLoops: seq<nat>
    var bbMap: map<nat, nat>

    constructor LoopAnalyze(g: Cfg, rpo: seq<nat>, DT: DomTree)
      requires ExactTree(g, DT)
      requires HeadersInOrder(g, rpo) && forall v: nat :: v in rpo <==> v < |g.succs|
      ensures exists hs :: Nest(g, hs, loops, bbMap, topLoops)
    {
      loops, topLoops, bbMap := [], [], map[];
      new;
      ghost var hs := FindLoops(g, rpo, DT);
      for j := 0 to |loops|
        invariant |loops| == |hs|
        invariant FillOk(g, hs, loops, bbMap, j, {})
        invariant topLoops == []
      {
        ghost var visited := FillLoop(g, j, hs);
      }
      FindTopLoops();
      FillIsNest(g, hs, loops, bbMap, topLoops);
    }

    method FindLoops(g: Cfg, rpo: seq<nat>, DT: DomTree) returns (ghost hs: seq<nat>)
      requires ExactTree(g, DT)
      requires HeadersInOrder(g, rpo) && forall v: nat :: v in rpo <==> v < |g.succs|
      requires loops == [] && bbMap == map[] && topLoops == []
      modifies this
      ensures topLoops == []
      ensures FillOk(g, hs, loops, bbMap, 0, {})
    {
      hs := [];
      for k := 0 to |rpo|
        invariant topLoops == []
        invariant Found(g, rpo, k, hs) && Shape(g, hs, loops, bbMap)
      {
        hide Found, Shape, HeadersInOrder, IsLatch;
        var v := rpo[k];
        assert v in rpo;
        var latches := CollectLatches(g, v, DT);
        HeaderIffLatches(g, v, latches);
        FoundNext(g, rpo, k, hs);
        if latches != [] {
          ShapeAdd(g, hs, loops, bbMap, v, latches);
          CreateLoop(v, latches);
          hs := hs + [v];
        }
      }
      FoundAll(g, rpo, hs);
      InitialFill(g, hs, loops, bbMap);
    }

    // Predecessors of v that v dominates.
    method CollectLatches(g: Cfg, v: nat, DT: DomTree) returns (latches: seq<nat>)
      requires ExactTree(g, DT) && v < |g.succs|
      ensures forall x :: x in latches <==> IsLatch(g, v, x)
    {
      latches := [];
      var ps := g.preds[v];
      for i := 0 to |ps|
        invariant forall x :: x in latches <==> x in ps[..i] && Dominates(g, v, x)
      {
        assert ps[i] in ps;
        assert Reachable(g, ps[i]);
        SourceAnchored(g, ps[i], v);
        assert ps[..i + 1] == ps[..i] + [ps[i]];
        var d := DT.Dominates(v, ps[i]);
        assert DT.Above(v, ps[i]) <==> Dominates(g, v, ps[i]);
        if d {
          latches := latches + [ps[i]];
        }
      }
      assert ps[..|ps|] == ps;
      forall x: nat ensures (x in ps ==> g.Edge(x, v)) && (IsLatch(g, v, x) ==> x in ps) {
        ListedPreds(g, v, x);
      }
    }

    method CreateLoop(header: nat, latches: seq<nat>)
      requires header !in bbMap
      modifies this
      ensures loops == old(loops) + [Loop([header], latches, [], None)]
      ensures bbMap == old(bbMap)[header := |old(loops)|] && topLoops == old(topLoops)
    {
      loops := loops + [Loop([header], latches, [], None)];
      bbMap := bbMap[header := |loops| - 1];
    }

    // Walk backwards from the latches of loop j to its header: the regions visited are
    // the natural loop without its header.
    method FillLoop(g: Cfg, j: nat, ghost hs: seq<nat>) returns (ghost walked: set<nat>)
      requires j < |hs| && FillOk(g, hs, loops, bbMap, j, {})
      modifies this
      ensures forall v: nat :: v in walked <==> v != hs[j] && InLoop(g, hs[j], v)
      ensures FillOk(g, hs, loops, bbMap, j + 1, {}) && topLoops == old(topLoops)
    {
      hide MapOk, ParentsOk, SubLoopsOk, BlocksOk, Headers, InLoop, IsLatch;
      FillHeader(g, hs, loops, bbMap, j, {});
      var header := loops[j].blocks[0];
      var workStack := loops[j].latches;
      var visited: set<nat> := {};
      StartWalk(g, hs, loops, j);
      while workStack != []
        invariant FillOk(g, hs, loops, bbMap, j, visited) && topLoops == old(topLoops)
        invariant WalkOk(g, header, visited, workStack)
        decreases |g.succs| - |visited|, |workStack|
      {
        var v := workStack[|workStack| - 1];
        workStack := workStack[..|workStack| - 1];
        if v in visited || v == header {
          SkipStep(g, header, visited, workStack, v);
        } else {
          WalkRoom(g, header, visited, workStack, v);
          AddRegion(g, j, hs, visited, v);
          workStack := PushPreds(g, header, visited, v, workStack);
          visited := visited + {v};
        }
      }
      WalkComplete(g, header, visited);
      AdvanceFill(g, hs, loops, bbMap, j, visited);
      walked := visited;
    }

    // One region of the walk joins loop j, or its loop becomes a subloop of j.
    method AddRegion(g: Cfg, j: nat, ghost hs: seq<nat>, ghost visited: set<nat>, v: nat)
      requires j < |hs| && FillOk(g, hs, loops, bbMap, j, visited)
      requires InLoop(g, hs[j], v) && v != hs[j] && v !in visited
      modifies this
      ensures FillOk(g, hs, loops, bbMap, j, visited + {v}) && topLoops == old(topLoops)
    {
      hide MapOk, ParentsOk, SubLoopsOk, BlocksOk, Headers, InLoop, IsLatch;
      WhoseRegion(g, hs, bbMap, j, visited, v);
      if v in bbMap {
        var i := bbMap[v];
        ForeignMap(g, hs, bbMap, j, visited, v, i);
        if loops[i].parent == None {
          FirstEntry(g, hs, loops, j, visited, v, i);
          SetParentSubLoops(loops, i, j);
          SetParentBlocks(hs, loops, bbMap, i, j);
          SetParentLatches(g, hs, loops, i, j);
          ghost var before := loops;
          loops := loops[i := loops[i].(parent := Some(j))];
          loops := loops[j := loops[j].(subLoops := loops[j].subLoops + [i])];
          assert loops == SetParent(before, i, j);
        } else {
          LaterEntry(g, hs, loops, j, visited, v, i);
        }
      } else {
        OwnBlock(g, hs, bbMap, j, visited, v);
        OwnParents(g, hs, loops, j, visited, v);
        AddBlockKeeps(hs, loops, bbMap, j, v);
        AddBlockParents(g, hs, loops, j, visited + {v}, v);
        loops := loops[j := loops[j].(blocks := loops[j].blocks + [v])];
        bbMap := bbMap[v := j];
      }
    }

    method PushPreds(g: Cfg, header: nat, visited: set<nat>, v: nat, workStack: seq<nat>) returns (workStack': seq<nat>)
      requires g.Wf() && v != header && v !in visited && InLoop(g, header, v)
      requires WalkOk(g, header, visited, workStack + [v])
      ensures WalkOk(g, header, visited + {v}, workStack')
    {
      hide InLoop, IsLatch;
      InLoopBounds(g, header, v);
      LoopListed(g, header, v);
      workStack' := workStack;
      assert forall k :: 0 <= k < |workStack| ==> workStack[k] == (workStack + [v])[k];
      var ps := g.preds[v];
      for i := 0 to |ps|
        invariant forall x :: x in workStack ==> x in workStack'
        invariant forall k :: 0 <= k < |workStack'| ==> InLoop(g, header, workStack'[k])
        invariant forall x :: x in ps[..i] && x != header ==> x in visited + {v} || x in workStack'
      {
        assert ps[..i + 1] == ps[..i] + [ps[i]];
        assert ps[i] in ps;
        if ps[i] !in visited + {v} && ps[i] != header {
          LoopStep(g, header, ps[i], v);
          workStack' := workStack' + [ps[i]];
        }
      }
      assert ps[..|ps|] == ps;
      assert forall x :: x in workStack + [v] ==> x in workStack' || x == v;
    }

    method FindTopLoops()
      requires topLoops == []
      modifies this`topLoops
      ensures Distinct(topLoops) && forall i: nat :: i in topLoops <==> i < |loops| && loops[i].parent == None
    {
      for i := 0 to |loops|
        invariant Distinct(topLoops)
        invariant forall k: nat :: k in topLoops <==> k < i && loops[k].parent == None
      {
        if loops[i].parent == None {
          topLoops := topLoops + [i];
        }
      }
    }
  }

  // ---------------------------------------------------------------- glue

  ghost predicate Found(g: Cfg, rpo: seq<nat>, k: nat, hs: seq<nat>)
    requires k <= |rpo|
  {
    && Distinct(hs)
    && (forall v :: v in hs <==> v in rpo[..k] && IsHeader(g, v))
    && forall i, j :: 0 <= i < j < |hs| ==> !Dominates(g, hs[i], hs[j])
  }

  // Loops as created: a header, its latches, and the header mapped to its loop.
  ghost predicate Shape(g: Cfg, hs: seq<nat>, loops: seq<Loop>, bb: map<nat, nat>) {
    && LatchesOk(g, hs, loops)
    && (forall k :: 0 <= k < |loops| ==> loops[k] == Loop([hs[k]], loops[k].latches, [], None))
    && forall v: nat, k: nat :: MapsTo(bb, v, k) <==> k < |hs| && hs[k] == v
  }

  lemma ShapeAdd(g: Cfg, hs: seq<nat>, loops: seq<Loop>, bb: map<nat, nat>, v: nat, latches: seq<nat>)
    requires Shape(g, hs, loops, bb) && v !in hs && forall x :: x in latches <==> IsLatch(g, v, x)
    ensures v !in bb
    ensures Shape(g, hs + [v], loops + [Loop([v], latches, [], None)], bb[v := |loops|])
  {
    assert v !in bb by {
      assert v in bb ==> MapsTo(bb, v, bb[v]);
    }
    var bb' := bb[v := |loops|];
    forall x: nat, k: nat ensures MapsTo(bb', x, k) <==> k < |hs + [v]| && (hs + [v])[k] == x {
      assert MapsTo(bb, x, k) <==> k < |hs| && hs[k] == x;
    }
  }

  lemma HeaderIffLatches(g: Cfg, v: nat, latches: seq<nat>)
    requires forall x :: x in latches <==> IsLatch(g, v, x)
    ensures IsHeader(g, v) <==> latches != []
  {
    if latches != [] {
      assert latches[0] in latches;
    }
  }

  lemma FoundNext(g: Cfg, rpo: seq<nat>, k: nat, hs: seq<nat>)
    requires HeadersInOrder(g, rpo) && k < |rpo| && Found(g, rpo, k, hs)
    ensures IsHeader(g, rpo[k]) ==> rpo[k] !in hs
    ensures Found(g, rpo, k + 1, if IsHeader(g, rpo[k]) then hs + [rpo[k]] else hs)
  {
    assert rpo[..k + 1] == rpo[..k] + [rpo[k]];
    forall i | 0 <= i < |hs| && IsHeader(g, rpo[k]) ensures !Dominates(g, hs[i], rpo[k]) && hs[i] != rpo[k] {
      assert hs[i] in hs;
      var m :| 0 <= m < |rpo[..k]| && rpo[..k][m] == hs[i];
      assert rpo[m] == hs[i];
      DominatesSelf(g, hs[i]);
    }
    if !IsHeader(g, rpo[k]) {
      assert forall v :: v in rpo[..k + 1] && IsHeader(g, v) ==> v in rpo[..k];
    }
  }

  lemma FoundAll(g: Cfg, rpo: seq<nat>, hs: seq<nat>)
    requires Sound(g) && Found(g, rpo, |rpo|, hs) && forall v: nat :: v in rpo <==> v < |g.succs|
    ensures Headers(g, hs)
  {
    assert rpo[..|rpo|] == rpo;
    forall i | 0 <= i < |hs| ensures hs[i] < |g.succs| {
      assert hs[i] in hs;
    }
    forall v ensures v in hs <==> IsHeader(g, v) {
      if IsHeader(g, v) {
        var x :| IsLatch(g, v, x);
      }
    }
  }

  lemma FillHeader(g: Cfg, hs: seq<nat>, loops: seq<Loop>, bb: map<nat, nat>, j: nat, W: set<nat>)
    requires FillOk(g, hs, loops, bb, j, W) && j < |hs|
    ensures |loops| == |hs| && loops[j].blocks != [] && loops[j].blocks[0] == hs[j] && g.Wf()
  {
  }

  lemma StartWalk(g: Cfg, hs: seq<nat>, loops: seq<Loop>, j: nat)
    requires LatchesOk(g, hs, loops) && j < |hs|
    ensures WalkOk(g, hs[j], {}, loops[j].latches)
  {
    forall k | 0 <= k < |loops[j].latches| ensures InLoop(g, hs[j], loops[j].latches[k]) {
      assert loops[j].latches[k] in loops[j].latches;
      LatchInLoop(g, hs[j], loops[j].latches[k]);
    }
  }

  lemma SkipStep(g: Cfg, h: nat, W: set<nat>, work: seq<nat>, v: nat)
    requires WalkOk(g, h, W, work + [v]) && (v in W || v == h)
    ensures WalkOk(g, h, W, work)
  {
    assert forall x :: x in work + [v] <==> x in work || x == v;
    assert forall k :: 0 <= k < |work| ==> work[k] == (work + [v])[k];
  }

  lemma WalkRoom(g: Cfg, h: nat, W: set<nat>, work: seq<nat>, v: nat)
    requires WalkOk(g, h, W, work + [v]) && v !in W && v != h
    ensures InLoop(g, h, v) && |W + {v}| == |W| + 1 <= |g.succs|
  {
    assert InLoop(g, h, (work + [v])[|work|]);
    forall x | x in W + {v} ensures x < |g.succs| {
      InLoopBounds(g, h, x);
    }
    SetBelow(W + {v}, |g.succs|);
  }

  lemma SetParentLatches(g: Cfg, hs: seq<nat>, loops: seq<Loop>, i: nat, j: nat)
    requires LatchesOk(g, hs, loops) && i < |loops| && j < |loops| && i != j
    ensures LatchesOk(g, hs, SetParent(loops, i, j))
  {
  }

  lemma AddBlockParents(g: Cfg, hs: seq<nat>, loops: seq<Loop>, j: nat, W: set<nat>, v: nat)
    requires LatchesOk(g, hs, loops) && ParentsOk(g, hs, loops, j, W) && j < |loops|
    ensures LatchesOk(g, hs, AddBlock(loops, j, v)) && ParentsOk(g, hs, AddBlock(loops, j, v), j, W)
  {
    assert forall i :: 0 <= i < |loops| ==> AddBlock(loops, j, v)[i].parent == loops[i].parent;
  }

  lemma AdvanceFill(g: Cfg, hs: seq<nat>, loops: seq<Loop>, bb: map<nat, nat>, j: nat, W: set<nat>)
    requires FillOk(g, hs, loops, bb, j, W) && j < |hs|
    requires forall v :: v in W <==> v != hs[j] && InLoop(g, hs[j], v)
    ensures FillOk(g, hs, loops, bb, j + 1, {})
  {
    hide MapOk, ParentsOk, SubLoopsOk, BlocksOk, Headers, LatchesOk, InLoop;
    AdvanceMap(g, hs, bb, j, W);
    AdvanceParents(g, hs, loops, j, W);
  }

  lemma FillIsNest(g: Cfg, hs: seq<nat>, loops: seq<Loop>, bb: map<nat, nat>, top: seq<nat>)
    requires FillOk(g, hs, loops, bb, |hs|, {})
    requires Distinct(top) && forall i: nat :: i in top <==> i < |loops| && loops[i].parent == None
    ensures Nest(g, hs, loops, bb, top)
  {
    forall v: nat, i: nat ensures MapsTo(bb, v, i) <==> Innermost(g, hs, v, i) {
      assert MapsTo(bb, v, i) <==> Innermost(g, hs, v, i) && Walked(hs, |hs|, {}, v, i);
    }
    forall l | 0 <= l < |loops| && loops[l].parent != None ensures l < loops[l].parent.value < |loops| {
      var k: nat := loops[l].parent.value;
      assert loops[l].parent == Some(k);
    }
  }
}
