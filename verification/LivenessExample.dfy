// Two functions on which live intervals of phis are not what their blocks suggest
// (src/Analyses/Liveness.hpp:123-151).
module LivenessExample {
  import opened SeqUtil
  import opened ControlFlow
  import opened NaturalLoops
  import opened UseDef
  import opened RegionEdges
  import opened Schedule
  import opened LinearOrder
  import opened LiveRanges
  import RegAllocation

  // What makes a node table a function with this control flow.
  ghost predicate IsFunction(ns: Nodes, g: Cfg) {
    Dual(ns) && Flow(ns, g) && Lists(ns, g) && Sound(g)
  }

  // ---------------------------------------------------------------- a phi that starts too early

  // A constant flows from the start, where it is scheduled, into a phi of region 1, to
  // which nothing is scheduled and which returns the phi.
  const LATE: Nodes := [
    Node(Start(0), Void, [], multiset{2}),
    Node(Constant(7), Int32, [], multiset{4}),
    Node(Jmp, Void, [Some(0)], multiset{3}),
    Node(Region(1), Void, [Some(2)], multiset{4, 5}),
    Node(Phi, Int32, [Some(3), Some(1)], multiset{5}),
    Node(Ret, Void, [Some(3), Some(4)], multiset{6}),
    Node(End(2), Void, [Some(5)], multiset{})
  ]
  const LATE_FLOW := Cfg(0, [[1], [2], []], [[], [0], []])
  const LATE_CODE := Code(LATE, LATE_FLOW, [0, 1, 2], map[0 := [1]])

  lemma LateTable(u: nat)
    requires u < |LATE|
    ensures LATE[u].kind == if u == 0 then Start(0) else if u == 1 then Constant(7) else if u == 2 then Jmp
      else if u == 3 then Region(1) else if u == 4 then Phi else if u == 5 then Ret else End(2)
    ensures LATE[u].ops == if u == 2 then [Some(0)] else if u == 3 then [Some(2)] else if u == 4 then [Some(3), Some(1)]
      else if u == 5 then [Some(3), Some(4)] else if u == 6 then [Some(5)] else []
    ensures LATE[u].users == if u == 0 then multiset{2} else if u == 1 then multiset{4} else if u == 2 then multiset{3}
      else if u == 3 then multiset{4, 5} else if u == 4 then multiset{5} else if u == 5 then multiset{6} else multiset{}
  {
  }

  lemma LateSize()
    ensures |LATE| == 7
  {
  }

  lemma LateDual()
    ensures Dual(LATE)
  {
    LateSize();
    forall u: nat | u < |LATE| ensures InTable(LATE[u].ops, |LATE|) {
      LateTable(u);
    }
    hide LATE, Uses;
    forall n, u: nat | 0 <= n < |LATE| ensures LATE[n].users[u] == Uses(LATE, u, n) {
      LateUses(n, u);
    }
  }

  ghost predicate InTable(ops: seq<Slot>, n: nat) {
    forall i :: 0 <= i < |ops| && ops[i].Some? ==> ops[i].value < n
  }

  lemma LateUses(n: nat, u: nat)
    requires n < |LATE|
    ensures LATE[n].users[u] == Uses(LATE, u, n)
  {
    LateSize();
    LateTable(n);
    if u < |LATE| {
      LateTable(u);
    }
    hide LATE;
    TwoSlots(3, 1, n);
    TwoSlots(3, 4, n);
  }

  lemma LateEdges(r: nat, s: nat)
    ensures LATE_FLOW.Edge(r, s) <==> r < 2 && s == r + 1
  {
    if r < 3 {
      assert LATE_FLOW.succs[r] == if r == 0 then [1] else if r == 1 then [2] else [];
    }
  }

  lemma LateInputs(S: nat, i: nat, r: nat)
    ensures EntersFrom(LATE, S, i, r) <==> i == 0 && ((S == 3 && r == 0) || (S == 6 && r == 1))
  {
    hide LATE, Source;
    LateSources();
    if S < |LATE| {
      LateTable(S);
    }
  }

  lemma LateSources()
    ensures |LATE| == 7 && LATE[2].kind.Jmp? && LATE[5].kind.Ret?
    ensures Source(LATE, 2) == Some(0) && Source(LATE, 5) == Some(1)
  {
  }

  lemma LateIsFunction()
    ensures IsFunction(LATE, LATE_FLOW)
  {
    LateDual();
    LateSound();
    LateLists();
    hide EntersFrom, Cfg.Edge, Dual, Sound, Lists, LATE;
    forall r: nat, s: nat ensures LATE_FLOW.Edge(r, s) <==> NodeEdge(LATE, r, s) {
      LateEdges(r, s);
      if NodeEdge(LATE, r, s) {
        var S, i := EdgeInput(LATE, r, s);
        LateInputs(S, i, r);
        LateTable(S);
      }
      if r < 2 && s == r + 1 {
        var S: nat := if r == 0 then 3 else 6;
        LateInputs(S, 0, r);
        InputEdge(LATE, S, 0, r);
        LateTable(S);
      }
    }
  }

  lemma LateLists()
    ensures Lists(LATE, LATE_FLOW)
  {
    LateSources();
    assert LATE_FLOW.preds == [[], [0], []];
    forall S | 0 <= S < |LATE| && LATE[S].kind.IsRegion()
      ensures LATE[S].kind.region < 3 && LATE_FLOW.preds[LATE[S].kind.region] == Predecessors(LATE, LATE[S].ops)
    {
      LateTable(S);
      assert [Some(2)][..0] == [] && [Some(5)][..0] == [];
    }
  }

  lemma LateSound()
    ensures Sound(LATE_FLOW) && Forward(LATE_FLOW, [0, 1, 2]) && LATE_FLOW.Listed(1)
  {
    var g := LATE_FLOW;
    assert g.succs == [[1], [2], []] && g.preds == [[], [0], []];
    forall r: nat | r < 2 ensures g.Listed(r) {
      forall u: nat ensures u in g.preds[r] <==> g.Edge(u, r) {
        LateEdges(u, r);
      }
    }
    StartReachable(g);
    LateEdges(0, 1);
    LateEdges(1, 2);
    ReachableStep(g, 0, 1);
    ReachableStep(g, 1, 2);
    forall u: nat, v: nat | g.Edge(u, v) ensures Precedes([0, 1, 2], u, v) {
      LateEdges(u, v);
      RowOrder(3, u, v);
      assert [0, 1, 2] == RowOf(3);
    }
    hide Cfg.Edge;
  }

  // 0, 1, up to n - 1.
  function RowOf(n: nat): (xs: seq<nat>)
    ensures |xs| == n && forall i :: 0 <= i < n ==> xs[i] == i
  {
    seq(n, i => i)
  }

  lemma RowOrder(n: nat, u: nat, v: nat)
    requires u < v < n
    ensures Precedes(RowOf(n), u, v)
  {
    var xs := RowOf(n);
    assert xs[u] == u && xs[v] == v;
    assert xs[FirstIndex(xs, u)] == u && xs[FirstIndex(xs, v)] == v;
  }

  lemma LateScheduled(r: nat)
    ensures ListOf(LATE_CODE.data, r) == if r == 0 then [1] else []
  {
  }

  lemma LatePhis(r: nat, v: nat)
    ensures PhiOf(LATE, r, v) <==> r == 1 && v == 4
  {
    if v < |LATE| {
      LateTable(v);
      LateTable(3);
      LateSize();
    }
  }

  lemma LatePhiUser(u: nat)
    requires IsPhi(LATE, u)
    ensures u == 4 && Full(LATE, u) && UserOk(LATE, LATE_FLOW, u)
      && ListedRegion(LATE_FLOW, RegionAt(LATE, SlotOr(LATE[u].ops, 0)))
  {
    LateSound();
    LateTable(u);
    LateTable(3);
    LateSize();
    assert LATE_FLOW.preds == [[], [0], []];
    hide LATE, Cfg.Listed;
  }

  // It meets every condition of the analysis,
  lemma LateStraight()
    ensures Straight(LATE_CODE)
  {
    LateSound();
    LateSize();
    LateTable(1);
    hide Sound, Forward, UserOk, LATE;
    assert LATE_FLOW.preds == [[], [0], []];
    forall r: nat, u: nat {:trigger u in ListOf(LATE_CODE.data, r)} | u in ListOf(LATE_CODE.data, r) && u < |LATE| ensures Full(LATE, u) {
      LateScheduled(r);
    }
    forall u: nat | IsPhi(LATE, u)
      ensures Full(LATE, u) && UserOk(LATE, LATE_FLOW, u) && ListedRegion(LATE_FLOW, RegionAt(LATE, SlotOr(LATE[u].ops, 0)))
    {
      LatePhiUser(u);
    }
  }

  lemma LateNeeds(u: nat, i: nat, v: nat, r: nat)
    ensures PhiNeeds(LATE, LATE_FLOW, u, i, v, r) && IsPhi(LATE, u) ==> v == 1 && r == 0
  {
    if IsPhi(LATE, u) {
      LatePhiUser(u);
      LateTable(4);
      LateTable(3);
      LateSize();
      assert LATE_FLOW.preds == [[], [0], []];
      hide LATE;
    }
  }

  lemma LatePlaced()
    ensures Placed(LATE_CODE)
  {
    LateSize();
    LateTable(1);
    hide PhiOf, PhiNeeds, IsPhi, LATE;
    forall r: nat, v: nat {:trigger v in ListOf(LATE_CODE.data, r)} ensures v in ListOf(LATE_CODE.data, r) <==> r == 0 && v == 1 {
      LateScheduled(r);
    }
    forall r: nat, d: nat, v: nat | EdgeUse(LATE_CODE, r, v) && Defined(LATE_CODE, d, v) ensures Dominates(LATE_FLOW, d, r) {
      var u: nat, i: nat :| IsPhi(LATE, u) && PhiNeeds(LATE, LATE_FLOW, u, i, v, r);
      LateNeeds(u, i, v, r);
      LatePhis(d, v);
    }
    forall r: nat ensures ListOf(LATE_CODE.data, r) == if r == 0 then [1] else [] {
      LateScheduled(r);
    }
  }

  // and its phi starts at 0, before its block and before the value it takes.
  lemma LatePhi(num: map<nat, nat>, blocks: map<nat, Interval>, liveIn: map<nat, set<nat>>, m: map<nat, Interval>)
    requires Analysed(LATE_CODE, num, blocks, liveIn, m)
    ensures IsFunction(LATE, LATE_FLOW) && Straight(LATE_CODE) && Placed(LATE_CODE)
    ensures PhiOf(LATE, 1, 4) && Look(m, 4).first == 0 && BlockOf(blocks, 1).first == 4
  {
    hide Straight, Placed, Numbered, IsFunction, LATE, LATE_FLOW, PhiOf, Look;
    LateIsFunction();
    LateStraight();
    LatePlaced();
    LatePhis(1, 4);
    var next: nat :| Numbered(LATE_CODE, num, blocks, 3, next);
    LateBlocks(num, blocks, next);
    LateSuccs();
    hide LATE_CODE;
    PhiStartsAtBlock(LATE_CODE, num, blocks, liveIn, m, 1, 4);
  }

  lemma LateSuccs()
    ensures |LATE_CODE.g.succs| == 3 && LATE_CODE.ns == LATE
  {
    hide LATE;
  }

  lemma LateBlocks(num: map<nat, nat>, blocks: map<nat, Interval>, next: nat)
    requires Numbered(LATE_CODE, num, blocks, 3, next)
    ensures BlockOf(blocks, 1).first == 4
  {
    hide LATE;
    assert LATE_CODE.order[0] == 0 && LATE_CODE.order[1] == 1;
    assert BlockOk(LATE_CODE, num, 0, Look(blocks, 0));
    assert |LATE_CODE.data[0]| == 1;
  }

  // ---------------------------------------------------------------- two phis in one register

  // The start calls a function; its result flows into two phis of region 1 and on into
  // two phis of region 2, which returns their sum. Only the sum is scheduled.
  const EARLY: Nodes := [
    Node(Start(0), Void, [], multiset{1}),
    Node(Call(0), Int32, [Some(0)], multiset{2, 3, 4}),
    Node(Region(1), Void, [Some(1)], multiset{3, 4, 5}),
    Node(Phi, Int32, [Some(2), Some(1)], multiset{7}),
    Node(Phi, Int32, [Some(2), Some(1)], multiset{8}),
    Node(Jmp, Void, [Some(2)], multiset{6}),
    Node(Region(2), Void, [Some(5)], multiset{7, 8, 10}),
    Node(Phi, Int32, [Some(6), Some(3)], multiset{9}),
    Node(Phi, Int32, [Some(6), Some(4)], multiset{9}),
    Node(Add, Int32, [Some(7), Some(8)], multiset{10}),
    Node(Ret, Void, [Some(6), Some(9)], multiset{11}),
    Node(End(3), Void, [Some(10)], multiset{})
  ]
  const EARLY_FLOW := Cfg(0, [[1], [2], [3], []], [[], [0], [1], []])
  const EARLY_CODE := Code(EARLY, EARLY_FLOW, [0, 1, 2, 3], map[2 := [9]])

  lemma EarlyTable(u: nat)
    requires u < |EARLY|
    ensures EARLY[u].kind == if u == 0 then Start(0) else if u == 1 then Call(0) else if u == 2 then Region(1)
      else if u == 3 || u == 4 || u == 7 || u == 8 then Phi else if u == 5 then Jmp else if u == 6 then Region(2)
      else if u == 9 then Add else if u == 10 then Ret else End(3)
    ensures EARLY[u].ops == if u == 1 then [Some(0)] else if u == 2 then [Some(1)]
      else if u == 3 || u == 4 then [Some(2), Some(1)] else if u == 5 then [Some(2)] else if u == 6 then [Some(5)]
      else if u == 7 then [Some(6), Some(3)] else if u == 8 then [Some(6), Some(4)] else if u == 9 then [Some(7), Some(8)]
      else if u == 10 then [Some(6), Some(9)] else if u == 11 then [Some(10)] else []
  {
  }

  lemma EarlySize()
    ensures |EARLY| == 12
  {
  }

  lemma EarlyUsers(n: nat)
    requires n < |EARLY|
    ensures EARLY[n].users == if n == 0 then multiset{1} else if n == 1 then multiset{2, 3, 4}
      else if n == 2 then multiset{3, 4, 5} else if n == 3 then multiset{7} else if n == 4 then multiset{8}
      else if n == 5 then multiset{6} else if n == 6 then multiset{7, 8, 10} else if n == 7 || n == 8 then multiset{9}
      else if n == 9 then multiset{10} else if n == 10 then multiset{11} else multiset{}
  {
  }

  lemma EarlyDual()
    ensures Dual(EARLY)
  {
    EarlySize();
    forall u: nat | u < |EARLY| ensures InTable(EARLY[u].ops, |EARLY|) {
      EarlyTable(u);
    }
    hide EARLY, Uses;
    forall n, u: nat | 0 <= n < |EARLY| ensures EARLY[n].users[u] == Uses(EARLY, u, n) {
      EarlyUses(n, u);
    }
  }

  ghost predicate EarlyHolds(u: nat, n: nat) {
    || (u == 1 && n == 0) || (u == 2 && n == 1) || ((u == 3 || u == 4) && (n == 2 || n == 1)) || (u == 5 && n == 2)
    || (u == 6 && n == 5) || (u == 7 && (n == 6 || n == 3)) || (u == 8 && (n == 6 || n == 4)) || (u == 9 && (n == 7 || n == 8))
    || (u == 10 && (n == 6 || n == 9)) || (u == 11 && n == 10)
  }

  lemma EarlyUses(n: nat, u: nat)
    requires n < |EARLY|
    ensures EARLY[n].users[u] == Uses(EARLY, u, n)
  {
    EarlySize();
    EarlyUsersHold(n, u);
    if u < |EARLY| {
      EarlySlots(u, n);
    }
  }

  lemma EarlyUsersHold(n: nat, u: nat)
    requires n < |EARLY|
    ensures EARLY[n].users[u] == if EarlyHolds(u, n) then 1 else 0
  {
    EarlySize();
    EarlyUsers(n);
    hide EARLY;
  }

  lemma EarlySlots(u: nat, n: nat)
    requires u < |EARLY|
    ensures multiset(EARLY[u].ops)[Some(n)] == if EarlyHolds(u, n) then 1 else 0
  {
    EarlySize();
    EarlyTable(u);
    hide EARLY;
    TwoSlots(2, 1, n);
    TwoSlots(6, 3, n);
    TwoSlots(6, 4, n);
    TwoSlots(7, 8, n);
    TwoSlots(6, 9, n);
  }

  lemma EarlyEdges(r: nat, s: nat)
    ensures EARLY_FLOW.Edge(r, s) <==> r < 3 && s == r + 1
  {
    if r < 4 {
      assert EARLY_FLOW.succs[r] == if r == 0 then [1] else if r == 1 then [2] else if r == 2 then [3] else [];
    }
  }

  lemma EarlySources()
    ensures |EARLY| == 12 && EARLY[1].kind.Call? && EARLY[5].kind.Jmp? && EARLY[10].kind.Ret?
    ensures Source(EARLY, 1) == Some(0) && Source(EARLY, 5) == Some(1) && Source(EARLY, 10) == Some(2)
  {
  }

  lemma EarlyInputs(S: nat, i: nat, r: nat)
    ensures EntersFrom(EARLY, S, i, r) <==> i == 0 && ((S == 2 && r == 0) || (S == 6 && r == 1) || (S == 11 && r == 2))
  {
    hide EARLY, Source;
    EarlySources();
    if S < |EARLY| {
      EarlyTable(S);
    }
  }

  lemma EarlyIsFunction()
    ensures IsFunction(EARLY, EARLY_FLOW)
  {
    EarlyDual();
    EarlySound();
    EarlyLists();
    hide EntersFrom, Cfg.Edge, Dual, Sound, Lists, EARLY;
    forall r: nat, s: nat ensures EARLY_FLOW.Edge(r, s) <==> NodeEdge(EARLY, r, s) {
      EarlyEdges(r, s);
      if NodeEdge(EARLY, r, s) {
        var S, i := EdgeInput(EARLY, r, s);
        EarlyInputs(S, i, r);
        EarlyTable(S);
      }
      if r < 3 && s == r + 1 {
        var S: nat := if r == 0 then 2 else if r == 1 then 6 else 11;
        EarlyInputs(S, 0, r);
        InputEdge(EARLY, S, 0, r);
        EarlyTable(S);
      }
    }
  }

  lemma EarlyLists()
    ensures Lists(EARLY, EARLY_FLOW)
  {
    EarlySources();
    assert EARLY_FLOW.preds == [[], [0], [1], []];
    forall S | 0 <= S < |EARLY| && EARLY[S].kind.IsRegion()
      ensures EARLY[S].kind.region < 4 && EARLY_FLOW.preds[EARLY[S].kind.region] == Predecessors(EARLY, EARLY[S].ops)
    {
      EarlyTable(S);
      assert [Some(1)][..0] == [] && [Some(5)][..0] == [] && [Some(10)][..0] == [];
    }
  }

  lemma EarlySound()
    ensures Sound(EARLY_FLOW) && EARLY_FLOW.Listed(1) && EARLY_FLOW.Listed(2)
  {
    var g := EARLY_FLOW;
    assert g.succs == [[1], [2], [3], []] && g.preds == [[], [0], [1], []];
    forall r: nat | r < 3 ensures g.Listed(r) {
      forall u: nat ensures u in g.preds[r] <==> g.Edge(u, r) {
        EarlyEdges(u, r);
      }
    }
    StartReachable(g);
    EarlyEdges(0, 1);
    EarlyEdges(1, 2);
    EarlyEdges(2, 3);
    ReachableStep(g, 0, 1);
    ReachableStep(g, 1, 2);
    ReachableStep(g, 2, 3);
    hide Cfg.Edge;
  }

  lemma EarlyForward()
    ensures Forward(EARLY_FLOW, [0, 1, 2, 3])
  {
    assert [0, 1, 2, 3] == RowOf(4);
    forall u: nat, v: nat | EARLY_FLOW.Edge(u, v) ensures Precedes([0, 1, 2, 3], u, v) {
      EarlyEdges(u, v);
      RowOrder(4, u, v);
    }
  }

  lemma EarlyPhiUser(u: nat)
    requires IsPhi(EARLY, u)
    ensures (u == 3 || u == 4 || u == 7 || u == 8) && Full(EARLY, u) && UserOk(EARLY, EARLY_FLOW, u)
      && ListedRegion(EARLY_FLOW, RegionAt(EARLY, SlotOr(EARLY[u].ops, 0)))
  {
    hide EARLY, Cfg.Listed;
    EarlySound();
    EarlySize();
    EarlyTable(u);
    EarlyTable(2);
    EarlyTable(6);
    assert EARLY_FLOW.preds == [[], [0], [1], []];
  }

  lemma EarlyScheduled(r: nat)
    ensures ListOf(EARLY_CODE.data, r) == if r == 2 then [9] else []
  {
  }

  lemma EarlyStraight()
    ensures Straight(EARLY_CODE)
  {
    hide Sound, Forward, UserOk, EARLY;
    EarlySound();
    EarlyForward();
    EarlySize();
    EarlyTable(9);
    assert EARLY_FLOW.preds == [[], [0], [1], []];
    forall r: nat, u: nat {:trigger u in ListOf(EARLY_CODE.data, r)} | u in ListOf(EARLY_CODE.data, r) && u < |EARLY| ensures Full(EARLY, u) {
      EarlyScheduled(r);
    }
    forall u: nat | IsPhi(EARLY, u)
      ensures Full(EARLY, u) && UserOk(EARLY, EARLY_FLOW, u) && ListedRegion(EARLY_FLOW, RegionAt(EARLY, SlotOr(EARLY[u].ops, 0)))
    {
      EarlyPhiUser(u);
    }
  }

  lemma EarlyNeeds(u: nat, i: nat, v: nat, r: nat)
    ensures PhiNeeds(EARLY, EARLY_FLOW, u, i, v, r) && IsPhi(EARLY, u) ==>
      i == 1 && if u == 3 || u == 4 then v == 1 && r == 0 else (u == 7 || u == 8) && v == u - 4 && r == 1
  {
    if IsPhi(EARLY, u) {
      EarlyPhiUser(u);
      EarlyTable(u);
      EarlyTable(2);
      EarlyTable(6);
      EarlySize();
      assert EARLY_FLOW.preds == [[], [0], [1], []];
      hide EARLY;
    }
  }

  lemma EarlyPhiAt(r: nat, v: nat)
    ensures PhiOf(EARLY, r, v) <==> (r == 1 && (v == 3 || v == 4)) || (r == 2 && (v == 7 || v == 8))
  {
    hide EARLY;
    EarlySize();
    EarlyTable(2);
    EarlyTable(6);
    if v < |EARLY| {
      EarlyTable(v);
    }
  }

  lemma EarlyPlaced()
    ensures Placed(EARLY_CODE)
  {
    hide PhiOf, PhiNeeds, IsPhi, EARLY;
    EarlySize();
    EarlyTable(9);
    forall r: nat, v: nat {:trigger v in ListOf(EARLY_CODE.data, r)} ensures v in ListOf(EARLY_CODE.data, r) <==> r == 2 && v == 9 {
      EarlyScheduled(r);
    }
    forall r: nat ensures ListOf(EARLY_CODE.data, r) == if r == 2 then [9] else [] {
      EarlyScheduled(r);
    }
    forall r: nat, d: nat, v: nat | EdgeUse(EARLY_CODE, r, v) && Defined(EARLY_CODE, d, v) ensures Dominates(EARLY_FLOW, d, r) {
      var u: nat, i: nat :| IsPhi(EARLY, u) && PhiNeeds(EARLY, EARLY_FLOW, u, i, v, r);
      EarlyNeeds(u, i, v, r);
      EarlyPhiAt(d, v);
    }
    forall r: nat, i: nat, d: nat, v: nat | i < |ListOf(EARLY_CODE.data, r)| && Reads(EARLY, ListOf(EARLY_CODE.data, r)[i], v) && Defined(EARLY_CODE, d, v)
      ensures d == r == 2 && PhiOf(EARLY, r, v)
    {
      EarlyPhiAt(d, v);
      EarlyPhiAt(2, v);
    }
  }

  // Both phis of region 1 are live at its end,
  lemma EarlyWanted()
    ensures EdgeUse(EARLY_CODE, 1, 3) && EdgeUse(EARLY_CODE, 1, 4)
  {
    EarlySize();
    EarlyTable(6);
    EarlyTable(7);
    EarlyTable(8);
    assert EARLY_FLOW.preds[2] == [1];
    hide EARLY;
    assert IsPhi(EARLY, 7) && PhiNeeds(EARLY, EARLY_FLOW, 7, 1, 3, 1);
    assert IsPhi(EARLY, 8) && PhiNeeds(EARLY, EARLY_FLOW, 8, 1, 4, 1);
  }

  // and no region that has started wants them.
  lemma EarlyShort(v: nat)
    requires v == 3 || v == 4
    ensures !Lasts(EARLY_CODE, v)
  {
    hide EARLY;
    forall e: nat | e < 4 ensures !LastsIn(EARLY_CODE, e, v) {
      if e < 2 {
        EarlyNotStarted(e);
      } else {
        EarlyUnwanted(e, v);
      }
    }
  }

  lemma EarlyNotStarted(e: nat)
    requires e < 2
    ensures !Started(EARLY_CODE, e)
  {
    hide EARLY;
    assert EARLY_CODE.data.Keys == {2};
    assert EARLY_CODE.order == RowOf(4);
    RowOrder(4, e, 2);
  }

  lemma EarlyUnwanted(e: nat, v: nat)
    requires (e == 2 || e == 3) && (v == 3 || v == 4)
    ensures !Wanted(EARLY_CODE, e, v) && v !in ListOf(EARLY_CODE.data, e)
  {
    hide EARLY, PhiNeeds, IsPhi, LiveAt;
    EarlySize();
    EarlyTable(9);
    EarlyScheduled(2);
    EarlyScheduled(3);
    assert !Reads(EARLY, 9, v);
    if EdgeUse(EARLY_CODE, e, v) {
      var u: nat, i: nat :| IsPhi(EARLY, u) && PhiNeeds(EARLY, EARLY_FLOW, u, i, v, e);
      EarlyNeeds(u, i, v, e);
    }
    if s: nat :| EARLY_FLOW.Edge(e, s) && LiveAt(EARLY_CODE, s, v) {
      EarlyEdges(e, s);
      EarlyEndDead(v);
    }
  }

  // Nothing is live at the end of the function.
  lemma EarlyEndDead(v: nat)
    ensures !LiveAt(EARLY_CODE, 3, v)
  {
    EarlyScheduled(3);
    LiveUnfold(EARLY_CODE, 3, v);
    hide EARLY, PhiNeeds, IsPhi, LiveAt, PhiOf;
    if EdgeUse(EARLY_CODE, 3, v) {
      var u: nat, i: nat :| IsPhi(EARLY, u) && PhiNeeds(EARLY, EARLY_FLOW, u, i, v, 3);
      EarlyNeeds(u, i, v, 3);
    }
    forall s: nat ensures !EARLY_FLOW.Edge(3, s) {
      EarlyEdges(3, s);
    }
  }

  lemma EarlyUnscheduled()
    ensures 1 !in EARLY_CODE.data && 1 < |EARLY_CODE.g.succs| && EARLY_CODE.ns == EARLY
  {
    hide EARLY;
  }

  // Their intervals are empty.
  lemma EarlyPhis(num: map<nat, nat>, blocks: map<nat, Interval>, liveIn: map<nat, set<nat>>, m: map<nat, Interval>)
    requires Analysed(EARLY_CODE, num, blocks, liveIn, m)
    ensures IsFunction(EARLY, EARLY_FLOW) && Straight(EARLY_CODE) && Placed(EARLY_CODE)
    ensures PhiOf(EARLY, 1, 3) && Wanted(EARLY_CODE, 1, 3) && PhiOf(EARLY, 1, 4) && Wanted(EARLY_CODE, 1, 4)
    ensures !Lasts(EARLY_CODE, 3) && Look(m, 3) == Look(m, 4) == Interval(0, 0)
  {
    hide Straight, Placed, EARLY, EARLY_CODE, EARLY_FLOW, Analysed, Lasts, PhiOf, EdgeUse, Look, IsFunction;
    EarlyUnscheduled();
    EarlyIsFunction();
    EarlyStraight();
    EarlyPlaced();
    EarlyWanted();
    EarlyPhiAt(1, 3);
    EarlyPhiAt(1, 4);
    EarlyShort(3);
    EarlyShort(4);
    LastsIff(EARLY_CODE, num, blocks, liveIn, m, 3);
    LastsIff(EARLY_CODE, num, blocks, liveIn, m, 4);
    PhiStartsAtBlock(EARLY_CODE, num, blocks, liveIn, m, 1, 3);
    PhiStartsAtBlock(EARLY_CODE, num, blocks, liveIn, m, 1, 4);
  }

  // Analysis and allocation, run on that function with one register, give it to both.
  method RunEarly() returns (L: Liveness, R: RegAllocation.RegAlloc, iv: seq<RegAllocation.Interval>)
    ensures |iv| == 5 && iv[0] == iv[1] == RegAllocation.Interval(0, 0)
    ensures forall k :: 0 <= k < 5 ==>
      iv[k] == RegAllocation.Interval(Look(L.intervals, [3, 4, 7, 8, 9][k]).first, Look(L.intervals, [3, 4, 7, 8, 9][k]).second)
    ensures 0 in R.regMap && 1 in R.regMap && R.numRegs == 1
    ensures !R.regMap[0].isSpill && !R.regMap[1].isSpill && R.regMap[0].loc == R.regMap[1].loc == 0
  {
    hide Straight, Placed, Analysed, EARLY, EARLY_CODE, Look, RegAllocation.Safe, RegAllocation.KeepsEmpty;
    EarlyStraight();
    EarlyPlaced();
    L := new Liveness(EARLY_CODE);
    EarlyPhis(L.liveNumbers, L.blocks, L.liveIn, L.intervals);
    iv := [];
    var vs: seq<nat> := [3, 4, 7, 8, 9];
    for k := 0 to 5
      invariant |iv| == k && forall j :: 0 <= j < k ==>
        iv[j] == RegAllocation.Interval(Look(L.intervals, vs[j]).first, Look(L.intervals, vs[j]).second)
    {
      var i := Look(L.intervals, vs[k]);
      iv := iv + [RegAllocation.Interval(i.first, i.second)];
    }
    R := new RegAllocation.RegAlloc(iv, 1);
    BothKept(iv, R.regMap, |RegAllocation.Spilled(R.regMap)|);
  }

  lemma BothKept(iv: seq<RegAllocation.Interval>, rm: RegAllocation.RegMap, slots: nat)
    requires |iv| >= 2 && iv[0] == iv[1] == RegAllocation.Interval(0, 0) && 0 in rm && 1 in rm
    requires RegAllocation.Safe(iv, 1, rm, slots) && RegAllocation.KeepsEmpty(iv, rm)
    ensures !rm[0].isSpill && !rm[1].isSpill && rm[0].loc == rm[1].loc == 0
  {
    assert 0 in RegAllocation.Kept(rm) && 1 in RegAllocation.Kept(rm);
  }
}
