// A branch whose arms bring different values to one phi: which value is live where, and
// every live number and interval, worked out (src/Analyses/Liveness.hpp:26-151).
module JoinExample {
  import opened SeqUtil
  import opened ControlFlow
  import opened NaturalLoops
  import opened UseDef
  import opened RegionEdges
  import opened Schedule
  import opened LinearOrder
  import opened LiveRanges
  import opened LivenessExample

  // The start branches on argument 1; region 1 brings 5, region 2 brings 9. Region 3
  // returns the sum of what arrives and argument 0.
  const JOIN: Nodes := [
    Node(Start(0), Void, [], multiset{3}),
    Node(FunctionArg(0), Int32, [], multiset{14}),
    Node(FunctionArg(1), Int1, [], multiset{3}),
    Node(If, Void, [Some(0), Some(2)], multiset{4, 5}),
    Node(IfTrue, Void, [Some(3)], multiset{6}),
    Node(IfFalse, Void, [Some(3)], multiset{7}),
    Node(Region(1), Void, [Some(4)], multiset{8}),
    Node(Region(2), Void, [Some(5)], multiset{9}),
    Node(Jmp, Void, [Some(6)], multiset{10}),
    Node(Jmp, Void, [Some(7)], multiset{10}),
    Node(Region(3), Void, [Some(8), Some(9)], multiset{13, 15}),
    Node(Constant(5), Int32, [], multiset{13}),
    Node(Constant(9), Int32, [], multiset{13}),
    Node(Phi, Int32, [Some(10), Some(11), Some(12)], multiset{14}),
    Node(Add, Int32, [Some(13), Some(1)], multiset{15}),
    Node(Ret, Void, [Some(10), Some(14)], multiset{16}),
    Node(End(4), Void, [Some(15)], multiset{})
  ]
  const JOIN_FLOW := Cfg(0, [[1, 2], [3], [3], [4], []], [[], [0], [0], [1, 2], []])
  const JOIN_DATA: map<nat, seq<nat>> := map[0 := [1, 2], 1 := [11], 2 := [12], 3 := [14]]
  const JOIN_CODE := Code(JOIN, JOIN_FLOW, [0, 1, 2, 3, 4], JOIN_DATA)

  lemma JoinSize()
    ensures |JOIN| == 17
  {
  }

  lemma JoinKinds(u: nat)
    requires u < |JOIN|
    ensures JOIN[u].kind == if u == 0 then Start(0) else if u == 1 then FunctionArg(0) else if u == 2 then FunctionArg(1)
      else if u == 3 then If else if u == 4 then IfTrue else if u == 5 then IfFalse else if u == 6 then Region(1)
      else if u == 7 then Region(2) else if u == 8 || u == 9 then Jmp else if u == 10 then Region(3)
      else if u == 11 then Constant(5) else if u == 12 then Constant(9) else if u == 13 then Phi
      else if u == 14 then Add else if u == 15 then Ret else End(4)
  {
  }

  lemma JoinOps(u: nat)
    requires u < |JOIN|
    ensures JOIN[u].ops == if u == 3 then [Some(0), Some(2)] else if u == 4 || u == 5 then [Some(3)]
      else if u == 6 then [Some(4)] else if u == 7 then [Some(5)] else if u == 8 then [Some(6)] else if u == 9 then [Some(7)]
      else if u == 10 then [Some(8), Some(9)] else if u == 13 then [Some(10), Some(11), Some(12)]
      else if u == 14 then [Some(13), Some(1)] else if u == 15 then [Some(10), Some(14)] else if u == 16 then [Some(15)] else []
  {
  }

  lemma JoinUsers(n: nat)
    requires n < |JOIN|
    ensures JOIN[n].users == if n == 0 || n == 2 then multiset{3} else if n == 1 || n == 13 then multiset{14}
      else if n == 3 then multiset{4, 5} else if n == 4 then multiset{6} else if n == 5 then multiset{7}
      else if n == 6 then multiset{8} else if n == 7 then multiset{9} else if n == 8 || n == 9 then multiset{10}
      else if n == 10 then multiset{13, 15} else if n == 11 || n == 12 then multiset{13} else if n == 14 then multiset{15}
      else if n == 15 then multiset{16} else multiset{}
  {
  }

  ghost predicate Holds(u: nat, n: nat) {
    || (u == 3 && (n == 0 || n == 2)) || ((u == 4 || u == 5) && n == 3) || (u == 6 && n == 4) || (u == 7 && n == 5)
    || (u == 8 && n == 6) || (u == 9 && n == 7) || (u == 10 && (n == 8 || n == 9))
    || (u == 13 && (n == 10 || n == 11 || n == 12)) || (u == 14 && (n == 13 || n == 1)) || (u == 15 && (n == 10 || n == 14))
    || (u == 16 && n == 15)
  }

  lemma JoinUsersHold(n: nat, u: nat)
    requires n < |JOIN|
    ensures JOIN[n].users[u] == if Holds(u, n) then 1 else 0
  {
    JoinSize();
    JoinUsers(n);
    hide JOIN;
  }

  lemma JoinSlots(u: nat, n: nat)
    requires u < |JOIN|
    ensures multiset(JOIN[u].ops)[Some(n)] == if Holds(u, n) then 1 else 0
  {
    JoinSize();
    JoinOps(u);
    hide JOIN;
    TwoSlots(0, 2, n);
    TwoSlots(8, 9, n);
    ThreeSlots(10, 11, 12, n);
    TwoSlots(13, 1, n);
    TwoSlots(10, 14, n);
  }

  lemma JoinDual()
    ensures Dual(JOIN)
  {
    JoinSize();
    forall u: nat | u < |JOIN| ensures InTable(JOIN[u].ops, |JOIN|) {
      JoinOps(u);
    }
    hide JOIN;
    forall n, u: nat | 0 <= n < |JOIN| ensures JOIN[n].users[u] == Uses(JOIN, u, n) {
      JoinUsersHold(n, u);
      if u < |JOIN| {
        JoinSlots(u, n);
      } else {
        JoinHolds(u, n);
      }
    }
  }

  lemma JoinHolds(u: nat, n: nat)
    ensures Holds(u, n) ==> u < 17
  {
  }

  // ---------------------------------------------------------------- its control flow

  ghost predicate Arc(r: nat, s: nat) {
    (r == 0 && (s == 1 || s == 2)) || ((r == 1 || r == 2) && s == 3) || (r == 3 && s == 4)
  }

  lemma JoinEdges(r: nat, s: nat)
    ensures JOIN_FLOW.Edge(r, s) <==> Arc(r, s)
  {
    if r < 5 {
      assert JOIN_FLOW.succs[r] == if r == 0 then [1, 2] else if r == 3 then [4] else if r == 4 then [] else [3];
    }
  }

  lemma ExitSource(ns: Nodes, x: nat, X: nat)
    requires x < |ns| && (ns[x].kind.Jmp? || ns[x].kind.Ret?) && ns[x].ops != [] && ns[x].ops[0] == Some(X)
    requires X < |ns| && ns[X].kind.IsRegion()
    ensures Source(ns, x) == Some(ns[X].kind.region)
  {
  }

  lemma ArmSource(ns: Nodes, x: nat, b: nat, X: nat)
    requires x < |ns| && (ns[x].kind.IfTrue? || ns[x].kind.IfFalse?) && ns[x].ops != [] && ns[x].ops[0] == Some(b)
    requires b < |ns| && ns[b].kind.If? && ns[b].ops != [] && ns[b].ops[0] == Some(X)
    requires X < |ns| && ns[X].kind.IsRegion()
    ensures Source(ns, x) == Some(ns[X].kind.region)
  {
  }

  lemma JoinSources()
    ensures |JOIN| == 17 && Source(JOIN, 4) == Some(0) && Source(JOIN, 5) == Some(0)
    ensures Source(JOIN, 8) == Some(1) && Source(JOIN, 9) == Some(2) && Source(JOIN, 15) == Some(3)
  {
    JoinSize();
    JoinArm(4);
    JoinArm(5);
    JoinExit(8);
    JoinExit(9);
    JoinExit(15);
    hide JOIN, Source;
  }

  lemma JoinArm(x: nat)
    requires x == 4 || x == 5
    ensures |JOIN| == 17 && Source(JOIN, x) == Some(0)
  {
    hide JOIN, Source;
    JoinSize();
    JoinKinds(0);
    JoinKinds(3);
    JoinKinds(x);
    JoinOps(3);
    JoinOps(x);
    ArmSource(JOIN, x, 3, 0);
  }

  lemma JoinExit(x: nat)
    requires x == 8 || x == 9 || x == 15
    ensures |JOIN| == 17 && Source(JOIN, x) == Some(if x == 8 then 1 else if x == 9 then 2 else 3)
  {
    hide JOIN, Source;
    JoinSize();
    var X: nat := if x == 8 then 6 else if x == 9 then 7 else 10;
    JoinKinds(X);
    JoinKinds(x);
    JoinOps(x);
    ExitSource(JOIN, x, X);
  }

  ghost predicate EntersJoin(S: nat, i: nat, r: nat) {
    (i == 0 && (((S == 6 || S == 7) && r == 0) || (S == 10 && r == 1) || (S == 16 && r == 3))) || (i == 1 && S == 10 && r == 2)
  }

  lemma JoinInputs(S: nat, i: nat, r: nat)
    ensures EntersFrom(JOIN, S, i, r) <==> EntersJoin(S, i, r)
  {
    hide JOIN, Source;
    JoinSources();
    if S < |JOIN| {
      JoinKinds(S);
      JoinOps(S);
      if i < |JOIN[S].ops| && JOIN[S].ops[i].Some? && JOIN[S].ops[i].value < |JOIN| {
        JoinKinds(JOIN[S].ops[i].value);
      }
    }
  }

  lemma JoinIsFunction()
    ensures IsFunction(JOIN, JOIN_FLOW)
  {
    JoinDual();
    JoinSound();
    JoinLists();
    hide EntersFrom, Cfg.Edge, Dual, Sound, Lists, JOIN;
    forall r: nat, s: nat ensures JOIN_FLOW.Edge(r, s) <==> NodeEdge(JOIN, r, s) {
      JoinEdges(r, s);
      if NodeEdge(JOIN, r, s) {
        var S, i := EdgeInput(JOIN, r, s);
        JoinInputs(S, i, r);
        JoinKinds(S);
      }
      if Arc(r, s) {
        ArcInput(r, s);
      }
    }
  }

  lemma ArcInput(r: nat, s: nat)
    requires Arc(r, s)
    ensures NodeEdge(JOIN, r, s)
  {
    hide EntersFrom, JOIN;
    var S: nat := if s == 1 then 6 else if s == 2 then 7 else if s == 3 then 10 else 16;
    var i: nat := if r == 2 then 1 else 0;
    JoinInputs(S, i, r);
    InputEdge(JOIN, S, i, r);
    JoinKinds(S);
  }

  lemma JoinLists()
    ensures Lists(JOIN, JOIN_FLOW)
  {
    JoinSources();
    hide JOIN, Source, Predecessors;
    assert JOIN_FLOW.preds == [[], [0], [0], [1, 2], []];
    forall S | 0 <= S < |JOIN| && JOIN[S].kind.IsRegion()
      ensures JOIN[S].kind.region < 5 && JOIN_FLOW.preds[JOIN[S].kind.region] == Predecessors(JOIN, JOIN[S].ops)
    {
      JoinKinds(S);
      JoinOps(S);
      JoinPredecessors(S);
    }
  }

  lemma OneInput(ns: Nodes, a: nat)
    ensures Predecessors(ns, [Some(a)]) == Reported(ns, Some(a))
  {
    hide Reported;
    var ops: seq<Slot> := [Some(a)];
    assert ops[..0] == [];
  }

  lemma TwoInputs(ns: Nodes, a: nat, b: nat)
    ensures Predecessors(ns, [Some(a), Some(b)]) == Reported(ns, Some(a)) + Reported(ns, Some(b))
  {
    hide Reported;
    var ops: seq<Slot> := [Some(a), Some(b)];
    assert ops[..1] == [Some(a)];
    OneInput(ns, a);
  }

  lemma JoinReported(x: nat)
    requires x == 4 || x == 5 || x == 8 || x == 9 || x == 15
    ensures Reported(JOIN, Some(x)) == if x == 4 || x == 5 then [0] else if x == 8 then [1] else if x == 9 then [2] else []
  {
    JoinSources();
    JoinKinds(x);
    hide JOIN, Source;
  }

  lemma JoinPredecessors(S: nat)
    requires S < |JOIN| && JOIN[S].kind.IsRegion()
    ensures Predecessors(JOIN, JOIN[S].ops) == if S == 6 || S == 7 then [0] else if S == 10 then [1, 2] else []
  {
    JoinSize();
    JoinKinds(S);
    JoinOps(S);
    hide JOIN, Reported;
    if S == 10 {
      JoinReported(8);
      JoinReported(9);
      TwoInputs(JOIN, 8, 9);
    } else if S != 0 {
      var x: nat := if S == 6 then 4 else if S == 7 then 5 else 15;
      JoinReported(x);
      OneInput(JOIN, x);
    }
  }

  lemma JoinSound()
    ensures Sound(JOIN_FLOW) && JOIN_FLOW.Listed(3)
  {
    var g := JOIN_FLOW;
    assert g.succs == [[1, 2], [3], [3], [4], []] && g.preds == [[], [0], [0], [1, 2], []];
    forall r: nat | r < 4 ensures g.Listed(r) {
      forall u: nat ensures u in g.preds[r] <==> g.Edge(u, r) {
        JoinEdges(u, r);
      }
    }
    JoinReachable();
    hide Cfg.Edge;
  }

  lemma JoinReachable()
    ensures forall r: nat :: r < 5 ==> Reachable(JOIN_FLOW, r)
  {
    hide Cfg.Edge, Reachable;
    var g := JOIN_FLOW;
    StartReachable(g);
    JoinEdges(0, 1);
    JoinEdges(0, 2);
    JoinEdges(1, 3);
    JoinEdges(3, 4);
    ReachableStep(g, 0, 1);
    ReachableStep(g, 0, 2);
    ReachableStep(g, 1, 3);
    ReachableStep(g, 3, 4);
  }

  lemma JoinForward()
    ensures Forward(JOIN_FLOW, [0, 1, 2, 3, 4])
  {
    assert [0, 1, 2, 3, 4] == RowOf(5);
    forall u: nat, v: nat | JOIN_FLOW.Edge(u, v) ensures Precedes([0, 1, 2, 3, 4], u, v) {
      JoinEdges(u, v);
      RowOrder(5, u, v);
    }
  }

  // ---------------------------------------------------------------- the analysis applies

  lemma JoinScheduled(r: nat)
    ensures ListOf(JOIN_CODE.data, r) == if r == 0 then [1, 2] else if r == 1 then [11] else if r == 2 then [12]
      else if r == 3 then [14] else []
    ensures r in JOIN_CODE.data <==> r < 4
  {
    hide JOIN;
  }

  lemma JoinCode()
    ensures JOIN_CODE.ns == JOIN && JOIN_CODE.g == JOIN_FLOW && JOIN_CODE.order == [0, 1, 2, 3, 4]
    ensures |JOIN_FLOW.succs| == 5 && JOIN_FLOW.preds == [[], [0], [0], [1, 2], []] && JOIN_FLOW.start == 0
  {
    hide JOIN;
  }

  lemma JoinPhiUser(u: nat)
    requires IsPhi(JOIN, u)
    ensures u == 13 && Full(JOIN, u) && UserOk(JOIN, JOIN_FLOW, u)
      && ListedRegion(JOIN_FLOW, RegionAt(JOIN, SlotOr(JOIN[u].ops, 0)))
  {
    JoinSound();
    JoinSize();
    JoinKinds(u);
    JoinKinds(10);
    JoinOps(u);
    JoinCode();
    hide JOIN, JOIN_FLOW, Cfg.Listed;
  }

  lemma JoinPhiAt(r: nat, v: nat)
    ensures PhiOf(JOIN, r, v) <==> r == 3 && v == 13
  {
    JoinSize();
    JoinKinds(10);
    if v < |JOIN| {
      JoinKinds(v);
      JoinOps(v);
    }
    hide JOIN;
  }

  lemma JoinMember(r: nat, u: nat)
    requires u in ListOf(JOIN_CODE.data, r)
    ensures u == 1 || u == 2 || u == 11 || u == 12 || u == 14
    ensures r == if u == 1 || u == 2 then 0 else if u == 11 then 1 else if u == 12 then 2 else 3
  {
    JoinScheduled(r);
    hide JOIN_CODE, ListOf;
  }

  lemma JoinListed(r: nat, u: nat)
    requires u in ListOf(JOIN_CODE.data, r)
    ensures u < |JOIN| && Full(JOIN, u) && IsData(JOIN[u].kind) && r < 5
    ensures r == if u == 1 || u == 2 then 0 else if u == 11 then 1 else if u == 12 then 2 else 3
  {
    hide JOIN, JOIN_CODE, ListOf;
    JoinMember(r, u);
    JoinSize();
    JoinKinds(u);
    JoinOps(u);
  }

  lemma JoinStraight()
    ensures Straight(JOIN_CODE)
  {
    JoinSound();
    JoinForward();
    JoinCode();
    hide Sound, Forward, UserOk, JOIN, JOIN_FLOW, JOIN_CODE, Full, ListedRegion;
    forall r: nat, u: nat {:trigger u in ListOf(JOIN_CODE.data, r)} | u in ListOf(JOIN_CODE.data, r) && u < |JOIN| ensures Full(JOIN, u) {
      JoinListed(r, u);
    }
    forall u: nat | IsPhi(JOIN, u)
      ensures Full(JOIN, u) && UserOk(JOIN, JOIN_FLOW, u) && ListedRegion(JOIN_FLOW, RegionAt(JOIN, SlotOr(JOIN[u].ops, 0)))
    {
      JoinPhiUser(u);
    }
  }

  lemma JoinReads(u: nat, v: nat)
    ensures Reads(JOIN, u, v) <==> Holds(u, v)
  {
    JoinSize();
    if u < |JOIN| {
      JoinOps(u);
    }
    hide JOIN;
  }

  // The phi takes 5 from region 1 and 9 from region 2.
  lemma JoinEdgeUse(r: nat, v: nat)
    ensures EdgeUse(JOIN_CODE, r, v) <==> (r == 1 && v == 11) || (r == 2 && v == 12)
  {
    JoinSize();
    JoinCode();
    JoinKinds(10);
    JoinKinds(13);
    JoinOps(13);
    hide JOIN, JOIN_FLOW, JOIN_CODE;
    if EdgeUse(JOIN_CODE, r, v) {
      var u: nat, i: nat :| IsPhi(JOIN, u) && PhiNeeds(JOIN, JOIN_FLOW, u, i, v, r);
      JoinPhiUser(u);
    }
    if r == 1 && v == 11 {
      assert IsPhi(JOIN, 13) && PhiNeeds(JOIN, JOIN_FLOW, 13, 1, v, r);
    }
    if r == 2 && v == 12 {
      assert IsPhi(JOIN, 13) && PhiNeeds(JOIN, JOIN_FLOW, 13, 2, v, r);
    }
  }

  lemma JoinDefined(r: nat, v: nat)
    ensures Defined(JOIN_CODE, r, v) <==>
      (r == 0 && (v == 1 || v == 2)) || (r == 1 && v == 11) || (r == 2 && v == 12) || (r == 3 && (v == 13 || v == 14))
  {
    JoinScheduled(r);
    JoinPhiAt(r, v);
    JoinCode();
    hide JOIN, JOIN_CODE;
  }

  lemma JoinPlaced()
    ensures Placed(JOIN_CODE)
  {
    JoinCode();
    hide PhiOf, EdgeUse, Reads, JOIN, JOIN_FLOW, JOIN_CODE, Defined, ListOf;
    forall r: nat ensures Distinct(ListOf(JOIN_CODE.data, r)) {
      JoinScheduled(r);
    }
    forall r: nat, v: nat {:trigger v in ListOf(JOIN_CODE.data, r)} | v in ListOf(JOIN_CODE.data, r)
      ensures v < |JOIN| && IsData(JOIN[v].kind) && r < 5
      ensures r == if v == 1 || v == 2 then 0 else if v == 11 then 1 else if v == 12 then 2 else 3
    {
      JoinListed(r, v);
    }
    forall r: nat, i: nat, d: nat, v: nat | i < |ListOf(JOIN_CODE.data, r)| && Reads(JOIN, ListOf(JOIN_CODE.data, r)[i], v) && Defined(JOIN_CODE, d, v)
      ensures if d == r then PhiOf(JOIN, r, v) || v in ListOf(JOIN_CODE.data, r)[..i] else Dominates(JOIN_FLOW, d, r)
    {
      JoinScheduled(r);
      JoinReads(ListOf(JOIN_CODE.data, r)[i], v);
      JoinDefined(d, v);
      JoinPhiAt(r, v);
    }
    forall r: nat, d: nat, v: nat | EdgeUse(JOIN_CODE, r, v) && Defined(JOIN_CODE, d, v) ensures Dominates(JOIN_FLOW, d, r) {
      JoinEdgeUse(r, v);
      JoinDefined(d, v);
    }
  }

  // ---------------------------------------------------------------- what is live where

  // A region reads what its nodes hold.
  lemma JoinExposed(r: nat, v: nat)
    ensures Exposed(JOIN, ListOf(JOIN_CODE.data, r), v) <==> r == 3 && (v == 13 || v == 1)
  {
    JoinScheduled(r);
    hide JOIN, JOIN_CODE, ListOf, Reads;
    var xs := ListOf(JOIN_CODE.data, r);
    if Exposed(JOIN, xs, v) {
      var i: nat :| ExposedAt(JOIN, xs, v, i);
      JoinReads(xs[i], v);
    }
    if r == 3 && (v == 13 || v == 1) {
      JoinReads(14, v);
      assert ExposedAt(JOIN, xs, v, 0);
    }
  }

  ghost predicate JoinLiveIn(r: nat, v: nat) {
    1 <= r <= 3 && v == 1
  }

  // Argument 0 leaves every region before the last; each arm ends with its own value.
  ghost predicate JoinLiveOut(r: nat, v: nat) {
    (r <= 2 && v == 1) || (r == 1 && v == 11) || (r == 2 && v == 12)
  }

  lemma JoinLiveAt(r: nat, v: nat)
    requires r < 5 && (LiveOut(JOIN_CODE, r, v) <==> JoinLiveOut(r, v))
    ensures LiveAt(JOIN_CODE, r, v) <==> JoinLiveIn(r, v)
  {
    hide JOIN, JOIN_CODE, JOIN_FLOW, ListOf, LiveOut, LiveAt, Exposed, PhiOf;
    JoinCode();
    LiveUnfold(JOIN_CODE, r, v);
    JoinExposed(r, v);
    JoinPhiAt(r, v);
    JoinScheduled(r);
  }

  lemma {:induction false} JoinLive(r: nat, v: nat)
    requires r < 5
    ensures LiveOut(JOIN_CODE, r, v) <==> JoinLiveOut(r, v)
    ensures LiveAt(JOIN_CODE, r, v) <==> JoinLiveIn(r, v)
    decreases 5 - r
  {
    hide JOIN, JOIN_CODE, JOIN_FLOW, LiveAt, EdgeUse, Cfg.Edge;
    JoinCode();
    JoinEdgeUse(r, v);
    forall s: nat ensures JOIN_FLOW.Edge(r, s) && LiveAt(JOIN_CODE, s, v) <==> Arc(r, s) && JoinLiveIn(s, v) {
      JoinEdges(r, s);
      if Arc(r, s) {
        JoinLive(s, v);
      }
    }
    JoinArcs(r, v);
    JoinLiveAt(r, v);
  }

  lemma JoinArcs(r: nat, v: nat)
    ensures (exists s: nat :: Arc(r, s) && JoinLiveIn(s, v)) <==> r <= 2 && v == 1
  {
    if r <= 2 && v == 1 {
      var s: nat := if r == 0 then 1 else 3;
      assert Arc(r, s) && JoinLiveIn(s, v);
    }
  }

  // ---------------------------------------------------------------- numbers and intervals

  // The numbers of one block, from its start.
  lemma JoinBlock(num: map<nat, nat>, r: nat, b: Interval)
    requires r < 5 && BlockOk(JOIN_CODE, num, r, b)
    ensures b.second == b.first + [6, 4, 4, 4, 0][r]
    ensures r == 0 ==> NumOf(num, 1) == b.first + 2 && NumOf(num, 2) == b.first + 4
    ensures r == 1 ==> NumOf(num, 11) == b.first + 2
    ensures r == 2 ==> NumOf(num, 12) == b.first + 2
    ensures r == 3 ==> NumOf(num, 14) == b.first + 2 && NumOf(num, 13) == b.first
  {
    JoinScheduled(r);
    JoinPhiAt(r, 13);
    JoinCode();
    hide JOIN, JOIN_CODE, PhiOf;
    if r < 4 {
      var xs := JOIN_CODE.data[r];
      assert forall i :: 0 <= i < |xs| ==> xs[i] in num && num[xs[i]] == b.first + 2 * i + 2;
      assert xs[0] in num;
      assert r == 0 ==> xs[1] in num;
    }
  }

  lemma JoinBlocks(num: map<nat, nat>, blocks: map<nat, Interval>, next: nat)
    requires Numbered(JOIN_CODE, num, blocks, 5, next)
    ensures forall r: nat :: r < 5 ==>
      BlockOf(blocks, r) == [Interval(0, 6), Interval(6, 10), Interval(10, 14), Interval(14, 18), Interval(18, 18)][r]
    ensures NumOf(num, 1) == 2 && NumOf(num, 2) == 4 && NumOf(num, 11) == 8 && NumOf(num, 12) == 12
    ensures NumOf(num, 13) == 14 && NumOf(num, 14) == 16
  {
    JoinOrder(num, blocks, next);
    hide JOIN, JOIN_CODE, BlockOk, Numbered, Look;
    JoinBlock(num, 0, BlockOf(blocks, 0));
    JoinBlock(num, 1, BlockOf(blocks, 1));
    JoinBlock(num, 2, BlockOf(blocks, 2));
    JoinBlock(num, 3, BlockOf(blocks, 3));
    JoinBlock(num, 4, BlockOf(blocks, 4));
  }

  lemma JoinOrder(num: map<nat, nat>, blocks: map<nat, Interval>, next: nat)
    requires Numbered(JOIN_CODE, num, blocks, 5, next)
    ensures BlockOf(blocks, 0).first == 0
    ensures forall r: nat :: r < 5 ==> BlockOk(JOIN_CODE, num, r, BlockOf(blocks, r))
    ensures forall r: nat, s: nat :: r < 4 && s == r + 1 ==> BlockOf(blocks, r).second == BlockOf(blocks, s).first
  {
    JoinCode();
    hide JOIN, JOIN_CODE, BlockOk, Look;
    var order := JOIN_CODE.order;
    assert order[0] == 0 && order[1] == 1 && order[2] == 2 && order[3] == 3 && order[4] == 4;
    forall r: nat | r < 5 ensures BlockOk(JOIN_CODE, num, r, BlockOf(blocks, r)) {
      assert BlockOk(JOIN_CODE, num, order[r], Look(blocks, order[r]));
    }
  }

  lemma JoinBody(num: map<nat, nat>, r: nat, v: nat, t: nat)
    ensures BodyReason(JOIN, num, ListOf(JOIN_CODE.data, r), v, t) <==>
      (v in ListOf(JOIN_CODE.data, r) && t == NumOf(num, v) + 2) || (r == 3 && (v == 13 || v == 1) && t == NumOf(num, 14))
  {
    JoinScheduled(r);
    hide JOIN, JOIN_CODE, Reads, ListOf, NumOf;
    var xs := ListOf(JOIN_CODE.data, r);
    if i :| 0 <= i < |xs| && Reads(JOIN, xs[i], v) && t == NumOf(num, xs[i]) {
      JoinReads(xs[i], v);
    }
    if r == 3 && (v == 13 || v == 1) && t == NumOf(num, 14) {
      JoinReads(14, v);
      assert Reads(JOIN, xs[0], v);
    }
  }

  // v must last until t.
  lemma JoinReason(num: map<nat, nat>, bb: Interval, r: nat, v: nat, t: nat)
    requires r < 5
    ensures Reason(JOIN_CODE, num, r, bb, v, t) <==>
      || (JoinLiveOut(r, v) && t == bb.second)
      || (v in ListOf(JOIN_CODE.data, r) && t == NumOf(num, v) + 2)
      || (r == 3 && (v == 13 || v == 1) && t == NumOf(num, 14))
  {
    JoinLive(r, v);
    JoinBody(num, r, v, t);
    JoinCode();
    hide JOIN, JOIN_CODE, LiveOut, BodyReason, JoinLiveOut;
  }

  ghost predicate JoinNumbers(num: map<nat, nat>, blocks: map<nat, Interval>) {
    && (forall r: nat :: r < 5 ==>
      BlockOf(blocks, r) == [Interval(0, 6), Interval(6, 10), Interval(10, 14), Interval(14, 18), Interval(18, 18)][r])
    && NumOf(num, 1) == 2 && NumOf(num, 2) == 4 && NumOf(num, 11) == 8 && NumOf(num, 12) == 12
    && NumOf(num, 13) == 14 && NumOf(num, 14) == 16
  }

  // Where the interval of v ends.
  function JoinEnd(v: nat): nat {
    if v == 1 then 16 else if v == 2 then 6 else if v == 11 then 10 else if v == 12 then 14 else if v == 13 then 16 else 18
  }

  lemma JoinEnds(num: map<nat, nat>, blocks: map<nat, Interval>, v: nat)
    requires JoinNumbers(num, blocks) && (v == 1 || v == 2 || v == 11 || v == 12 || v == 13 || v == 14)
    ensures Ends(JOIN_CODE, num, blocks, v, JoinEnd(v))
    ensures forall t: nat :: Ends(JOIN_CODE, num, blocks, v, t) ==> t <= JoinEnd(v)
  {
    JoinCode();
    hide JOIN, JOIN_CODE, JOIN_FLOW, Reason, BlockOf, NumOf, ListOf;
    var last: nat := if v == 1 || v == 13 || v == 14 then 3 else if v == 11 then 1 else if v == 12 then 2 else 0;
    JoinScheduled(last);
    JoinReason(num, BlockOf(blocks, last), last, v, JoinEnd(v));
    forall t: nat | Ends(JOIN_CODE, num, blocks, v, t) ensures t <= JoinEnd(v) {
      var r: nat :| r < 5 && Reason(JOIN_CODE, num, r, BlockOf(blocks, r), v, t);
      JoinScheduled(r);
      JoinReason(num, BlockOf(blocks, r), r, v, t);
    }
  }

  lemma JoinInterval(num: map<nat, nat>, blocks: map<nat, Interval>, liveIn: map<nat, set<nat>>, m: map<nat, Interval>,
          v: nat)
    requires Analysed(JOIN_CODE, num, blocks, liveIn, m) && JoinNumbers(num, blocks)
    requires v == 1 || v == 2 || v == 11 || v == 12 || v == 13 || v == 14
    ensures Look(m, v) == Interval(NumOf(num, v), JoinEnd(v))
  {
    hide JOIN, JOIN_CODE, JOIN_FLOW, Straight, Analysed, Ends, NumOf, BlockOf, Look, Defined, JoinNumbers;
    JoinStraight();
    JoinCode();
    JoinEnds(num, blocks, v);
    IntervalIsExact(JOIN_CODE, num, blocks, liveIn, m, v);
    var d: nat := if v <= 2 then 0 else if v == 11 then 1 else if v == 12 then 2 else 3;
    JoinDefined(d, v);
    assert HasDefinition(JOIN_CODE, v);
  }

  lemma JoinLiveSet(liveIn: map<nat, set<nat>>, r: nat)
    requires r < 5 && LiveInOk(JOIN_CODE, liveIn, r)
    ensures r in liveIn && liveIn[r] == if 1 <= r <= 3 then {1} else {}
  {
    hide JOIN, JOIN_CODE, LiveAt;
    forall v: nat ensures v in liveIn[r] <==> 1 <= r <= 3 && v == 1 {
      JoinLive(r, v);
    }
  }

  lemma JoinResult(num: map<nat, nat>, blocks: map<nat, Interval>, liveIn: map<nat, set<nat>>, m: map<nat, Interval>)
    requires Analysed(JOIN_CODE, num, blocks, liveIn, m)
    ensures forall r: nat :: r < 5 ==> r in liveIn && liveIn[r] == if 1 <= r <= 3 then {1} else {}
    ensures forall r: nat :: r < 5 ==>
      BlockOf(blocks, r) == [Interval(0, 6), Interval(6, 10), Interval(10, 14), Interval(14, 18), Interval(18, 18)][r]
    ensures Look(m, 1) == Interval(2, 16) && Look(m, 2) == Interval(4, 6) && Look(m, 11) == Interval(8, 10)
    ensures Look(m, 12) == Interval(12, 14) && Look(m, 13) == Interval(14, 16) && Look(m, 14) == Interval(16, 18)
  {
    hide JOIN, JOIN_CODE, JOIN_FLOW, LiveInOk, Ranges, Numbered, Look, BlockOf, NumOf;
    JoinCode();
    var next: nat :| Numbered(JOIN_CODE, num, blocks, 5, next);
    JoinBlocks(num, blocks, next);
    forall r: nat | r < 5 ensures r in liveIn && liveIn[r] == if 1 <= r <= 3 then {1} else {} {
      JoinLiveSet(liveIn, r);
    }
    hide Analysed;
    forall v: nat | v in {1, 2, 11, 12, 13, 14} ensures Look(m, v) == Interval(NumOf(num, v), JoinEnd(v)) {
      JoinInterval(num, blocks, liveIn, m, v);
    }
    assert 1 in {1, 2, 11, 12, 13, 14} && 13 in {1, 2, 11, 12, 13, 14};
  }

  // The analysis, run on that function: argument 0 is live through both arms, each arm keeps
  // its own constant to its end, and the phi takes 5 from region 1 and 9 from region 2.
  method RunJoin() returns (L: Liveness, left: nat, right: nat)
    ensures IsFunction(JOIN, JOIN_FLOW)
    ensures left == 11 && JOIN[11].kind == Constant(5) && right == 12 && JOIN[12].kind == Constant(9)
    ensures forall r: nat :: r < 5 ==> r in L.liveIn && L.liveIn[r] == if 1 <= r <= 3 then {1} else {}
    ensures forall r: nat :: r < 5 ==>
      BlockOf(L.blocks, r) == [Interval(0, 6), Interval(6, 10), Interval(10, 14), Interval(14, 18), Interval(18, 18)][r]
    ensures Look(L.intervals, 1) == Interval(2, 16) && Look(L.intervals, 2) == Interval(4, 6)
    ensures Look(L.intervals, 11) == Interval(8, 10) && Look(L.intervals, 12) == Interval(12, 14)
    ensures Look(L.intervals, 13) == Interval(14, 16) && Look(L.intervals, 14) == Interval(16, 18)
  {
    hide Straight, Placed, Analysed, IsFunction, JOIN, JOIN_CODE, JOIN_FLOW, Look, BlockOf, PhiOf, Cfg.Edge;
    JoinIsFunction();
    JoinStraight();
    JoinPlaced();
    JoinSize();
    JoinKinds(11);
    JoinKinds(12);
    JoinOps(13);
    JoinCode();
    JoinPhiAt(3, 13);
    JoinEdges(1, 3);
    JoinEdges(2, 3);
    left := GetValOf(JOIN_CODE, 13, 3, 1);
    right := GetValOf(JOIN_CODE, 13, 3, 2);
    assert JOIN[13].ops[1..] == [Some(11), Some(12)];
    assert JOIN_FLOW.preds[3] == [1, 2];
    L := new Liveness(JOIN_CODE);
    JoinResult(L.liveNumbers, L.blocks, L.liveIn, L.intervals);
  }
}
