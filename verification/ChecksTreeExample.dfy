// A function on which the computed dominator tree is wrong, and check elimination, which
// trusts it, removes a null check that is needed (src/Optimizations/ChecksElimination.hpp:24-55).
module InexactTreeExample {
  import opened SeqUtil
  import opened Tree
  import opened ControlFlow
  import opened DepthFirstSearch
  import opened NaturalLoops
  import opened UseDef
  import opened Dominators
  import opened RegionEdges
  import opened ChecksEliminationPass

  // The start branches to region 1, which checks the argument and goes on to region 2, and
  // to region 3; region 2 branches to 3 and 4; region 3 goes on to 4. Region 4 checks the
  // argument again, and 5 returns. Coming from 3 the first check has not been passed.
  const CROSS: Nodes := [
    Node(FunctionArg(0), Ptr, [], multiset{7, 15}),
    Node(FunctionArg(1), Int1, [], multiset{3, 9}),
    Node(Start(0), Void, [], multiset{3}),
    Node(If, Void, [Some(2), Some(1)], multiset{4, 5}),
    Node(IfTrue, Void, [Some(3)], multiset{12}),
    Node(IfFalse, Void, [Some(3)], multiset{6}),
    Node(Region(1), Void, [Some(5)], multiset{7}),
    Node(NullCheck, Void, [Some(0), Some(6)], multiset{8}),
    Node(Region(2), Void, [Some(7)], multiset{9}),
    Node(If, Void, [Some(8), Some(1)], multiset{10, 11}),
    Node(IfTrue, Void, [Some(9)], multiset{12}),
    Node(IfFalse, Void, [Some(9)], multiset{14}),
    Node(Region(3), Void, [Some(4), Some(10)], multiset{13}),
    Node(Jmp, Void, [Some(12)], multiset{14}),
    Node(Region(4), Void, [Some(11), Some(13)], multiset{15}),
    Node(NullCheck, Void, [Some(0), Some(14)], multiset{16}),
    Node(Region(5), Void, [Some(15)], multiset{17}),
    Node(Ret, Void, [Some(16)], multiset{18}),
    Node(End(6), Void, [Some(17)], multiset{})
  ]
  const CROSS_FLOW := Cfg(0, [[3, 1], [2], [3, 4], [4], [5], [6], []], [[], [0], [1], [0, 2], [2, 3], [4], []])

  lemma CrossKinds(u: nat)
    requires u < |CROSS|
    ensures CROSS[u].kind ==
      if u == 0 then FunctionArg(0) else if u == 1 then FunctionArg(1) else if u == 2 then Start(0) else
      if u == 3 || u == 9 then If else if u == 4 || u == 10 then IfTrue else if u == 5 || u == 11 then IfFalse else
      if u == 6 then Region(1) else if u == 7 || u == 15 then NullCheck else if u == 8 then Region(2) else
      if u == 12 then Region(3) else if u == 13 then Jmp else if u == 14 then Region(4) else
      if u == 16 then Region(5) else if u == 17 then Ret else End(6)
  {
  }

  lemma CrossOps(u: nat)
    requires u < |CROSS|
    ensures CROSS[u].ops ==
      if u == 3 then [Some(2), Some(1)] else if u == 4 || u == 5 then [Some(3)] else if u == 6 then [Some(5)] else
      if u == 7 then [Some(0), Some(6)] else if u == 8 then [Some(7)] else if u == 9 then [Some(8), Some(1)] else
      if u == 10 || u == 11 then [Some(9)] else if u == 12 then [Some(4), Some(10)] else
      if u == 13 then [Some(12)] else if u == 14 then [Some(11), Some(13)] else
      if u == 15 then [Some(0), Some(14)] else if u == 16 then [Some(15)] else if u == 17 then [Some(16)] else
      if u == 18 then [Some(17)] else []
  {
  }

  lemma CrossUsers(n: nat)
    requires n < |CROSS|
    ensures CROSS[n].users ==
      if n == 0 then multiset{7, 15} else if n == 1 then multiset{3, 9} else if n == 2 then multiset{3} else
      if n == 3 then multiset{4, 5} else if n == 4 || n == 10 then multiset{12} else
      if n == 5 then multiset{6} else if n == 6 then multiset{7} else if n == 7 then multiset{8} else
      if n == 8 then multiset{9} else if n == 9 then multiset{10, 11} else
      if n == 11 || n == 13 then multiset{14} else if n == 12 then multiset{13} else
      if n == 14 then multiset{15} else if n == 15 then multiset{16} else if n == 16 then multiset{17} else
      if n == 17 then multiset{18} else multiset{}
  {
  }

  lemma CrossSize()
    ensures |CROSS| == 19
  {
  }

  // ---------------------------------------------------------------- users and edges

  ghost predicate CrossHolds(u: nat, n: nat) {
    || (u == 3 && (n == 2 || n == 1)) || (u == 4 && n == 3) || (u == 5 && n == 3) || (u == 6 && n == 5)
    || (u == 7 && (n == 0 || n == 6)) || (u == 8 && n == 7) || (u == 9 && (n == 8 || n == 1)) || (u == 10 && n == 9)
    || (u == 11 && n == 9) || (u == 12 && (n == 4 || n == 10)) || (u == 13 && n == 12)
    || (u == 14 && (n == 11 || n == 13)) || (u == 15 && (n == 0 || n == 14)) || (u == 16 && n == 15)
    || (u == 17 && n == 16) || (u == 18 && n == 17)
  }

  lemma CrossDual()
    ensures Dual(CROSS)
  {
    hide CROSS, Uses;
    CrossSize();
    forall u, i | 0 <= u < |CROSS| && 0 <= i < |CROSS[u].ops| && CROSS[u].ops[i].Some? ensures CROSS[u].ops[i].value < |CROSS| {
      CrossOps(u);
    }
    forall n, u: nat | 0 <= n < |CROSS| ensures CROSS[n].users[u] == Uses(CROSS, u, n) {
      CrossUsersHold(n, u);
      if u < |CROSS| {
        CrossSlots(u, n);
        UsesOf(CROSS, u, n);
      } else {
        UsesOf(CROSS, u, n);
      }
    }
  }

  lemma UsesOf(ns: Nodes, u: nat, n: nat)
    ensures Uses(ns, u, n) == if u < |ns| then multiset(ns[u].ops)[Some(n)] else 0
  {
  }

  lemma CrossUsersHold(n: nat, u: nat)
    requires n < |CROSS|
    ensures CROSS[n].users[u] == if CrossHolds(u, n) then 1 else 0
    ensures u >= |CROSS| ==> !CrossHolds(u, n)
  {
    hide CROSS;
    CrossSize();
    if n < 9 {
      CrossUsersLow(n, u);
    } else {
      CrossUsersHigh(n, u);
    }
  }

  lemma CrossUsersLow(n: nat, u: nat)
    requires n < 9 && n < |CROSS|
    ensures CROSS[n].users[u] == if CrossHolds(u, n) then 1 else 0
  {
    hide CROSS;
    CrossUsers(n);
  }

  lemma CrossUsersHigh(n: nat, u: nat)
    requires 9 <= n < |CROSS|
    ensures CROSS[n].users[u] == if CrossHolds(u, n) then 1 else 0
  {
    hide CROSS;
    CrossSize();
    CrossUsers(n);
  }

  lemma CrossSlots(u: nat, n: nat)
    requires u < |CROSS|
    ensures multiset(CROSS[u].ops)[Some(n)] == if CrossHolds(u, n) then 1 else 0
  {
    hide CROSS;
    CrossSize();
    CrossOps(u);
    TwoSlots(0, 6, n);
    TwoSlots(0, 14, n);
    TwoSlots(2, 1, n);
    TwoSlots(4, 10, n);
    TwoSlots(8, 1, n);
    TwoSlots(11, 13, n);
  }

  ghost predicate CrossEdge(r: nat, s: nat) {
    || (r == 0 && (s == 3 || s == 1)) || (r == 1 && s == 2) || (r == 2 && (s == 3 || s == 4)) || (r == 3 && s == 4)
    || (r == 4 && s == 5) || (r == 5 && s == 6)
  }

  lemma CrossEdges(r: nat, s: nat)
    ensures CROSS_FLOW.Edge(r, s) <==> CrossEdge(r, s)
  {
    if r < 7 {
      assert CROSS_FLOW.succs[r] == if r == 0 then [3, 1] else if r == 1 then [2] else if r == 2 then [3, 4]
        else if r == 3 then [4] else if r == 4 then [5] else if r == 5 then [6] else [];
    }
  }

  lemma CrossSources(x: nat)
    requires x < |CROSS|
    ensures Source(CROSS, x) == if x == 4 || x == 5 then Some(0) else if x == 7 then Some(1)
      else if x == 10 || x == 11 then Some(2) else if x == 13 then Some(3) else if x == 15 then Some(4)
      else if x == 17 then Some(5) else None
  {
    hide CROSS;
    CrossSize();
    CrossKinds(x);
    CrossOps(x);
    CrossKinds(2);
    CrossKinds(3);
    CrossOps(3);
    CrossKinds(6);
    CrossKinds(8);
    CrossKinds(9);
    CrossOps(9);
    CrossKinds(12);
    CrossKinds(14);
    CrossKinds(16);
  }

  lemma CrossInputs(S: nat, i: nat, r: nat)
    ensures EntersFrom(CROSS, S, i, r) <==>
      || (i == 0 && ((S == 6 && r == 0) || (S == 8 && r == 1) || (S == 12 && r == 0) || (S == 14 && r == 2)))
      || (i == 1 && ((S == 12 && r == 2) || (S == 14 && r == 3)))
      || (i == 0 && ((S == 16 && r == 4) || (S == 18 && r == 5)))
  {
    hide CROSS, Source;
    CrossSize();
    if S < |CROSS| {
      CrossKinds(S);
      CrossOps(S);
      if i < |CROSS[S].ops| && CROSS[S].kind.IsRegion() {
        CrossSources(CROSS[S].ops[i].value);
        CrossKinds(CROSS[S].ops[i].value);
      }
    }
  }

  // The input of a region node that an edge comes in by.
  lemma CrossInput(r: nat, s: nat) returns (S: nat, i: nat)
    requires CrossEdge(r, s)
    ensures EntersFrom(CROSS, S, i, r) && S < |CROSS| && CROSS[S].kind.IsRegion() && CROSS[S].kind.region == s
  {
    hide CROSS, EntersFrom;
    S, i := if s == 1 then 6 else if s == 2 then 8 else if s == 3 then 12 else if s == 4 then 14 else if s == 5 then 16 else 18,
      if (s == 3 && r == 2) || (s == 4 && r == 3) then 1 else 0;
    CrossInputs(S, i, r);
    CrossSize();
    CrossKinds(S);
  }

  lemma CrossFlow()
    ensures Flow(CROSS, CROSS_FLOW)
  {
    hide EntersFrom, Cfg.Edge, CROSS;
    forall r: nat, s: nat ensures CROSS_FLOW.Edge(r, s) <==> NodeEdge(CROSS, r, s) {
      CrossEdges(r, s);
      if NodeEdge(CROSS, r, s) {
        var S, i := EdgeInput(CROSS, r, s);
        CrossInputs(S, i, r);
        CrossKinds(S);
      }
      if CrossEdge(r, s) {
        var S, i := CrossInput(r, s);
        InputEdge(CROSS, S, i, r);
      }
    }
  }

  lemma CrossLists()
    ensures Lists(CROSS, CROSS_FLOW)
  {
    hide CROSS;
    CrossSize();
    assert CROSS_FLOW.preds == [[], [0], [1], [0, 2], [2, 3], [4], []];
    forall S | 0 <= S < |CROSS| && CROSS[S].kind.IsRegion()
      ensures CROSS[S].kind.region < 7 && CROSS_FLOW.preds[CROSS[S].kind.region] == Predecessors(CROSS, CROSS[S].ops)
    {
      CrossKinds(S);
      CrossOps(S);
      CrossPredecessors(CROSS[S].ops);
    }
  }

  lemma CrossPredecessors(ops: seq<Slot>)
    requires |ops| <= 2 && forall i :: 0 <= i < |ops| ==> ops[i].Some? && ops[i].value < |CROSS|
    ensures |ops| == 0 ==> Predecessors(CROSS, ops) == []
    ensures |ops| == 1 ==> Predecessors(CROSS, ops) == From(ops[0].value)
    ensures |ops| == 2 ==> Predecessors(CROSS, ops) == From(ops[0].value) + From(ops[1].value)
  {
    hide CROSS, Source;
    forall i | 0 <= i < |ops| ensures Reported(CROSS, ops[i]) == From(ops[i].value) {
      CrossSources(ops[i].value);
      CrossKinds(ops[i].value);
    }
    if |ops| > 0 {
      assert ops[..|ops| - 1][..0] == [];
      if |ops| == 2 {
        assert ops[..1] == [ops[0]];
      }
    }
  }

  function From(x: nat): seq<nat> {
    if x == 4 || x == 5 then [0] else if x == 7 then [1] else if x == 10 || x == 11 then [2] else if x == 13 then [3]
    else if x == 15 then [4] else []
  }

  // ---------------------------------------------------------------- the search and the tree

  const CROSS_DFS: seq<nat> := [0, 1, 2, 4, 5, 6, 3]
  const CROSS_PARENTS: seq<nat> := [0, 0, 1, 2, 3, 4, 2]
  const CROSS_NUM: map<nat, nat> := map[0 := 0, 1 := 1, 2 := 2, 4 := 3, 5 := 4, 6 := 5, 3 := 6]
  const CROSS_LIST: seq<nat> := [6, 5, 4, 3, 2, 1, 3, 0]
  const CROSS_DOM := Dom(CROSS_NUM, [0, 0, 1, 2, 3, 5, 0])

  const X1 := St([(0, 0), (0, 3), (0, 1)], [0], [0], map[0 := 0], [],
    [0], [0])
  const X2 := St([(0, 0), (0, 3), (0, 1), (1, 2)], [0, 1], [0, 0], map[0 := 0, 1 := 1], [],
    [0, 1], [0, 2])
  const X3 := St([(0, 0), (0, 3), (0, 1), (1, 2), (2, 3), (2, 4)], [0, 1, 2], [0, 0, 1], map[0 := 0, 1 := 1, 2 := 2], [],
    [0, 1, 2], [0, 2, 3])
  const X4 := St([(0, 0), (0, 3), (0, 1), (1, 2), (2, 3), (2, 4), (3, 5)], [0, 1, 2, 4], [0, 0, 1, 2], map[0 := 0, 1 := 1, 2 := 2, 4 := 3], [],
    [0, 1, 2, 3], [0, 2, 3, 5])
  const X5 := St([(0, 0), (0, 3), (0, 1), (1, 2), (2, 3), (2, 4), (3, 5), (4, 6)], [0, 1, 2, 4, 5], [0, 0, 1, 2, 3], map[0 := 0, 1 := 1, 2 := 2, 4 := 3, 5 := 4], [],
    [0, 1, 2, 3, 4], [0, 2, 3, 5, 6])
  const X6 := St([(0, 0), (0, 3), (0, 1), (1, 2), (2, 3), (2, 4), (3, 5), (4, 6)], [0, 1, 2, 4, 5, 6], [0, 0, 1, 2, 3, 4], map[0 := 0, 1 := 1, 2 := 2, 4 := 3, 5 := 4, 6 := 5], [],
    [0, 1, 2, 3, 4, 5], [0, 2, 3, 5, 6, 7])
  const X7 := St([(0, 0), (0, 3), (0, 1), (1, 2), (2, 3), (2, 4), (3, 5)], [0, 1, 2, 4, 5, 6], [0, 0, 1, 2, 3, 4], map[0 := 0, 1 := 1, 2 := 2, 4 := 3, 5 := 4, 6 := 5], [6],
    [0, 1, 2, 3, 4], [0, 2, 3, 5, 6])
  const X8 := St([(0, 0), (0, 3), (0, 1), (1, 2), (2, 3), (2, 4)], [0, 1, 2, 4, 5, 6], [0, 0, 1, 2, 3, 4], map[0 := 0, 1 := 1, 2 := 2, 4 := 3, 5 := 4, 6 := 5], [6, 5],
    [0, 1, 2, 3], [0, 2, 3, 5])
  const X9 := St([(0, 0), (0, 3), (0, 1), (1, 2), (2, 3)], [0, 1, 2, 4, 5, 6], [0, 0, 1, 2, 3, 4], map[0 := 0, 1 := 1, 2 := 2, 4 := 3, 5 := 4, 6 := 5], [6, 5, 4],
    [0, 1, 2], [0, 2, 3])
  const X10 := St([(0, 0), (0, 3), (0, 1), (1, 2), (2, 3)], CROSS_DFS, CROSS_PARENTS, CROSS_NUM, [6, 5, 4],
    [0, 1, 2, 6], [0, 2, 3, 4])
  const X11 := St([(0, 0), (0, 3), (0, 1), (1, 2)], CROSS_DFS, CROSS_PARENTS, CROSS_NUM, [6, 5, 4, 3],
    [0, 1, 2], [0, 2, 3])
  const X12 := St([(0, 0), (0, 3), (0, 1)], CROSS_DFS, CROSS_PARENTS, CROSS_NUM, [6, 5, 4, 3, 2],
    [0, 1], [0, 2])
  const X13 := St([(0, 0), (0, 3)], CROSS_DFS, CROSS_PARENTS, CROSS_NUM, [6, 5, 4, 3, 2, 1],
    [0], [0])
  const X14 := St([(0, 0)], CROSS_DFS, CROSS_PARENTS, CROSS_NUM, [6, 5, 4, 3, 2, 1, 3],
    [0], [0])
  const X15 := St([], CROSS_DFS, CROSS_PARENTS, CROSS_NUM, [6, 5, 4, 3, 2, 1, 3, 0],
    [], [])

  lemma CrossPushes()
    ensures Pushes(0, [3, 1], map[0 := 0]) == [(0, 3), (0, 1)]
    ensures Pushes(1, [2], map[0 := 0, 1 := 1]) == [(1, 2)]
    ensures Pushes(2, [3, 4], map[0 := 0, 1 := 1, 2 := 2]) == [(2, 3), (2, 4)]
    ensures Pushes(3, [5], map[0 := 0, 1 := 1, 2 := 2, 4 := 3]) == [(3, 5)]
    ensures Pushes(4, [6], map[0 := 0, 1 := 1, 2 := 2, 4 := 3, 5 := 4]) == [(4, 6)]
    ensures Pushes(5, [], map[0 := 0, 1 := 1, 2 := 2, 4 := 3, 5 := 4, 6 := 5]) == []
    ensures Pushes(6, [4], CROSS_NUM) == []
  {
    assert [3, 1][..1] == [3];
    assert [3, 4][..1] == [3];
    assert [2][..0] == [];
    assert [3][..0] == [];
    assert [4][..0] == [];
    assert [5][..0] == [];
    assert [6][..0] == [];
    assert Pushes(0, [3], map[0 := 0]) == [(0, 3)];
    assert Pushes(2, [3], map[0 := 0, 1 := 1, 2 := 2]) == [(2, 3)];
  }

  lemma CrossVisits1()
    ensures Step(CROSS_FLOW, Initial(CROSS_FLOW)) == X1
    ensures Step(CROSS_FLOW, X1) == X2
    ensures Step(CROSS_FLOW, X2) == X3
    ensures Step(CROSS_FLOW, X3) == X4
  {
    CrossPushes();
    hide Pushes;
    assert CROSS_FLOW.succs[0] == [3, 1];
    assert CROSS_FLOW.succs[1] == [2];
    assert CROSS_FLOW.succs[2] == [3, 4];
    assert CROSS_FLOW.succs[4] == [5];
  }

  lemma CrossVisits2()
    ensures Step(CROSS_FLOW, X4) == X5
    ensures Step(CROSS_FLOW, X5) == X6
    ensures Step(CROSS_FLOW, X9) == X10
  {
    CrossPushes();
    hide Pushes;
    assert CROSS_FLOW.succs[5] == [6];
    assert CROSS_FLOW.succs[6] == [];
    assert CROSS_FLOW.succs[3] == [4];
  }

  lemma CrossCloses1()
    ensures Step(CROSS_FLOW, X6) == X7
    ensures Step(CROSS_FLOW, X7) == X8
    ensures Step(CROSS_FLOW, X8) == X9
  {
    hide Visit;
  }

  lemma CrossCloses2()
    ensures Step(CROSS_FLOW, X10) == X11
    ensures Step(CROSS_FLOW, X11) == X12
    ensures Step(CROSS_FLOW, X12) == X13
  {
    hide Visit;
  }

  lemma CrossCloses3()
    ensures Step(CROSS_FLOW, X13) == X14
    ensures Step(CROSS_FLOW, X14) == X15
  {
    hide Visit;
  }

  lemma CrossSearch()
    ensures SearchYields(CROSS_FLOW, CROSS_DFS, CROSS_PARENTS, CROSS_NUM, CROSS_LIST)
  {
    hide Step;
    CrossVisits1();
    CrossVisits2();
    CrossCloses1();
    CrossCloses2();
    CrossCloses3();
    var g := CROSS_FLOW;
    assert Steps(g, 0) == Initial(g) && Steps(g, 1) == X1 && Steps(g, 2) == X2 && Steps(g, 3) == X3 && Steps(g, 4) == X4 && Steps(g, 5) == X5;
    assert Steps(g, 6) == X6 && Steps(g, 7) == X7 && Steps(g, 8) == X8 && Steps(g, 9) == X9 && Steps(g, 10) == X10 && Steps(g, 11) == X11;
    assert Steps(g, 12) == X12 && Steps(g, 13) == X13 && Steps(g, 14) == X14 && Steps(g, 15) == X15;
    assert StopsWith(g, 15, CROSS_DFS, CROSS_PARENTS, CROSS_NUM, CROSS_LIST);
  }

  lemma CrossNumbering()
    ensures Numbering(CROSS_FLOW, CROSS_DFS, CROSS_PARENTS, CROSS_NUM)
  {
    CrossSearch();
    assert CROSS_FLOW.succs == [[3, 1], [2], [3, 4], [4], [5], [6], []];
    hide SearchYields, Numbering, DepthFirst, PreOrder, PostOrder, RepeatsFollowParents, GroupedSuccs;
    SearchIs(CROSS_FLOW, CROSS_DFS, CROSS_PARENTS, CROSS_NUM, CROSS_LIST);
  }

  lemma CrossCandidates()
    ensures Dominators.Candidates(CROSS_FLOW, CROSS_DFS, CROSS_PARENTS, CROSS_NUM, [0, 0, 1, 2, 3, 5, 0])
  {
    hide Numbering, IsCandidate, Known, CROSS_FLOW;
    CrossNumbering();
    CrossCandidate(1);
    CrossCandidate(2);
    CrossCandidate(3);
    CrossCandidate(4);
    CrossCandidate(5);
    CrossCandidate(6);
  }

  lemma CrossCandidate(v: nat)
    requires 0 < v < 7
    ensures Numbering(CROSS_FLOW, CROSS_DFS, CROSS_PARENTS, CROSS_NUM) && Known(CROSS_FLOW, CROSS_NUM, CROSS_DFS[v])
    ensures var t: seq<nat> := [0, 0, 1, 2, 3, 5, 0]; IsCandidate(CROSS_FLOW, CROSS_DFS, CROSS_PARENTS, CROSS_NUM, v, t[v])
  {
    CrossNumbering();
    hide Numbering;
    var g := CROSS_FLOW;
    var r := CROSS_DFS[v];
    assert g.preds[r] == if r == 1 then [0] else if r == 2 then [1] else if r == 3 then [0, 2] else if r == 4 then [2, 3]
      else if r == 5 then [4] else [];
    assert g.preds[r] != [] ==> g.preds[r][0] in g.preds[r];
    assert Climb(CROSS_PARENTS, 6, 3) == 2;
  }

  lemma CrossBuilt()
    ensures Built(CROSS_FLOW, CROSS_DOM, CROSS_LIST)
  {
    hide SearchYields, Dominators.Candidates;
    CrossSearch();
    CrossCandidates();
    assert BuiltFrom(CROSS_FLOW, CROSS_DFS, CROSS_PARENTS, CROSS_DOM, CROSS_LIST);
  }

  // Region 1 is above region 4 in the tree, although 0, 3, 4 avoids it.
  lemma CrossAbove()
    ensures CROSS_DOM.Above(1, 4) && !CROSS_DOM.Above(4, 1) && !Dominates(CROSS_FLOW, 1, 4)
    ensures PathBetween(CROSS_FLOW, [0, 3, 4], 0, 4)
  {
    var t: seq<nat> := [0, 0, 1, 2, 3, 5, 0];
    assert Anc(t, 1, 1) && Anc(t, 1, 2) && Anc(t, 1, 3);
    assert !Anc(t, 3, 0) && !Anc(t, 3, 1);
    CrossEdges(0, 3);
    CrossEdges(3, 4);
    hide Cfg.Edge;
    assert PathBetween(CROSS_FLOW, [0, 3, 4], 0, 4);
  }

  lemma CrossSound()
    ensures Sound(CROSS_FLOW) && CROSS_FLOW.Anchored(1) && CROSS_FLOW.Anchored(4)
  {
    CrossWf();
    CrossReachable();
    assert CROSS_FLOW.preds[1] == [0] && CROSS_FLOW.preds[4] == [2, 3];
    hide Cfg.Wf, AllReachable;
  }

  lemma CrossWf()
    ensures CROSS_FLOW.Wf()
  {
    var g := CROSS_FLOW;
    assert |g.succs| == 7 == |g.preds| && g.start == 0 && g.succs[6] == [];
    forall u: nat, v: nat | v < 6 ensures u in g.preds[v] <==> g.Edge(u, v) {
      CrossEdges(u, v);
      assert g.preds[v] == if v == 0 then [] else if v == 1 then [0] else if v == 2 then [1] else if v == 3 then [0, 2]
        else if v == 4 then [2, 3] else [4];
    }
    assert g.preds[6] == [];
    forall u: nat, v: nat | u < 7 && v in g.succs[u] ensures v < 7 {
      assert g.succs[u] == if u == 0 then [3, 1] else if u == 1 then [2] else if u == 2 then [3, 4]
        else if u == 3 then [4] else if u == 4 then [5] else if u == 5 then [6] else [];
    }
    hide Cfg.Edge, CROSS_FLOW;
  }

  lemma CrossReachable()
    ensures AllReachable(CROSS_FLOW)
  {
    var g := CROSS_FLOW;
    assert |g.succs| == 7 && g.start == 0;
    hide CROSS_FLOW, Reachable, Cfg.Edge;
    StartReachable(g);
    CrossStep(0, 3);
    CrossStep(0, 1);
    CrossStep(1, 2);
    CrossStep(3, 4);
    CrossStep(4, 5);
    CrossStep(5, 6);
  }

  lemma CrossStep(u: nat, v: nat)
    requires Reachable(CROSS_FLOW, u) && CrossEdge(u, v)
    ensures Reachable(CROSS_FLOW, v)
  {
    CrossEdges(u, v);
    ReachableStep(CROSS_FLOW, u, v);
  }

  // ---------------------------------------------------------------- the pass accepts it

  lemma CrossChecks(c: nat, r: nat)
    ensures IsCheckAt(CROSS, c, r) <==> (c == 7 && r == 1) || (c == 15 && r == 4)
  {
    hide CROSS, Source;
    CrossSize();
    if c < |CROSS| {
      CrossKinds(c);
      CrossSources(c);
    }
  }

  lemma CrossParts()
    ensures |CROSS| == 19 && Object(CROSS, 7) == 0 && Object(CROSS, 15) == 0
    ensures CROSS[7].kind.NullCheck? && CROSS[15].kind.NullCheck?
    ensures WfCheck(CROSS, 7) && WfCheck(CROSS, 15)
  {
    hide CROSS;
    CrossSize();
    CrossKinds(7);
    CrossKinds(15);
    CrossOps(7);
    CrossOps(15);
    CrossKinds(0);
    CrossKinds(6);
    CrossKinds(14);
  }

  lemma CrossWfChecks()
    ensures WfChecks(CROSS) && Named(CROSS)
  {
    hide CROSS, WfCheck;
    CrossParts();
    forall c | 0 <= c < |CROSS| && IsCheck(CROSS[c].kind) ensures WfCheck(CROSS, c) {
      CrossKinds(c);
    }
    forall R: nat | R < |CROSS| && CROSS[R].kind.IsRegion() ensures R == CrossNode(CROSS[R].kind.region) {
      CrossKinds(R);
    }
  }

  function CrossNode(r: nat): nat {
    if r == 0 then 2 else if r == 1 then 6 else if r == 2 then 8 else if r == 3 then 12 else if r == 4 then 14
    else if r == 5 then 16 else 18
  }

  lemma CrossEnds(t: nat, R: nat)
    requires Ends(CROSS, t, R)
    ensures (t == 3 && R == 2) || (t == 7 && R == 6) || (t == 9 && R == 8) || (t == 13 && R == 12) || (t == 15 && R == 14)
      || (t == 17 && R == 16)
  {
    hide CROSS;
    CrossSize();
    CrossKinds(t);
    CrossKinds(R);
    CrossOps(t);
  }

  lemma CrossOneEnd()
    ensures OneEnd(CROSS)
  {
    hide Ends;
    forall t, t', R: nat | Ends(CROSS, t, R) && Ends(CROSS, t', R) ensures t == t' {
      CrossEnds(t, R);
      CrossEnds(t', R);
    }
  }

  lemma CrossRemovable()
    ensures Removable(CROSS, 15, 16, 14)
  {
    hide CROSS;
    CrossSize();
    CrossKinds(15);
    CrossKinds(16);
    CrossKinds(14);
    CrossOps(15);
    CrossOps(16);
    forall x, i | 0 <= x < |CROSS| && 0 <= i < |CROSS[x].ops| && CROSS[x].ops[i] == Some(15) ensures x == 16 {
      CrossOps(x);
    }
  }

  lemma CrossRepeats(a: nat, u: nat, rA: nat, rB: nat, bounds: bool)
    ensures Repeats(CROSS, CROSS_DOM, a, u, rA, rB, bounds) <==> a == 7 && u == 15 && rA == 1 && rB == 4 && !bounds
  {
    hide IsCheckAt, Object, Bound, Dom.Above, CROSS, WfCheck;
    CrossChecks(a, rA);
    CrossChecks(u, rB);
    CrossAbove();
    CrossParts();
    CrossOps(15);
  }

  lemma CrossReady()
    ensures Ready(CROSS, CROSS_DOM)
  {
    hide Repeats, Removable, CROSS, WfCheck;
    CrossParts();
    CrossRemovable();
    CrossSlots(15, 0);
    UsesOf(CROSS, 15, 0);
    forall a: nat, u: nat, rA: nat, rB: nat, bounds | Repeats(CROSS, CROSS_DOM, a, u, rA, rB, bounds)
      ensures a == 7 && u == 15
    {
      CrossRepeats(a, u, rA, rB, bounds);
    }
    assert CanGo(CROSS, Object(CROSS, 7), 15);
  }

  lemma CrossAccepted()
    ensures Dual(CROSS) && Flow(CROSS, CROSS_FLOW) && Lists(CROSS, CROSS_FLOW) && Sound(CROSS_FLOW)
    ensures Built(CROSS_FLOW, CROSS_DOM, CROSS_LIST) && Accepted(CROSS, CROSS_FLOW, CROSS_DOM)
  {
    hide Dual, Flow, Lists, WfChecks, Named, OneEnd, Ready, Built, IsCheckAt, Cfg.Anchored, Sound, CROSS;
    CrossDual();
    CrossFlow();
    CrossLists();
    CrossBuilt();
    CrossWfChecks();
    CrossOneEnd();
    CrossReady();
    CrossSound();
    forall c: nat, r: nat | IsCheckAt(CROSS, c, r) ensures CROSS_FLOW.Anchored(r) {
      CrossChecks(c, r);
    }
  }

  // ---------------------------------------------------------------- the check that goes is needed

  // There is no confusion of objects and bounds, but on the path that avoids region 1
  // nothing vouches for the check of region 4.
  lemma CrossUnvouched(def: nat -> nat)
    ensures NoConfusion(CROSS, CROSS_DOM) && Repeated(CROSS, CROSS_DOM, 15, 4)
    ensures !KeptVouch(CROSS_FLOW, CROSS, CROSS_DOM, def)
  {
    hide IsCheckAt, Object, Repeats, CROSS;
    forall a: nat, u: nat, rA: nat, rB: nat ensures !Confused(CROSS, CROSS_DOM, a, u, rA, rB) {
      CrossRepeats(a, u, rA, rB, true);
    }
    CrossRepeats(7, 15, 1, 4, false);
    CrossAbove();
    var p: seq<nat> := [0, 3, 4];
    forall a: nat, j: nat ensures !Vouches(CROSS, CROSS, def, 15, p, a, j) {
      if j + 1 < |p| {
        CrossChecks(a, p[j]);
      }
    }
    assert !VouchedByKept(CROSS, CROSS_DOM, def, 15, p);
  }

  // The pass, run on that function, removes the second check and with it a failure.
  method RunCross(F: Graph, ghost def: nat -> nat)
    requires F.nodes == CROSS
    modifies F
    ensures Lost(CROSS, F.nodes, 15, 4) && !RunsAgree(CROSS_FLOW, def, CROSS, F.nodes)
  {
    hide Accepted, RunsAgree, KeptVouch, NoConfusion, Ssa, Sound, Built, Reduced, Lost, Flow, Lists, Dual, CROSS, RegionNodes,
      Repeated, Truthful;
    CrossAccepted();
    CrossRegions();
    CrossUnvouched(def);
    Run(F, CROSS_FLOW, [2, 6, 8, 12, 14, 16, 18], CROSS_DOM, CROSS_LIST, def);
  }

  lemma CrossRegions()
    ensures RegionNodes(CROSS, CROSS_FLOW, [2, 6, 8, 12, 14, 16, 18])
  {
    hide CROSS;
    CrossSize();
    CrossKinds(2);
    CrossKinds(6);
    CrossKinds(8);
    CrossKinds(12);
    CrossKinds(14);
    CrossKinds(16);
    CrossKinds(18);
  }
}
