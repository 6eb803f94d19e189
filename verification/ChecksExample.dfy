// A graph on which check elimination removes a check that is needed: the object of one
// bounds check is the bound of another (src/Optimizations/ChecksElimination.hpp:57-93).
module ChecksEliminationExample {
  import opened SeqUtil
  import opened Tree
  import opened ControlFlow
  import opened DepthFirstSearch
  import opened NaturalLoops
  import opened UseDef
  import opened Values
  import opened Dominators
  import opened RegionEdges
  import opened ChecksEliminationPass

  // Region 0 checks the constant 5 against 10; region 1 checks an argument against
  // the same constant node; region 2 returns. Both checks use that node, 5 <= 10 and
  // region 0 is above region 1, which is all the bounds sweep asks for.
  const SHARED: Nodes := [
    Node(Constant(5), Int32, [], multiset{5, 6}),
    Node(FunctionArg(0), Int32, [], multiset{6}),
    Node(Start(0), Void, [], multiset{5}),
    Node(Region(1), Void, [Some(5)], multiset{6}),
    Node(Region(2), Void, [Some(6)], multiset{8}),
    Node(BoundsCheck, Void, [Some(0), Some(7), Some(2)], multiset{3}),
    Node(BoundsCheck, Void, [Some(1), Some(0), Some(3)], multiset{4}),
    Node(Constant(10), Int32, [], multiset{5}),
    Node(Ret, Void, [Some(4)], multiset{9}),
    Node(End(3), Void, [Some(8)], multiset{})
  ]
  const SHARED_FLOW := Cfg(0, [[1], [2], [3], []], [[], [0], [1], []])

  lemma SharedOps(u: nat)
    requires u < |SHARED|
    ensures SHARED[u].ops == if u == 3 then [Some(5)] else if u == 4 then [Some(6)]
      else if u == 5 then [Some(0), Some(7), Some(2)] else if u == 6 then [Some(1), Some(0), Some(3)]
      else if u == 8 then [Some(4)] else if u == 9 then [Some(8)] else []
  {
  }

  lemma SharedKinds(u: nat)
    requires u < |SHARED|
    ensures SHARED[u].kind == if u == 0 then Constant(5) else if u == 1 then FunctionArg(0) else if u == 2 then Start(0)
      else if u == 3 then Region(1) else if u == 4 then Region(2) else if u == 5 || u == 6 then BoundsCheck
      else if u == 7 then Constant(10) else if u == 8 then Ret else End(3)
  {
  }

  lemma SharedSize()
    ensures |SHARED| == 10
  {
  }

  // ---------------------------------------------------------------- users and edges

  lemma SharedDual()
    ensures Dual(SHARED)
  {
    SharedSize();
    forall u, i | 0 <= u < |SHARED| && 0 <= i < |SHARED[u].ops| && SHARED[u].ops[i].Some?
      ensures SHARED[u].ops[i].value < |SHARED|
    {
      SharedOps(u);
    }
    hide Uses, SHARED;
    forall n, u: nat | 0 <= n < |SHARED| ensures SHARED[n].users[u] == Uses(SHARED, u, n) {
      SharedUses(n, u);
    }
  }

  ghost predicate Holds(u: nat, n: nat) {
    || (u == 3 && n == 5) || (u == 4 && n == 6) || (u == 5 && (n == 0 || n == 2 || n == 7))
    || (u == 6 && (n == 0 || n == 1 || n == 3)) || (u == 8 && n == 4) || (u == 9 && n == 8)
  }

  lemma SharedUses(n: nat, u: nat)
    requires n < |SHARED|
    ensures SHARED[n].users[u] == Uses(SHARED, u, n)
  {
    SharedUsers(n, u);
    SharedSize();
    if u < |SHARED| {
      SharedSlots(u, n);
    }
  }

  lemma SharedSlots(u: nat, n: nat)
    requires u < |SHARED|
    ensures multiset(SHARED[u].ops)[Some(n)] == if Holds(u, n) then 1 else 0
  {
    SharedOps(u);
    hide SHARED;
    ThreeSlots(0, 7, 2, n);
    ThreeSlots(1, 0, 3, n);
  }

  lemma SharedUsers(n: nat, u: nat)
    requires n < |SHARED|
    ensures SHARED[n].users[u] == if Holds(u, n) then 1 else 0
  {
    assert SHARED[0].users == multiset{5, 6} && SHARED[1].users == multiset{6} && SHARED[2].users == multiset{5};
    assert SHARED[3].users == multiset{6} && SHARED[4].users == multiset{8} && SHARED[5].users == multiset{3};
    assert SHARED[6].users == multiset{4} && SHARED[7].users == multiset{5} && SHARED[8].users == multiset{9};
    assert SHARED[9].users == multiset{};
    SharedSize();
    hide SHARED;
  }

  lemma SharedEdges(r: nat, s: nat)
    ensures SHARED_FLOW.Edge(r, s) <==> r < 3 && s == r + 1
  {
    if r < 4 {
      assert SHARED_FLOW.succs[r] == if r == 0 then [1] else if r == 1 then [2] else if r == 2 then [3] else [];
    }
  }

  lemma SharedInputs(S: nat, i: nat, r: nat)
    ensures EntersFrom(SHARED, S, i, r) <==> i == 0 && ((S == 3 && r == 0) || (S == 4 && r == 1) || (S == 9 && r == 2))
  {
    if S < |SHARED| {
      SharedOps(S);
      SharedKinds(S);
      SharedSources();
    }
  }

  lemma SharedSources()
    ensures |SHARED| == 10 && Source(SHARED, 5) == Some(0) && Source(SHARED, 6) == Some(1) && Source(SHARED, 8) == Some(2)
  {
  }

  lemma SharedFlow()
    ensures Flow(SHARED, SHARED_FLOW)
  {
    hide EntersFrom, Cfg.Edge, SHARED;
    forall r: nat, s: nat ensures SHARED_FLOW.Edge(r, s) <==> NodeEdge(SHARED, r, s) {
      SharedEdges(r, s);
      if NodeEdge(SHARED, r, s) {
        var S, i := EdgeInput(SHARED, r, s);
        SharedInputs(S, i, r);
        SharedKinds(S);
      }
      if r < 3 && s == r + 1 {
        var S: nat := if r == 2 then 9 else r + 3;
        SharedInputs(S, 0, r);
        InputEdge(SHARED, S, 0, r);
        SharedKinds(S);
      }
    }
  }

  lemma SharedLists()
    ensures Lists(SHARED, SHARED_FLOW)
  {
    SharedSources();
    forall S | 0 <= S < |SHARED| && SHARED[S].kind.IsRegion()
      ensures SHARED[S].kind.region < 4 && SHARED_FLOW.preds[SHARED[S].kind.region] == Predecessors(SHARED, SHARED[S].ops)
    {
      SharedKinds(S);
      SharedOps(S);
      assert [Some(5)][..0] == [] && [Some(6)][..0] == [] && [Some(8)][..0] == [];
    }
  }

  // ---------------------------------------------------------------- the search and the tree

  const SHARED_NUM: map<nat, nat> := map[0 := 0, 1 := 1, 2 := 2, 3 := 3]
  const SHARED_DOM := Dom(SHARED_NUM, [0, 0, 1, 3])

  const S1 := St([(0, 0), (0, 1)], [0], [0], map[0 := 0], [], [0], [0])
  const S2 := St([(0, 0), (0, 1), (1, 2)], [0, 1], [0, 0], map[0 := 0, 1 := 1], [], [0, 1], [0, 1])
  const S3 := St([(0, 0), (0, 1), (1, 2), (2, 3)], [0, 1, 2], [0, 0, 1], map[0 := 0, 1 := 1, 2 := 2], [],
    [0, 1, 2], [0, 1, 2])
  const S4 := St([(0, 0), (0, 1), (1, 2), (2, 3)], [0, 1, 2, 3], [0, 0, 1, 2], SHARED_NUM, [], [0, 1, 2, 3], [0, 1, 2, 3])
  const S5 := St([(0, 0), (0, 1), (1, 2)], [0, 1, 2, 3], [0, 0, 1, 2], SHARED_NUM, [3], [0, 1, 2], [0, 1, 2])
  const S6 := St([(0, 0), (0, 1)], [0, 1, 2, 3], [0, 0, 1, 2], SHARED_NUM, [3, 2], [0, 1], [0, 1])
  const S7 := St([(0, 0)], [0, 1, 2, 3], [0, 0, 1, 2], SHARED_NUM, [3, 2, 1], [0], [0])
  const S8 := St([], [0, 1, 2, 3], [0, 0, 1, 2], SHARED_NUM, [3, 2, 1, 0], [], [])

  lemma SharedVisits()
    ensures Step(SHARED_FLOW, Initial(SHARED_FLOW)) == S1 && Step(SHARED_FLOW, S1) == S2
    ensures Step(SHARED_FLOW, S2) == S3 && Step(SHARED_FLOW, S3) == S4
  {
    assert [1][..0] == [] && [2][..0] == [] && [3][..0] == [];
    assert Pushes(0, [1], map[0 := 0]) == [(0, 1)] && Pushes(1, [2], map[0 := 0, 1 := 1]) == [(1, 2)];
    assert Pushes(2, [3], map[0 := 0, 1 := 1, 2 := 2]) == [(2, 3)] && Pushes(3, [], SHARED_NUM) == [];
    hide Pushes;
    var g := SHARED_FLOW;
    assert g.succs[0] == [1] && g.succs[1] == [2] && g.succs[2] == [3] && g.succs[3] == [];
  }

  lemma SharedCloses()
    ensures Step(SHARED_FLOW, S4) == S5 && Step(SHARED_FLOW, S5) == S6
    ensures Step(SHARED_FLOW, S6) == S7 && Step(SHARED_FLOW, S7) == S8
  {
    hide Visit;
  }

  lemma SharedSearch()
    ensures SearchYields(SHARED_FLOW, [0, 1, 2, 3], [0, 0, 1, 2], SHARED_NUM, [3, 2, 1, 0])
  {
    hide Step;
    SharedVisits();
    SharedCloses();
    var g := SHARED_FLOW;
    assert Steps(g, 0) == Initial(g) && Steps(g, 1) == S1 && Steps(g, 2) == S2 && Steps(g, 3) == S3 && Steps(g, 4) == S4;
    assert Steps(g, 5) == S5 && Steps(g, 6) == S6 && Steps(g, 7) == S7 && Steps(g, 8) == S8;
    assert StopsWith(g, 8, [0, 1, 2, 3], [0, 0, 1, 2], SHARED_NUM, [3, 2, 1, 0]);
  }

  lemma SharedCandidates()
    ensures Dominators.Candidates(SHARED_FLOW, [0, 1, 2, 3], [0, 0, 1, 2], SHARED_NUM, [0, 0, 1, 3])
  {
    SharedNumbering();
    hide Numbering;
    var g := SHARED_FLOW;
    assert g.preds[1] == [0] && g.preds[2] == [1] && g.preds[3] == [];
    assert 0 in g.preds[1] && 1 in g.preds[2];
  }

  lemma SharedNumbering()
    ensures Numbering(SHARED_FLOW, [0, 1, 2, 3], [0, 0, 1, 2], SHARED_NUM)
  {
    SharedSearch();
    assert SHARED_FLOW.succs == [[1], [2], [3], []];
    hide SearchYields, Numbering, DepthFirst, PreOrder, PostOrder, RepeatsFollowParents, GroupedSuccs;
    SearchIs(SHARED_FLOW, [0, 1, 2, 3], [0, 0, 1, 2], SHARED_NUM, [3, 2, 1, 0]);
  }

  lemma SharedBuilt()
    ensures Built(SHARED_FLOW, SHARED_DOM, [3, 2, 1, 0])
  {
    SharedSearch();
    SharedCandidates();
    assert BuiltFrom(SHARED_FLOW, [0, 1, 2, 3], [0, 0, 1, 2], SHARED_DOM, [3, 2, 1, 0]);
  }

  lemma SharedAbove(a: nat, b: nat)
    ensures SHARED_DOM.Above(a, b) <==> (a <= b <= 2 || a == b == 3)
  {
    var t: seq<nat> := [0, 0, 1, 3];
    assert Anc(t, a, 0) <==> a == 0;
    assert Anc(t, a, 1) <==> a == 1 || Anc(t, a, 0);
    assert Anc(t, a, 2) <==> a == 2 || Anc(t, a, 1);
    assert Anc(t, a, 3) <==> a == 3;
  }

  lemma SharedSound()
    ensures Sound(SHARED_FLOW) && forall r: nat :: r < 3 ==> SHARED_FLOW.Anchored(r)
  {
    var g := SHARED_FLOW;
    assert g.succs == [[1], [2], [3], []] && g.preds == [[], [0], [1], []];
    forall r: nat | r < 3 ensures g.Listed(r) {
      forall u: nat ensures u in g.preds[r] <==> g.Edge(u, r) {
        SharedEdges(u, r);
      }
    }
    StartReachable(g);
    SharedEdges(0, 1);
    SharedEdges(1, 2);
    SharedEdges(2, 3);
    ReachableStep(g, 0, 1);
    ReachableStep(g, 1, 2);
    ReachableStep(g, 2, 3);
    hide Cfg.Edge;
  }

  // The tree is right here: it is not to blame.
  lemma SharedTruthful()
    ensures Truthful(SHARED_FLOW, SHARED_DOM)
  {
    hide Dominates, Dom.Above, Cfg.Anchored;
    forall a: nat, b: nat | SHARED_DOM.Above(a, b) && SHARED_FLOW.Anchored(b) ensures Dominates(SHARED_FLOW, a, b) {
      SharedAbove(a, b);
      SharedDominates(a, b);
    }
  }

  lemma SharedDominates(a: nat, b: nat)
    requires a <= b <= 2 || a == b
    ensures Dominates(SHARED_FLOW, a, b)
  {
    forall p | PathBetween(SHARED_FLOW, p, 0, b) ensures a in p {
      RowPath(p, |p| - 1);
      RowPath(p, a);
    }
  }

  // A path from the start goes along the row.
  lemma {:induction false} RowPath(p: seq<nat>, k: nat)
    requires IsPath(SHARED_FLOW, p) && p[0] == 0
    ensures k < |p| ==> p[k] == k
  {
    if 0 < k < |p| {
      RowPath(p, k - 1);
      assert SHARED_FLOW.Edge(p[k - 1], p[k]);
      SharedEdges(p[k - 1], p[k]);
    }
  }

  // ---------------------------------------------------------------- the pass accepts it

  lemma SharedChecks(c: nat, r: nat)
    ensures IsCheckAt(SHARED, c, r) <==> (c == 5 && r == 0) || (c == 6 && r == 1)
  {
    SharedSources();
    if c < |SHARED| {
      SharedKinds(c);
    }
  }

  lemma SharedParts()
    ensures |SHARED| == 10 && Object(SHARED, 5) == 0 && Object(SHARED, 6) == 1 && BoundNode(SHARED, 6) == 0
    ensures Bound(SHARED, 5) == 10 && Bound(SHARED, 6) == 5
  {
  }

  lemma SharedWf()
    ensures WfChecks(SHARED)
  {
    forall c | 0 <= c < |SHARED| && IsCheck(SHARED[c].kind) ensures Vacant(SHARED[c]) || WfCheck(SHARED, c) {
      SharedKinds(c);
      SharedWfCheck();
    }
  }

  lemma SharedWfCheck()
    ensures |SHARED| == 10 && WfCheck(SHARED, 5) && WfCheck(SHARED, 6)
  {
  }

  lemma SharedNamed()
    ensures Named(SHARED)
  {
    forall R | 0 <= R < |SHARED| && SHARED[R].kind.IsRegion()
      ensures R == if SHARED[R].kind.region == 3 then 9 else SHARED[R].kind.region + 2
    {
      SharedKinds(R);
    }
  }

  lemma SharedEnds(t: nat, R: nat)
    requires Ends(SHARED, t, R)
    ensures (t == 5 && R == 2) || (t == 6 && R == 3) || (t == 8 && R == 4)
  {
    SharedKinds(t);
    SharedKinds(R);
    SharedOps(t);
  }

  lemma SharedOneEnd()
    ensures OneEnd(SHARED)
  {
    hide Ends;
    forall t, t', R: nat | Ends(SHARED, t, R) && Ends(SHARED, t', R) ensures t == t' {
      SharedEnds(t, R);
      SharedEnds(t', R);
    }
  }

  lemma SharedRemovable()
    ensures Removable(SHARED, 6, 4, 3)
  {
    forall x, i | 0 <= x < |SHARED| && 0 <= i < |SHARED[x].ops| && SHARED[x].ops[i] == Some(6) ensures x == 4 {
      SharedOps(x);
    }
  }

  lemma SharedRepeats(a: nat, u: nat, rA: nat, rB: nat, bounds: bool)
    ensures Repeats(SHARED, SHARED_DOM, a, u, rA, rB, bounds) <==> a == 5 && u == 6 && rA == 0 && rB == 1 && bounds
  {
    SharedChecks(a, rA);
    SharedChecks(u, rB);
    SharedAbove(rA, rB);
    SharedParts();
    SharedOps(5);
    SharedOps(6);
    SharedKinds(5);
    SharedKinds(6);
    hide IsCheckAt, Object, Bound, Dom.Above, SHARED;
  }

  lemma SharedReady()
    ensures Ready(SHARED, SHARED_DOM)
  {
    SharedParts();
    SharedRemovable();
    SharedSlots(6, 0);
    hide Repeats, Removable, SHARED;
    forall a: nat, u: nat, rA: nat, rB: nat, bounds | Repeats(SHARED, SHARED_DOM, a, u, rA, rB, bounds)
      ensures CanGo(SHARED, Object(SHARED, a), u)
    {
      SharedRepeats(a, u, rA, rB, bounds);
    }
  }

  lemma SharedAccepted()
    ensures Accepted(SHARED, SHARED_FLOW, SHARED_DOM)
  {
    SharedDual();
    SharedFlow();
    SharedWf();
    SharedNamed();
    SharedOneEnd();
    SharedReady();
    SharedSound();
    hide Dual, Flow, WfChecks, Named, OneEnd, Ready, IsCheckAt, Cfg.Anchored;
    forall c: nat, r: nat | IsCheckAt(SHARED, c, r) ensures SHARED_FLOW.Anchored(r) {
      SharedChecks(c, r);
    }
  }

  // ---------------------------------------------------------------- the check that goes is needed

  // The two checks are confused,
  lemma SharedConfused()
    ensures Confused(SHARED, SHARED_DOM, 5, 6, 0, 1) && Repeated(SHARED, SHARED_DOM, 6, 1)
  {
    SharedRepeats(5, 6, 0, 1, true);
    SharedParts();
    hide Repeats, SHARED;
  }

  // and nothing else tests the argument.
  lemma SharedUnvouched(def: nat -> nat)
    ensures !KeptVouch(SHARED_FLOW, SHARED, SHARED_DOM, def)
  {
    hide IsCheckAt, Object, Bound, Repeated;
    SharedConfused();
    SharedEdges(0, 1);
    var p: seq<nat> := [0, 1];
    assert PathBetween(SHARED_FLOW, p, 0, 1);
    forall a: nat, j: nat ensures !Vouches(SHARED, SHARED, def, 6, p, a, j) {
      SharedParts();
      if j < |p| {
        SharedChecks(a, p[j]);
      }
    }
    assert !VouchedByKept(SHARED, SHARED_DOM, def, 6, p);
  }

  // The table is a function with that control flow and a tree that tells the truth, and
  // the pass accepts it.
  lemma SharedIsFunction()
    ensures Dual(SHARED) && Flow(SHARED, SHARED_FLOW) && Lists(SHARED, SHARED_FLOW) && Sound(SHARED_FLOW)
    ensures Built(SHARED_FLOW, SHARED_DOM, [3, 2, 1, 0]) && Truthful(SHARED_FLOW, SHARED_DOM)
    ensures Accepted(SHARED, SHARED_FLOW, SHARED_DOM)
  {
    hide Dual, Flow, Lists, Sound, Built, Truthful, Accepted;
    SharedDual();
    SharedFlow();
    SharedLists();
    SharedSound();
    SharedBuilt();
    SharedTruthful();
    SharedAccepted();
  }

  // Whoever loses exactly the repeated checks loses the second one, and with it a failure.
  lemma SharedConstantChangesFailures(def: nat -> nat, ns': Nodes)
    requires Reduced(SHARED, ns') && LosesRepeated(SHARED, ns', SHARED_DOM)
    ensures Lost(SHARED, ns', 6, 1) && !RunsAgree(SHARED_FLOW, def, SHARED, ns')
  {
    hide Lost, Repeated, RunsAgree, KeptVouch, Accepted, Reduced, SHARED;
    SharedConfused();
    SharedUnvouched(def);
    SharedAccepted();
    EliminationRuns(SHARED_FLOW, def, SHARED, ns', SHARED_DOM);
  }

  // The pass, run on that function, does.
  method RunShared(F: Graph, ghost def: nat -> nat)
    requires F.nodes == SHARED
    modifies F
    ensures Lost(SHARED, F.nodes, 6, 1) && !RunsAgree(SHARED_FLOW, def, SHARED, F.nodes)
  {
    SharedIsFunction();
    SharedRegions();
    hide Accepted, RunsAgree, KeptVouch, NoConfusion, Ssa, Sound, Built, LosesRepeated, Reduced, Lost, Flow, SHARED, RegionNodes;
    Run(F, SHARED_FLOW, [2, 3, 4, 9], SHARED_DOM, [3, 2, 1, 0], def);
    SharedConstantChangesFailures(def, F.nodes);
  }

  lemma SharedRegions()
    ensures RegionNodes(SHARED, SHARED_FLOW, [2, 3, 4, 9])
  {
  }
}
