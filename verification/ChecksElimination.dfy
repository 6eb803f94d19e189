// Removal of dominated null and bounds checks (src/Optimizations/ChecksElimination.hpp).
// A check ends its region and jumps to one next region.
module ChecksEliminationPass {
  import opened SeqUtil
  import opened ControlFlow
  import opened NaturalLoops
  import opened UseDef
  import opened Values
  import opened DepthFirstSearch
  import opened Dominators
  import opened Tree
  import opened RegionEdges

  // ---------------------------------------------------------------- executions

  // When control enters a region, the values defined there are recomputed.
  datatype Config = Config(region: nat, env: nat -> int)

  // Which objects pass: bounds(x, k) says that x admits the bound k.
  datatype Sem = Sem(nonNull: int -> bool, bounds: (int, nat) -> bool)

  ghost predicate Monotone(sem: Sem) {
    forall x, k, k' :: sem.bounds(x, k) && k' <= k ==> sem.bounds(x, k')
  }

  function Object(ns: Nodes, c: nat): nat
    requires c < |ns|
  {
    var s := SlotOr(ns[c].ops, 0);
    if s.Some? then s.value else 0
  }

  function BoundNode(ns: Nodes, c: nat): nat
    requires c < |ns|
  {
    var s := SlotOr(ns[c].ops, 1);
    if s.Some? then s.value else 0
  }

  function Bound(ns: Nodes, c: nat): nat
    requires c < |ns|
  {
    var b := BoundNode(ns, c);
    if b < |ns| && ns[b].kind.Constant? then ns[b].kind.value else 0
  }

  predicate Passes(ns: Nodes, c: nat, env: nat -> int, sem: Sem)
    requires c < |ns|
  {
    if ns[c].kind.NullCheck? then sem.nonNull(env(Object(ns, c)))
    else sem.bounds(env(Object(ns, c)), Bound(ns, c))
  }

  ghost predicate IsCheckAt(ns: Nodes, c: nat, r: nat) {
    c < |ns| && IsCheck(ns[c].kind) && Source(ns, c) == Some(r)
  }

  ghost predicate AllPass(ns: Nodes, x: Config, sem: Sem) {
    forall c: nat :: IsCheckAt(ns, c, x.region) ==> Passes(ns, c, x.env, sem)
  }

  // From x to y along an edge; only values defined in the entered region change.
  ghost predicate Moves(g: Cfg, def: nat -> nat, x: Config, y: Config) {
    g.Edge(x.region, y.region) && forall v: nat :: def(v) != y.region ==> y.env(v) == x.env(v)
  }

  // A run from the start region; every region left behind passed its check.
  ghost predicate IsRun(g: Cfg, ns: Nodes, def: nat -> nat, sem: Sem, xs: seq<Config>) {
    && xs != [] && xs[0].region == g.start && g.start < |g.succs|
    && (forall i, j :: 0 <= i < j < |xs| && j == i + 1 ==> Moves(g, def, xs[i], xs[j]))
    && forall i :: 0 <= i < |xs| - 1 ==> AllPass(ns, xs[i], sem)
  }

  // The same runs, failing at the same points.
  ghost predicate RunsAgree(g: Cfg, def: nat -> nat, ns: Nodes, ns': Nodes) {
    forall sem, xs :: Monotone(sem) ==> RunAgrees(g, def, ns, ns', sem, xs)
  }

  ghost predicate RunAgrees(g: Cfg, def: nat -> nat, ns: Nodes, ns': Nodes, sem: Sem, xs: seq<Config>) {
    && (IsRun(g, ns, def, sem, xs) <==> IsRun(g, ns', def, sem, xs))
    && (IsRun(g, ns, def, sem, xs) ==> (AllPass(ns, xs[|xs| - 1], sem) <==> AllPass(ns', xs[|xs| - 1], sem)))
  }

  // ---------------------------------------------------------------- paths of a run

  function Regions(xs: seq<Config>): (p: seq<nat>)
    ensures |p| == |xs| && forall i :: 0 <= i < |xs| ==> p[i] == xs[i].region
  {
    seq(|xs|, i requires 0 <= i < |xs| => xs[i].region)
  }

  lemma RunIsPath(g: Cfg, ns: Nodes, def: nat -> nat, sem: Sem, xs: seq<Config>)
    requires IsRun(g, ns, def, sem, xs)
    ensures PathBetween(g, Regions(xs), g.start, xs[|xs| - 1].region)
  {
    var p := Regions(xs);
    forall i | 0 <= i < |p| ensures p[i] < |g.succs| {
      if i > 0 {
        assert Moves(g, def, xs[i - 1], xs[i]);
      }
    }
    forall i, j | 0 <= i < j < |p| && j == i + 1 ensures g.Edge(p[i], p[j]) {
      assert Moves(g, def, xs[i], xs[j]);
    }
  }

  lemma RunPrefix(g: Cfg, ns: Nodes, def: nat -> nat, sem: Sem, xs: seq<Config>, k: nat)
    requires IsRun(g, ns, def, sem, xs) && k < |xs|
    ensures IsRun(g, ns, def, sem, xs[..k + 1])
  {
  }

  // A value keeps its value after the last entry to its region.
  lemma {:induction false} ValueStays(g: Cfg, ns: Nodes, def: nat -> nat, sem: Sem, xs: seq<Config>, v: nat, j: nat,
          k: nat)
    requires IsRun(g, ns, def, sem, xs) && j <= k < |xs|
    requires forall i :: j < i < |xs| ==> xs[i].region != def(v)
    ensures xs[k].env(v) == xs[j].env(v)
    decreases k
  {
    if j < k {
      ValueStays(g, ns, def, sem, xs, v, j, k - 1);
      assert Moves(g, def, xs[k - 1], xs[k]);
    }
  }

  // If D dominates A and A dominates the end, then A is passed after the last visit of D.
  lemma PassedSince(g: Cfg, p: seq<nat>, D: nat, A: nat) returns (k: nat, j: nat)
    requires IsPath(g, p) && p[0] == g.start && Reachable(g, D)
    requires Dominates(g, D, A) && Dominates(g, A, p[|p| - 1])
    ensures k <= j < |p| && p[j] == A && D !in p[k + 1..]
  {
    assert PathBetween(g, p, g.start, p[|p| - 1]);
    var i := LastOf(p, A, A);
    PathPrefix(g, p, i);
    assert PathBetween(g, p[..i + 1], g.start, A);
    assert D in p[..i + 1];
    assert D in p by {
      var m :| 0 <= m < |p[..i + 1]| && p[..i + 1][m] == D;
      assert p[m] == D;
    }
    k := LastOf(p, D, D);
    if k <= i {
      j := i;
    } else {
      // A is not passed from the last D on: a detour to D would avoid A.
      PathSuffix(g, p, k);
      assert A !in p[k + 1..] by {
        assert p[k + 1..] == p[i + 1..][k - i..];
      }
      assert p[k..][1..] == p[k + 1..];
      assert A != D;
      if Dominates(g, A, D) {
        DominatesAntisym(g, D, A);
      }
      var q :| PathBetween(g, q, g.start, D) && A !in q;
      Detour(g, q, p[k..], A);
      j := k;
    }
  }

  // ---------------------------------------------------------------- when losing checks changes nothing

  // Nodes are only added, kinds stay, and every check is one there was before.
  ghost predicate Reduced(ns: Nodes, ns': Nodes) {
    && |ns| <= |ns'|
    && (forall x :: 0 <= x < |ns| ==> ns'[x].kind == ns[x].kind)
    && forall c: nat, r: nat :: IsCheckAt(ns', c, r) ==> StillChecks(ns, ns', c, r)
  }

  ghost predicate StillChecks(ns: Nodes, ns': Nodes, c: nat, r: nat) {
    && c < |ns| && c < |ns'| && IsCheckAt(ns, c, r) && ns'[c].ops == ns[c].ops
    && Object(ns', c) == Object(ns, c) && Bound(ns', c) == Bound(ns, c)
  }

  lemma ReducedRefl(ns: Nodes)
    ensures Reduced(ns, ns)
  {
  }

  lemma ReducedTrans(a: Nodes, b: Nodes, c: Nodes)
    requires Reduced(a, b) && Reduced(b, c)
    ensures Reduced(a, c)
  {
    hide IsCheckAt, Object, Bound;
    forall x: nat, r: nat | IsCheckAt(c, x, r) ensures StillChecks(a, c, x, r) {
      assert StillChecks(b, c, x, r) && StillChecks(a, b, x, r);
    }
  }

  // Passing a implies passing u on the same object value.
  ghost predicate Implies(ns: Nodes, a: nat, u: nat) {
    && a < |ns| && u < |ns| && IsCheck(ns[a].kind) && ns[u].kind == ns[a].kind
    && Object(ns, u) == Object(ns, a)
    && (ns[u].kind.BoundsCheck? ==> Bound(ns, u) <= Bound(ns, a))
  }

  lemma ImpliesPasses(ns: Nodes, a: nat, u: nat, e1: nat -> int, e2: nat -> int, sem: Sem)
    requires Implies(ns, a, u) && Monotone(sem) && e1(Object(ns, a)) == e2(Object(ns, u)) && Passes(ns, a, e1, sem)
    ensures Passes(ns, u, e2, sem)
  {
  }

  // Check a of ns', passed at position j of p, implies u, and the object of u is not
  // computed again from there to the end of p.
  ghost predicate Vouches(ns: Nodes, ns': Nodes, def: nat -> nat, u: nat, p: seq<nat>, a: nat, j: nat) {
    && Implies(ns, a, u) && j + 1 < |p| && IsCheckAt(ns', a, p[j]) && def(Object(ns, u)) !in p[j + 1..]
  }

  ghost predicate VouchedOn(ns: Nodes, ns': Nodes, def: nat -> nat, u: nat, p: seq<nat>) {
    exists a: nat, j: nat :: Vouches(ns, ns', def, u, p, a, j)
  }

  ghost predicate Lost(ns: Nodes, ns': Nodes, u: nat, r: nat) {
    IsCheckAt(ns, u, r) && !IsCheckAt(ns', u, r)
  }

  // On every path to a lost check some check that is left vouches for it.
  ghost predicate AllVouched(g: Cfg, ns: Nodes, ns': Nodes, def: nat -> nat) {
    forall u: nat, r: nat, p :: Lost(ns, ns', u, r) && PathBetween(g, p, g.start, r) ==> VouchedOn(ns, ns', def, u, p)
  }

  ghost predicate SingleChecks(ns: Nodes) {
    forall c: nat, d: nat, r: nat :: IsCheckAt(ns, c, r) && IsCheckAt(ns, d, r) ==> c == d
  }

  lemma StillPasses(ns: Nodes, ns': Nodes, x: Config, sem: Sem)
    requires Reduced(ns, ns') && AllPass(ns, x, sem)
    ensures AllPass(ns', x, sem)
  {
    hide IsCheckAt, Object, Bound;
    forall c: nat | IsCheckAt(ns', c, x.region) ensures Passes(ns', c, x.env, sem) {
      assert StillChecks(ns, ns', c, x.region);
      assert Passes(ns, c, x.env, sem);
    }
  }

  // A run that passes what is left at its end passes the lost check too.
  lemma VouchedPasses(g: Cfg, def: nat -> nat, ns: Nodes, ns': Nodes, sem: Sem, xs: seq<Config>)
    requires Reduced(ns, ns') && AllVouched(g, ns, ns', def) && Monotone(sem) && IsRun(g, ns', def, sem, xs)
    requires AllPass(ns', xs[|xs| - 1], sem)
    ensures AllPass(ns, xs[|xs| - 1], sem)
  {
    assert xs != [];
    hide IsCheckAt, Object, Bound, Passes, VouchedOn, IsRun;
    var x, p := xs[|xs| - 1], Regions(xs);
    RunIsPath(g, ns', def, sem, xs);
    ChecksBelow(ns);
    forall u: nat | IsCheckAt(ns, u, x.region) ensures Passes(ns, u, x.env, sem) {
      if IsCheckAt(ns', u, x.region) {
        SamePasses(ns, ns', u, x, sem);
      } else {
        assert Lost(ns, ns', u, x.region) && VouchedOn(ns, ns', def, u, p);
        var a, j := PassedBefore(g, def, ns, ns', sem, xs, u);
        ImpliesPasses(ns, a, u, xs[j].env, x.env, sem);
      }
    }
  }

  lemma SamePasses(ns: Nodes, ns': Nodes, c: nat, x: Config, sem: Sem)
    requires Reduced(ns, ns') && IsCheckAt(ns', c, x.region) && AllPass(ns', x, sem)
    ensures c < |ns| && IsCheckAt(ns, c, x.region) && Passes(ns, c, x.env, sem)
  {
    hide IsCheckAt, Object, Bound;
    assert StillChecks(ns, ns', c, x.region);
    assert Passes(ns', c, x.env, sem);
  }

  // What vouches for u on the path of a run was passed on the very value of the object.
  lemma PassedBefore(g: Cfg, def: nat -> nat, ns: Nodes, ns': Nodes, sem: Sem, xs: seq<Config>, u: nat)
    returns (a: nat, j: nat)
    requires Reduced(ns, ns') && IsRun(g, ns', def, sem, xs) && VouchedOn(ns, ns', def, u, Regions(xs))
    ensures j < |xs| - 1 && Implies(ns, a, u) && IsCheckAt(ns', a, xs[j].region) && Passes(ns, a, xs[j].env, sem)
    ensures xs[j].env(Object(ns, u)) == xs[|xs| - 1].env(Object(ns, u))
  {
    hide IsCheckAt, Bound, Passes, Moves;
    var p := Regions(xs);
    a, j :| Vouches(ns, ns', def, u, p, a, j);
    assert AllPass(ns', xs[j], sem);
    SamePasses(ns, ns', a, xs[j], sem);
    forall i | j < i < |xs| ensures xs[i].region != def(Object(ns, u)) {
      assert p[i] == p[j + 1..][i - (j + 1)];
    }
    ValueStays(g, ns', def, sem, xs, Object(ns, u), j, |xs| - 1);
  }

  lemma VouchedRuns(g: Cfg, def: nat -> nat, ns: Nodes, ns': Nodes)
    requires Reduced(ns, ns') && AllVouched(g, ns, ns', def)
    ensures RunsAgree(g, def, ns, ns')
  {
    hide AllPass, Reduced, AllVouched, Moves;
    forall sem, xs | Monotone(sem) ensures RunAgrees(g, def, ns, ns', sem, xs) {
      if IsRun(g, ns', def, sem, xs) {
        forall i | 0 <= i < |xs| && AllPass(ns', xs[i], sem) ensures AllPass(ns, xs[i], sem) {
          RunPrefix(g, ns', def, sem, xs, i);
          VouchedPasses(g, def, ns, ns', sem, xs[..i + 1]);
        }
      }
      forall i | 0 <= i < |xs| && AllPass(ns, xs[i], sem) ensures AllPass(ns', xs[i], sem) {
        StillPasses(ns, ns', xs[i], sem);
      }
    }
  }

  // ---------------------------------------------------------------- the run that tells the difference

  // Objects are worth 1, and the object of u is worth 0 from position k on.
  function Worth(o: nat, k: nat, i: nat): nat -> int {
    v => if v == o && k <= i then 0 else 1
  }

  function Spoiled(p: seq<nat>, o: nat, k: nat): (xs: seq<Config>)
    ensures |xs| == |p| && forall i :: 0 <= i < |p| ==> xs[i] == Config(p[i], Worth(o, k, i))
  {
    seq(|p|, i requires 0 <= i < |p| => Config(p[i], Worth(o, k, i)))
  }

  // The value 0 fails u and whatever is as strict, and passes all else.
  function FailingOnly(ns: Nodes, u: nat): Sem
    requires u < |ns|
  {
    if ns[u].kind.NullCheck? then Sem(x => x != 0, (x, k) => true)
    else Sem(x => true, (x, k) => x != 0 || k < Bound(ns, u))
  }

  // The object of u was computed at position k, or nowhere on p.
  ghost predicate LastComputed(p: seq<nat>, d: nat, k: nat) {
    k < |p| && d !in p[k + 1..] && (if d in p then p[k] == d else k == 0)
  }

  lemma LastComputedAt(p: seq<nat>, d: nat) returns (k: nat)
    requires p != []
    ensures LastComputed(p, d, k)
  {
    if d in p {
      k := LastOf(p, d, d);
    } else {
      k := 0;
    }
  }

  lemma SpoiledMoves(g: Cfg, def: nat -> nat, p: seq<nat>, o: nat, k: nat, i: nat)
    requires IsPath(g, p) && LastComputed(p, def(o), k) && i + 1 < |p|
    ensures Moves(g, def, Spoiled(p, o, k)[i], Spoiled(p, o, k)[i + 1])
  {
    assert g.Edge(p[i], p[i + 1]);
  }

  lemma SpoiledPasses(ns: Nodes, ns': Nodes, def: nat -> nat, u: nat, p: seq<nat>, k: nat, i: nat, c: nat)
    requires Reduced(ns, ns') && u < |ns| && IsCheck(ns[u].kind) && LastComputed(p, def(Object(ns, u)), k)
    requires !VouchedOn(ns, ns', def, u, p) && i + 1 < |p| && IsCheckAt(ns', c, p[i])
    ensures c < |ns'| && Passes(ns', c, Worth(Object(ns, u), k, i), FailingOnly(ns, u))
  {
    hide IsCheckAt, Object, Bound;
    assert StillChecks(ns, ns', c, p[i]);
    assert IsCheck(ns[c].kind) by {
      CheckKind(ns, c, p[i]);
    }
    assert !Vouches(ns, ns', def, u, p, c, i);
    if k <= i {
      assert p[i + 1..] == p[k + 1..][i - k..];
      assert !Implies(ns, c, u);
    }
  }

  lemma ChecksBelow(ns: Nodes)
    ensures forall c: nat, r: nat :: IsCheckAt(ns, c, r) ==> c < |ns|
  {
  }

  lemma CheckKind(ns: Nodes, c: nat, r: nat)
    requires IsCheckAt(ns, c, r)
    ensures c < |ns| && IsCheck(ns[c].kind)
  {
  }

  // A path on which nothing vouches for u gives a run on which only u fails.
  lemma UnvouchedRun(g: Cfg, def: nat -> nat, ns: Nodes, ns': Nodes, u: nat, r: nat, p: seq<nat>)
    requires Reduced(ns, ns') && SingleChecks(ns) && Lost(ns, ns', u, r) && u < |ns|
    requires PathBetween(g, p, g.start, r) && !VouchedOn(ns, ns', def, u, p)
    ensures !RunsAgree(g, def, ns, ns')
  {
    hide IsCheckAt, Object, Bound, Reduced, VouchedOn, Moves;
    CheckKind(ns, u, r);
    ChecksBelow(ns');
    var k := LastComputedAt(p, def(Object(ns, u)));
    var sem, xs := FailingOnly(ns, u), Spoiled(p, Object(ns, u), k);
    assert Monotone(sem);
    forall i | 0 <= i < |p| - 1 ensures AllPass(ns', xs[i], sem) && Moves(g, def, xs[i], xs[i + 1]) {
      SpoiledMoves(g, def, p, Object(ns, u), k, i);
      forall c: nat | IsCheckAt(ns', c, p[i]) ensures Passes(ns', c, xs[i].env, sem) {
        SpoiledPasses(ns, ns', def, u, p, k, i, c);
      }
    }
    assert IsRun(g, ns', def, sem, xs);
    OnlyLost(ns, ns', u, r);
    assert AllPass(ns', xs[|p| - 1], sem);
    assert !Passes(ns, u, xs[|p| - 1].env, sem);
    assert !RunAgrees(g, def, ns, ns', sem, xs);
  }

  lemma OnlyLost(ns: Nodes, ns': Nodes, u: nat, r: nat)
    requires Reduced(ns, ns') && SingleChecks(ns) && Lost(ns, ns', u, r)
    ensures forall c: nat :: !IsCheckAt(ns', c, r)
  {
    hide IsCheckAt, Object, Bound;
    forall c: nat ensures !IsCheckAt(ns', c, r) {
      assert IsCheckAt(ns', c, r) ==> StillChecks(ns, ns', c, r);
    }
  }

  // Losing checks changes no run and no failure if and only if, on every path to a lost
  // check, a check that is left and implies it is passed after the last computation of
  // its object.
  lemma RunsAgreeIff(g: Cfg, def: nat -> nat, ns: Nodes, ns': Nodes)
    requires Reduced(ns, ns') && SingleChecks(ns)
    ensures RunsAgree(g, def, ns, ns') <==> AllVouched(g, ns, ns', def)
  {
    hide RunsAgree, Reduced, SingleChecks, IsCheckAt, VouchedOn;
    if AllVouched(g, ns, ns', def) {
      VouchedRuns(g, def, ns, ns');
    } else {
      var u: nat, r: nat, p :| Lost(ns, ns', u, r) && PathBetween(g, p, g.start, r) && !VouchedOn(ns, ns', def, u, p);
      CheckKind(ns, u, r);
      UnvouchedRun(g, def, ns, ns', u, r, p);
    }
  }

  // ---------------------------------------------------------------- removing one check

  // u gives way to a jump from its region (node B) to its next region (node N).
  ghost predicate Removed(ns: Nodes, ns': Nodes, u: nat, N: nat, B: nat) {
    && |ns'| == |ns| + 1 && u < |ns| && N < |ns| && B < |ns| && u != N && Dual(ns')
    && (forall x :: 0 <= x < |ns| ==> ns'[x].kind == ns[x].kind && ns'[x].ty == ns[x].ty)
    && (forall x :: 0 <= x < |ns| && x != u && x != N ==> ns'[x].ops == ns[x].ops)
    && Vacant(ns'[u]) && ns'[N].ops == [Some(|ns|)]
    && ns'[|ns|].kind == Jmp && ns'[|ns|].ops == [Some(B)]
  }

  // u is a check at the region of node B and the only input of region node N.
  ghost predicate Removable(ns: Nodes, u: nat, N: nat, B: nat) {
    && u < |ns| && N < |ns| && B < |ns| && IsCheck(ns[u].kind)
    && ns[N].kind.Region? && ns[B].kind.IsRegion() && ns[N].ops == [Some(u)]
    && ns[u].ops != [] && ns[u].ops[|ns[u].ops| - 1] == Some(B)
    && forall x, i :: 0 <= x < |ns| && 0 <= i < |ns[x].ops| && ns[x].ops[i] == Some(u) ==> x == N
  }

  lemma RemovedSource(ns: Nodes, ns': Nodes, u: nat, N: nat, B: nat, x: nat)
    requires Removable(ns, u, N, B) && Removed(ns, ns', u, N, B) && InRange(ns) && x < |ns|
    ensures x != u ==> Source(ns', x) == Source(ns, x)
    ensures Source(ns', u) == None
    ensures Source(ns', |ns|) == Source(ns, u) == Some(ns[B].kind.region)
  {
    if x != u && x != N {
      assert ns'[x].ops == ns[x].ops;
      assert forall s: Slot :: s.Some? && s.value < |ns| ==> RegionAt(ns', s) == RegionAt(ns, s);
    }
  }

  lemma EdgeKept(ns: Nodes, ns': Nodes, u: nat, N: nat, B: nat, S: nat, i: nat, r: nat)
    requires Removable(ns, u, N, B) && Removed(ns, ns', u, N, B) && InRange(ns) && EntersFrom(ns, S, i, r)
    ensures EntersFrom(ns', S, i, r) && ns'[S].kind == ns[S].kind
  {
    hide Dual, InRange, Source;
    RemovedSource(ns, ns', u, N, B, ns[S].ops[i].value);
  }

  lemma EdgeBefore(ns: Nodes, ns': Nodes, u: nat, N: nat, B: nat, S: nat, i: nat, r: nat)
    requires Removable(ns, u, N, B) && Removed(ns, ns', u, N, B) && InRange(ns) && EntersFrom(ns', S, i, r)
    ensures EntersFrom(ns, S, i, r) && ns[S].kind == ns'[S].kind
  {
    hide Dual, Source;
    if S == N {
      RemovedSource(ns, ns', u, N, B, u);
    } else {
      RemovedSource(ns, ns', u, N, B, ns[S].ops[i].value);
    }
  }

  lemma RemovedFlow(ns: Nodes, ns': Nodes, u: nat, N: nat, B: nat, g: Cfg)
    requires Removable(ns, u, N, B) && Removed(ns, ns', u, N, B) && InRange(ns) && Flow(ns, g)
    ensures Flow(ns', g)
  {
    hide Removable, Removed, InRange, EntersFrom;
    forall r: nat, s: nat ensures NodeEdge(ns', r, s) <==> NodeEdge(ns, r, s) {
      if NodeEdge(ns, r, s) {
        var S, i := EdgeInput(ns, r, s);
        EdgeKept(ns, ns', u, N, B, S, i, r);
        InputEdge(ns', S, i, r);
      }
      if NodeEdge(ns', r, s) {
        var S, i := EdgeInput(ns', r, s);
        EdgeBefore(ns, ns', u, N, B, S, i, r);
        InputEdge(ns, S, i, r);
      }
    }
  }

  // The checks of ns' are those of ns except u, and they test the same thing.
  lemma RemovedChecks(ns: Nodes, ns': Nodes, u: nat, N: nat, B: nat, c: nat, r: nat)
    requires Removable(ns, u, N, B) && Removed(ns, ns', u, N, B) && InRange(ns)
    ensures IsCheckAt(ns', c, r) <==> IsCheckAt(ns, c, r) && c != u
    ensures IsCheckAt(ns', c, r) ==> Object(ns', c) == Object(ns, c) && Bound(ns', c) == Bound(ns, c)
  {
    hide Dual, Source, InRange;
    if c < |ns| {
      RemovedSource(ns, ns', u, N, B, c);
    }
    if c < |ns| && c != u && IsCheck(ns[c].kind) {
      RemovedOperands(ns, ns', u, N, B, c);
    }
  }

  lemma RemovedOperands(ns: Nodes, ns': Nodes, u: nat, N: nat, B: nat, c: nat)
    requires Removable(ns, u, N, B) && Removed(ns, ns', u, N, B) && InRange(ns) && c < |ns| && c != u
      && IsCheck(ns[c].kind)
    ensures Object(ns', c) == Object(ns, c) && Bound(ns', c) == Bound(ns, c)
  {
    hide Dual;
    assert c != N && ns'[c].ops == ns[c].ops;
  }

  lemma RemovedKinds(ns: Nodes, ns': Nodes, u: nat, N: nat, B: nat)
    requires Removed(ns, ns', u, N, B)
    ensures |ns'| == |ns| + 1 && forall x :: 0 <= x < |ns| ==> ns'[x].kind == ns[x].kind
    ensures forall c: nat, r: nat :: IsCheckAt(ns', c, r) ==> c < |ns|
  {
  }

  lemma RemovedReduces(ns: Nodes, ns': Nodes, u: nat, N: nat, B: nat)
    requires Removable(ns, u, N, B) && Removed(ns, ns', u, N, B) && InRange(ns)
    ensures Reduced(ns, ns')
    ensures forall c: nat, r: nat :: Lost(ns, ns', c, r) ==> c == u
    ensures forall r: nat :: !IsCheckAt(ns', u, r)
  {
    RemovedKinds(ns, ns', u, N, B);
    forall c: nat, r: nat
      ensures (IsCheckAt(ns', c, r) ==> StillChecks(ns, ns', c, r)) && (IsCheckAt(ns', c, r) <==> IsCheckAt(ns, c, r) && c != u)
    {
      RemovedStill(ns, ns', u, N, B, c, r);
    }
    hide Removable, Removed, IsCheckAt, Object, Bound;
  }

  lemma RemovedStill(ns: Nodes, ns': Nodes, u: nat, N: nat, B: nat, c: nat, r: nat)
    requires Removable(ns, u, N, B) && Removed(ns, ns', u, N, B) && InRange(ns)
    ensures IsCheckAt(ns', c, r) ==> StillChecks(ns, ns', c, r)
    ensures IsCheckAt(ns', c, r) <==> IsCheckAt(ns, c, r) && c != u
  {
    hide Dual, InRange, Object, Bound, Source;
    RemovedChecks(ns, ns', u, N, B, c, r);
    assert IsCheckAt(ns', c, r) ==> c != N;
  }

  // ---------------------------------------------------------------- the graphs the pass accepts

  // A check in place: an object, for bounds a constant, and the region it ends.
  ghost predicate WfCheck(ns: Nodes, c: nat)
    requires c < |ns|
  {
    && |ns[c].ops| == (if ns[c].kind.NullCheck? then 2 else 3) && Complete(ns[c])
    && Object(ns, c) < |ns| && !ns[Object(ns, c)].kind.IsRegion()
    && (ns[c].kind.BoundsCheck? ==> BoundNode(ns, c) < |ns| && ns[BoundNode(ns, c)].kind.Constant?)
    && RegionAt(ns, ns[c].ops[|ns[c].ops| - 1]).Some?
  }

  ghost predicate WfChecks(ns: Nodes) {
    forall c :: 0 <= c < |ns| && IsCheck(ns[c].kind) ==> Vacant(ns[c]) || WfCheck(ns, c)
  }

  // Regions carry different numbers.
  ghost predicate Named(ns: Nodes) {
    forall R, S :: 0 <= R < |ns| && 0 <= S < |ns| && ns[R].kind.IsRegion() && ns[S].kind.IsRegion() && ns[R].kind.region == ns[S].kind.region ==>
      R == S
  }

  predicate IsTerminator(k: Kind) {
    k.Ret? || k.Jmp? || k.If? || k.Call? || IsCheck(k)
  }

  // t ends the region of node R.
  ghost predicate Ends(ns: Nodes, t: nat, R: nat) {
    t < |ns| && R < |ns| && ns[R].kind.IsRegion() && IsTerminator(ns[t].kind) && Some(R) in ns[t].ops
  }

  ghost predicate OneEnd(ns: Nodes) {
    forall t, t', R: nat :: Ends(ns, t, R) && Ends(ns, t', R) ==> t == t'
  }

  // Checks sit in numbered regions that list a predecessor, or in the start.
  ghost predicate Located(ns: Nodes, g: Cfg) {
    forall c: nat, r: nat :: IsCheckAt(ns, c, r) ==> g.Anchored(r)
  }

  predicate Selected(k: Kind, bounds: bool) {
    if bounds then k.BoundsCheck? else k.NullCheck?
  }

  // What makes the sweep remove u at check a: u uses the object of a, in whatever
  // role, asks for no larger a bound, and a's region is above its region in the tree.
  ghost predicate Repeats(ns: Nodes, dom: Dom, a: nat, u: nat, rA: nat, rB: nat, bounds: bool) {
    && IsCheckAt(ns, a, rA) && IsCheckAt(ns, u, rB) && a != u
    && Selected(ns[a].kind, bounds) && Selected(ns[u].kind, bounds)
    && Some(Object(ns, a)) in ns[u].ops && (bounds ==> Bound(ns, u) <= Bound(ns, a))
    && dom.Above(rA, rB)
  }

  // A check that a sweep may remove is the only input of its next region, and is one
  // user of the object: otherwise setting one slot loses edges, or the check is found
  // again after its operands are gone.
  ghost predicate Ready(ns: Nodes, dom: Dom) {
    forall a: nat, u: nat, rA: nat, rB: nat, bounds :: Repeats(ns, dom, a, u, rA, rB, bounds) ==> CanGo(ns, Object(ns, a), u)
  }

  ghost predicate CanGo(ns: Nodes, obj: nat, u: nat) {
    Uses(ns, u, obj) == 1 && exists N: nat, B: nat :: Removable(ns, u, N, B)
  }

  ghost predicate Accepted(ns: Nodes, g: Cfg, dom: Dom) {
    Dual(ns) && Flow(ns, g) && WfChecks(ns) && Named(ns) && OneEnd(ns) && Located(ns, g) && Ready(ns, dom)
  }

  // The object of one check is the bound of the check it removes: objects are not compared.
  ghost predicate Confused(ns: Nodes, dom: Dom, a: nat, u: nat, rA: nat, rB: nat) {
    Repeats(ns, dom, a, u, rA, rB, true) && Object(ns, a) == BoundNode(ns, u)
  }

  ghost predicate NoConfusion(ns: Nodes, dom: Dom) {
    forall a: nat, u: nat, rA: nat, rB: nat :: !Confused(ns, dom, a, u, rA, rB)
  }

  // The object of a check is computed in a region that dominates the check.
  ghost predicate Ssa(ns: Nodes, g: Cfg, def: nat -> nat) {
    forall c, r: nat :: IsCheckAt(ns, c, r) ==>
      Reachable(g, def(Object(ns, c))) && Dominates(g, def(Object(ns, c)), r)
  }

  lemma AcceptedDual(ns: Nodes, g: Cfg, dom: Dom)
    requires Accepted(ns, g, dom)
    ensures Dual(ns) && InRange(ns)
  {
  }

  lemma AcceptedFlow(ns: Nodes, g: Cfg, dom: Dom)
    requires Accepted(ns, g, dom)
    ensures Flow(ns, g)
  {
  }

  lemma HeldBefore(ns: Nodes, ns': Nodes, u: nat, N: nat, B: nat, c: nat, x: nat, i: nat)
    requires Removed(ns, ns', u, N, B) && c < |ns| && c != B
    requires x < |ns'| && i < |ns'[x].ops| && ns'[x].ops[i] == Some(c)
    ensures x < |ns| && x != u && x != N && i < |ns[x].ops| && ns[x].ops[i] == Some(c)
  {
    hide Dual;
  }

  lemma RemovedRemovable(ns: Nodes, ns': Nodes, u: nat, N: nat, B: nat, c: nat, N': nat, B': nat)
    requires Removable(ns, u, N, B) && Removed(ns, ns', u, N, B) && Removable(ns, c, N', B') && c != u && InRange(ns)
    ensures Removable(ns', c, N', B')
  {
    hide Dual, InRange;
    assert c != N && ns'[c].ops == ns[c].ops;
    assert N' != N && N' != u && ns'[N'].ops == ns[N'].ops;
    forall x: nat, i: nat | x < |ns'| && i < |ns'[x].ops| && ns'[x].ops[i] == Some(c) ensures x == N' {
      HeldBefore(ns, ns', u, N, B, c, x, i);
    }
  }

  lemma RemovedWfCheck(ns: Nodes, ns': Nodes, u: nat, N: nat, B: nat, c: nat)
    requires Removable(ns, u, N, B) && Removed(ns, ns', u, N, B) && InRange(ns) && c < |ns| && c != u
      && IsCheck(ns[c].kind) && WfCheck(ns, c)
    ensures WfCheck(ns', c)
  {
    hide Dual, InRange;
    assert c != N && ns'[c].ops == ns[c].ops;
    hide Removable;
  }

  lemma RemovedWf(ns: Nodes, ns': Nodes, u: nat, N: nat, B: nat)
    requires Removable(ns, u, N, B) && Removed(ns, ns', u, N, B) && InRange(ns) && WfChecks(ns)
    ensures WfChecks(ns')
  {
    hide Dual, InRange, WfCheck;
    forall c | 0 <= c < |ns'| && IsCheck(ns'[c].kind) ensures Vacant(ns'[c]) || WfCheck(ns', c) {
      if c != u {
        assert c != N && ns'[c].ops == ns[c].ops;
        if WfCheck(ns, c) {
          RemovedWfCheck(ns, ns', u, N, B, c);
        }
      }
    }
  }

  lemma RemovedNamed(ns: Nodes, ns': Nodes, u: nat, N: nat, B: nat)
    requires Removed(ns, ns', u, N, B) && Named(ns)
    ensures Named(ns')
  {
    hide Dual;
    forall R | 0 <= R < |ns'| && ns'[R].kind.IsRegion() ensures R < |ns| && ns'[R].kind == ns[R].kind {
    }
  }

  lemma RemovedEnds(ns: Nodes, ns': Nodes, u: nat, N: nat, B: nat)
    requires Removable(ns, u, N, B) && Removed(ns, ns', u, N, B) && OneEnd(ns)
    ensures OneEnd(ns')
  {
    EndsHere(ns, u, N, B);
    hide Removable, Removed, Ends;
    forall t, t', R: nat | Ends(ns', t, R) && Ends(ns', t', R) ensures t == t' {
      RemovedEnd(ns, ns', u, N, B, t, R);
      RemovedEnd(ns, ns', u, N, B, t', R);
    }
  }

  lemma EndsHere(ns: Nodes, u: nat, N: nat, B: nat)
    requires Removable(ns, u, N, B)
    ensures Ends(ns, u, B)
  {
  }

  lemma RemovedEnd(ns: Nodes, ns': Nodes, u: nat, N: nat, B: nat, t: nat, R: nat)
    requires Removable(ns, u, N, B) && Removed(ns, ns', u, N, B) && Ends(ns', t, R)
    ensures if t == |ns| then R == B else Ends(ns, t, R) && t != u
  {
    hide Dual;
    if t < |ns| && t != u && t != N {
      assert ns'[t].ops == ns[t].ops;
    }
  }

  lemma RepeatsStill(ns: Nodes, ns': Nodes, dom: Dom, a: nat, u: nat, rA: nat, rB: nat, bounds: bool)
    requires Reduced(ns, ns') && Repeats(ns', dom, a, u, rA, rB, bounds)
    ensures Repeats(ns, dom, a, u, rA, rB, bounds) && a < |ns| <= |ns'| && Object(ns', a) == Object(ns, a)
      && u < |ns| && ns'[u].ops == ns[u].ops
  {
    hide IsCheckAt, Object, Bound, Dom.Above;
    assert StillChecks(ns, ns', a, rA) && StillChecks(ns, ns', u, rB);
  }

  lemma RemovedReady(ns: Nodes, ns': Nodes, u: nat, N: nat, B: nat, dom: Dom)
    requires Removable(ns, u, N, B) && Removed(ns, ns', u, N, B) && InRange(ns) && Ready(ns, dom)
    ensures Ready(ns', dom)
  {
    RemovedReduces(ns, ns', u, N, B);
    hide Removable, Removed, IsCheckAt, Object, Bound, Reduced, InRange;
    forall a: nat, x: nat, rA: nat, rB: nat, bounds | Repeats(ns', dom, a, x, rA, rB, bounds)
      ensures CanGo(ns', Object(ns', a), x)
    {
      RepeatsStill(ns, ns', dom, a, x, rA, rB, bounds);
      assert CanGo(ns, Object(ns, a), x);
      var N': nat, B': nat :| Removable(ns, x, N', B');
      assert x != u;
      RemovedRemovable(ns, ns', u, N, B, x, N', B');
    }
  }

  lemma RemovedLocated(ns: Nodes, ns': Nodes, g: Cfg)
    requires Reduced(ns, ns') && Located(ns, g)
    ensures Located(ns', g)
  {
    hide IsCheckAt, Object, Bound;
    forall c: nat, r: nat | IsCheckAt(ns', c, r) ensures g.Anchored(r) {
      assert StillChecks(ns, ns', c, r);
    }
  }

  lemma RemovedAccepted(ns: Nodes, ns': Nodes, u: nat, N: nat, B: nat, g: Cfg, dom: Dom)
    requires Accepted(ns, g, dom) && Removable(ns, u, N, B) && Removed(ns, ns', u, N, B)
    ensures Accepted(ns', g, dom)
  {
    RemovedFlow(ns, ns', u, N, B, g);
    RemovedWf(ns, ns', u, N, B);
    RemovedReduces(ns, ns', u, N, B);
    RemovedReady(ns, ns', u, N, B, dom);
    RemovedLocated(ns, ns', g);
    RemovedNamed(ns, ns', u, N, B);
    RemovedEnds(ns, ns', u, N, B);
    hide Removable, Flow, WfChecks, Named, OneEnd, Located, Ready, Reduced;
  }

  // Two checks of one region are the same check.
  lemma OneCheck(ns: Nodes, g: Cfg, dom: Dom, c: nat, d: nat, r: nat)
    requires Accepted(ns, g, dom) && IsCheckAt(ns, c, r) && IsCheckAt(ns, d, r)
    ensures c == d
  {
    hide Flow, WfChecks, Located, Ready, Dual;
    var C, D := ns[c].ops[|ns[c].ops| - 1].value, ns[d].ops[|ns[d].ops| - 1].value;
    assert ns[C].kind.region == r && ns[D].kind.region == r;
    assert Ends(ns, c, C) && Ends(ns, d, D);
  }

  lemma AcceptedSingle(ns: Nodes, g: Cfg, dom: Dom)
    requires Accepted(ns, g, dom)
    ensures SingleChecks(ns)
  {
    hide Accepted, IsCheckAt;
    forall c: nat, d: nat, r: nat | IsCheckAt(ns, c, r) && IsCheckAt(ns, d, r) ensures c == d {
      OneCheck(ns, g, dom, c, d, r);
    }
  }

  // Some other check vouches for u at the end of p.
  ghost predicate VouchedByOther(ns: Nodes, def: nat -> nat, u: nat, p: seq<nat>) {
    exists a: nat, j: nat :: a != u && Vouches(ns, ns, def, u, p, a, j)
  }

  // Removing one check keeps all runs and failures if and only if every path to it
  // passes another check that implies it after the last computation of its object.
  lemma RemovedRunsIff(g: Cfg, def: nat -> nat, ns: Nodes, ns': Nodes, u: nat, N: nat, B: nat, rB: nat,
          dom: Dom)
    requires Accepted(ns, g, dom) && Removable(ns, u, N, B) && Removed(ns, ns', u, N, B) && IsCheckAt(ns, u, rB)
    ensures RunsAgree(g, def, ns, ns') <==>
      forall p :: PathBetween(g, p, g.start, rB) ==> VouchedByOther(ns, def, u, p)
  {
    hide Accepted, Removable, Removed, RunsAgree, Reduced, IsCheckAt, SingleChecks, Implies, InRange;
    AcceptedDual(ns, g, dom);
    AcceptedSingle(ns, g, dom);
    RemovedReduces(ns, ns', u, N, B);
    RunsAgreeIff(g, def, ns, ns');
    forall p ensures VouchedOn(ns, ns', def, u, p) <==> VouchedByOther(ns, def, u, p) {
      forall a: nat, j: nat ensures Vouches(ns, ns', def, u, p, a, j) <==> a != u && Vouches(ns, ns, def, u, p, a, j) {
        if j < |p| {
          RemovedStill(ns, ns', u, N, B, a, p[j]);
        }
      }
    }
    forall c: nat, r: nat ensures Lost(ns, ns', c, r) <==> c == u && r == rB {
      CheckRegionUnique(ns, u, rB, r);
    }
  }

  lemma CheckRegionUnique(ns: Nodes, u: nat, r: nat, r': nat)
    requires IsCheckAt(ns, u, r)
    ensures IsCheckAt(ns, u, r') <==> r == r'
  {
  }

  // ---------------------------------------------------------------- what the pass loses

  ghost predicate Repeated(ns: Nodes, dom: Dom, u: nat, q: nat) {
    exists a: nat, rA: nat, bounds :: Repeats(ns, dom, a, u, rA, q, bounds)
  }

  // The checks lost are exactly the ones that were repeated.
  ghost predicate LosesRepeated(ns: Nodes, ns': Nodes, dom: Dom) {
    forall u: nat, q: nat :: Lost(ns, ns', u, q) <==> Repeated(ns, dom, u, q)
  }

  // On p some check that is not itself repeated vouches for u.
  ghost predicate VouchedByKept(ns: Nodes, dom: Dom, def: nat -> nat, u: nat, p: seq<nat>) {
    exists a: nat, j: nat :: Vouches(ns, ns, def, u, p, a, j) && !Repeated(ns, dom, a, p[j])
  }

  // Every path to a repeated check passes, after the last computation of its object, a
  // check that implies it and is not itself repeated.
  ghost predicate KeptVouch(g: Cfg, ns: Nodes, dom: Dom, def: nat -> nat) {
    forall u: nat, q: nat, p :: Repeated(ns, dom, u, q) && PathBetween(g, p, g.start, q) ==> VouchedByKept(ns, dom, def, u, p)
  }

  lemma KeptIff(g: Cfg, def: nat -> nat, ns: Nodes, ns': Nodes, dom: Dom)
    requires Reduced(ns, ns') && LosesRepeated(ns, ns', dom)
    ensures AllVouched(g, ns, ns', def) <==> KeptVouch(g, ns, dom, def)
  {
    hide IsCheckAt, Implies, Repeated, Object;
    forall u: nat, p ensures VouchedOn(ns, ns', def, u, p) <==> VouchedByKept(ns, dom, def, u, p) {
      forall a: nat, j: nat
        ensures Vouches(ns, ns', def, u, p, a, j) <==> Vouches(ns, ns, def, u, p, a, j) && !Repeated(ns, dom, a, p[j])
      {
        if j < |p| {
          KeptCheck(ns, ns', dom, a, p[j]);
        }
      }
    }
  }

  lemma KeptCheck(ns: Nodes, ns': Nodes, dom: Dom, a: nat, r: nat)
    requires Reduced(ns, ns') && LosesRepeated(ns, ns', dom)
    ensures IsCheckAt(ns', a, r) <==> IsCheckAt(ns, a, r) && !Repeated(ns, dom, a, r)
  {
    hide IsCheckAt, Repeated, Object, Bound;
    assert IsCheckAt(ns', a, r) ==> StillChecks(ns, ns', a, r);
    assert Lost(ns, ns', a, r) <==> Repeated(ns, dom, a, r);
  }

  // Nothing is left that the pass would remove, so no check of one object is left above
  // another that is no stricter.
  lemma NothingLeft(ns: Nodes, ns': Nodes, dom: Dom, a: nat, u: nat, rA: nat, rB: nat, bounds: bool)
    requires Reduced(ns, ns') && LosesRepeated(ns, ns', dom)
    ensures !Repeats(ns', dom, a, u, rA, rB, bounds)
    ensures WfChecks(ns') ==> !Redundant(ns', dom, a, u, rA, rB, bounds)
  {
    hide Reduced, WfChecks, WfCheck, LosesRepeated;
    if Repeats(ns', dom, a, u, rA, rB, bounds) {
      RepeatsStill(ns, ns', dom, a, u, rA, rB, bounds);
      KeptCheck(ns, ns', dom, u, rB);
    }
    if WfChecks(ns') && Redundant(ns', dom, a, u, rA, rB, bounds) {
      RedundantRepeats(ns', dom, a, u, rA, rB, bounds);
    }
  }

  // u repeats a, which is above it, on the same object (with no larger a bound).
  ghost predicate Redundant(ns: Nodes, dom: Dom, a: nat, u: nat, rA: nat, rB: nat, bounds: bool) {
    && IsCheckAt(ns, a, rA) && IsCheckAt(ns, u, rB) && a != u
    && Selected(ns[a].kind, bounds) && Selected(ns[u].kind, bounds)
    && Object(ns, u) == Object(ns, a) && (bounds ==> Bound(ns, u) <= Bound(ns, a))
    && dom.Above(rA, rB)
  }

  lemma RedundantRepeats(ns: Nodes, dom: Dom, a: nat, u: nat, rA: nat, rB: nat, bounds: bool)
    requires WfChecks(ns) && Redundant(ns, dom, a, u, rA, rB, bounds)
    ensures Repeats(ns, dom, a, u, rA, rB, bounds)
  {
    hide Dom.Above;
    CheckInPlace(ns, u, rB);
    assert ns[u].ops[0] == Some(Object(ns, a));
  }

  lemma CheckInPlace(ns: Nodes, c: nat, r: nat)
    requires WfChecks(ns) && IsCheckAt(ns, c, r)
    ensures c < |ns| && WfCheck(ns, c)
  {
    assert ns[c].ops[|ns[c].ops| - 1].Some?;
  }

  // ---------------------------------------------------------------- slot by slot

  // c is nullCheck(o) at the end of region r.
  ghost predicate IsNullAt(ns: Nodes, c: nat, o: nat, r: nat) {
    && c < |ns| && ns[c].kind.NullCheck?
    && exists R: nat :: R < |ns| && ns[R].kind.IsRegion() && ns[R].kind.region == r && ns[c].ops == [Some(o), Some(R)]
  }

  // c is boundsCheck(o, m) at the end of region r: its second slot holds a constant m.
  ghost predicate IsBoundsAt(ns: Nodes, c: nat, o: nat, m: nat, r: nat) {
    && c < |ns| && ns[c].kind.BoundsCheck?
    && exists b: nat, R: nat ::
      && b < |ns| && ns[b].kind == Constant(m) && R < |ns| && ns[R].kind.IsRegion() && ns[R].kind.region == r
      && ns[c].ops == [Some(o), Some(b), Some(R)]
  }

  lemma NullShape(ns: Nodes, c: nat, o: nat, r: nat)
    requires IsNullAt(ns, c, o, r)
    ensures IsCheckAt(ns, c, r) && Object(ns, c) == o
  {
  }

  lemma BoundsShape(ns: Nodes, c: nat, o: nat, m: nat, r: nat)
    requires IsBoundsAt(ns, c, o, m, r)
    ensures IsCheckAt(ns, c, r) && Object(ns, c) == o && Bound(ns, c) == m
  {
  }

  // A check in place has one of these two forms.
  lemma CheckShape(ns: Nodes, c: nat, r: nat)
    requires WfChecks(ns) && IsCheckAt(ns, c, r)
    ensures c < |ns| && (ns[c].kind.NullCheck? ==> IsNullAt(ns, c, Object(ns, c), r))
    ensures ns[c].kind.BoundsCheck? ==> IsBoundsAt(ns, c, Object(ns, c), Bound(ns, c), r)
  {
    CheckInPlace(ns, c, r);
    hide WfChecks;
    var n := |ns[c].ops|;
    assert ns[c].ops[0].Some? && ns[c].ops[1].Some? && ns[c].ops[n - 1].Some?;
    var R := ns[c].ops[n - 1].value;
    if ns[c].kind.NullCheck? {
      assert ns[c].ops == [Some(Object(ns, c)), Some(R)];
    } else {
      assert ns[c].ops == [Some(Object(ns, c)), Some(BoundNode(ns, c)), Some(R)];
    }
  }

  // What it takes to pass.
  lemma CheckPasses(ns: Nodes, c: nat, r: nat, env: nat -> int, sem: Sem)
    ensures forall o: nat :: IsNullAt(ns, c, o, r) ==> (Passes(ns, c, env, sem) <==> sem.nonNull(env(o)))
    ensures forall o: nat, m: nat :: IsBoundsAt(ns, c, o, m, r) ==> (Passes(ns, c, env, sem) <==> sem.bounds(env(o), m))
  {
    hide IsNullAt, IsBoundsAt, IsCheckAt, Object, Bound;
    forall o: nat | IsNullAt(ns, c, o, r) ensures c < |ns| && ns[c].kind.NullCheck? && Object(ns, c) == o {
      NullShape(ns, c, o, r);
      NullKind(ns, c, o, r);
    }
    forall o: nat, m: nat | IsBoundsAt(ns, c, o, m, r)
      ensures c < |ns| && ns[c].kind.BoundsCheck? && Object(ns, c) == o && Bound(ns, c) == m
    {
      BoundsShape(ns, c, o, m, r);
      BoundsKind(ns, c, o, m, r);
    }
  }

  lemma NullKind(ns: Nodes, c: nat, o: nat, r: nat)
    requires IsNullAt(ns, c, o, r)
    ensures c < |ns| && ns[c].kind.NullCheck? && |ns[c].ops| == 2 && ns[c].ops[0] == Some(o)
  {
  }

  lemma BoundsKind(ns: Nodes, c: nat, o: nat, m: nat, r: nat)
    requires IsBoundsAt(ns, c, o, m, r)
    ensures c < |ns| && ns[c].kind.BoundsCheck? && |ns[c].ops| == 3 && ns[c].ops[0] == Some(o)
  {
  }

  // What the sweep compares, in these terms.
  lemma RepeatsBySlots(ns: Nodes, dom: Dom, a: nat, u: nat, r: nat, q: nat)
    ensures forall p: nat, k: nat, o: nat, m: nat :: IsBoundsAt(ns, a, p, k, r) && IsBoundsAt(ns, u, o, m, q) ==>
      u < |ns| && (Repeats(ns, dom, a, u, r, q, true) <==> a != u && Some(p) in ns[u].ops && m <= k && dom.Above(r, q))
    ensures forall p: nat, o: nat :: IsNullAt(ns, a, p, r) && IsNullAt(ns, u, o, q) ==>
      u < |ns| && (Repeats(ns, dom, a, u, r, q, false) <==> a != u && Some(p) in ns[u].ops && dom.Above(r, q))
  {
    hide IsNullAt, IsBoundsAt, IsCheckAt, Object, Bound, Dom.Above;
    forall p: nat, k: nat, o: nat, m: nat | IsBoundsAt(ns, a, p, k, r) && IsBoundsAt(ns, u, o, m, q)
      ensures u < |ns| && (Repeats(ns, dom, a, u, r, q, true) <==> a != u && Some(p) in ns[u].ops && m <= k && dom.Above(r, q))
    {
      BoundsShape(ns, a, p, k, r);
      BoundsKind(ns, a, p, k, r);
      BoundsShape(ns, u, o, m, q);
      BoundsKind(ns, u, o, m, q);
    }
    forall p: nat, o: nat | IsNullAt(ns, a, p, r) && IsNullAt(ns, u, o, q)
      ensures u < |ns| && (Repeats(ns, dom, a, u, r, q, false) <==> a != u && Some(p) in ns[u].ops && dom.Above(r, q))
    {
      NullShape(ns, a, p, r);
      NullKind(ns, a, p, r);
      NullShape(ns, u, o, q);
      NullKind(ns, u, o, q);
    }
  }

  // The null check u is repeated by another null check of the same object above it,
  ghost predicate NullAbove(ns: Nodes, dom: Dom, u: nat, o: nat, q: nat) {
    exists a: nat, r: nat :: a != u && IsNullAt(ns, a, o, r) && dom.Above(r, q)
  }

  // and boundsCheck(_, m) by a boundsCheck(o, k) above it where u holds o and m <= k.
  ghost predicate BoundsAbove(ns: Nodes, dom: Dom, u: nat, m: nat, q: nat) {
    exists a: nat, o: nat, k: nat, r: nat ::
      a != u && IsBoundsAt(ns, a, o, k, r) && u < |ns| && Some(o) in ns[u].ops && m <= k && dom.Above(r, q)
  }

  lemma NullRepeated(ns: Nodes, dom: Dom, u: nat, o: nat, q: nat)
    requires WfChecks(ns) && IsNullAt(ns, u, o, q)
    ensures Repeated(ns, dom, u, q) <==> NullAbove(ns, dom, u, o, q)
  {
    NullShape(ns, u, o, q);
    NullKind(ns, u, o, q);
    hide WfChecks, IsNullAt, IsCheckAt, Object, Bound, Dom.Above;
    if Repeated(ns, dom, u, q) {
      var a: nat, r: nat, bounds :| Repeats(ns, dom, a, u, r, q, bounds);
      CheckShape(ns, a, r);
      SameObject(ns, dom, a, u, r, q, o);
    }
    if NullAbove(ns, dom, u, o, q) {
      var a: nat, r: nat :| a != u && IsNullAt(ns, a, o, r) && dom.Above(r, q);
      NullShape(ns, a, o, r);
      NullKind(ns, a, o, r);
      assert ns[u].ops[0] == Some(o);
      assert Repeats(ns, dom, a, u, r, q, false);
    }
  }

  // An object is not a region, so a null check holds it in its first slot only.
  lemma SameObject(ns: Nodes, dom: Dom, a: nat, u: nat, r: nat, q: nat, o: nat)
    requires WfChecks(ns) && IsNullAt(ns, u, o, q) && Repeats(ns, dom, a, u, r, q, false)
    ensures Object(ns, a) == o
  {
    CheckInPlace(ns, a, r);
  }

  lemma BoundsRepeated(ns: Nodes, dom: Dom, u: nat, o: nat, m: nat, q: nat)
    requires WfChecks(ns) && IsBoundsAt(ns, u, o, m, q)
    ensures Repeated(ns, dom, u, q) <==> BoundsAbove(ns, dom, u, m, q)
  {
    BoundsShape(ns, u, o, m, q);
    BoundsKind(ns, u, o, m, q);
    hide WfChecks, IsBoundsAt, IsCheckAt, Object, Bound, Dom.Above;
    if Repeated(ns, dom, u, q) {
      var a: nat, r: nat, bounds :| Repeats(ns, dom, a, u, r, q, bounds);
      CheckShape(ns, a, r);
      assert IsBoundsAt(ns, a, Object(ns, a), Bound(ns, a), r);
    }
    if BoundsAbove(ns, dom, u, m, q) {
      var a: nat, p: nat, k: nat, r: nat :|
        a != u && IsBoundsAt(ns, a, p, k, r) && u < |ns| && Some(p) in ns[u].ops && m <= k && dom.Above(r, q);
      BoundsShape(ns, a, p, k, r);
      BoundsKind(ns, a, p, k, r);
      assert Repeats(ns, dom, a, u, r, q, true);
    }
  }

  // The checks lost, by what their slots hold.
  ghost predicate LosesBySlots(ns: Nodes, ns': Nodes, dom: Dom) {
    && (forall u: nat, o: nat, q: nat :: IsNullAt(ns, u, o, q) ==> (Lost(ns, ns', u, q) <==> NullAbove(ns, dom, u, o, q)))
    && (forall u: nat, o: nat, m: nat, q: nat :: IsBoundsAt(ns, u, o, m, q) ==>
      (Lost(ns, ns', u, q) <==> BoundsAbove(ns, dom, u, m, q)))
    && (forall u: nat, q: nat :: Lost(ns, ns', u, q) ==>
      (exists o: nat :: IsNullAt(ns, u, o, q)) || exists o: nat, m: nat :: IsBoundsAt(ns, u, o, m, q))
  }

  lemma LostBySlots(ns: Nodes, ns': Nodes, dom: Dom)
    requires WfChecks(ns) && LosesRepeated(ns, ns', dom)
    ensures LosesBySlots(ns, ns', dom)
  {
    hide WfChecks, IsNullAt, IsBoundsAt, IsCheckAt, Repeated, NullAbove, BoundsAbove, Object, Bound;
    forall u: nat, o: nat, q: nat | IsNullAt(ns, u, o, q) ensures Lost(ns, ns', u, q) <==> NullAbove(ns, dom, u, o, q) {
      NullRepeated(ns, dom, u, o, q);
    }
    forall u: nat, o: nat, m: nat, q: nat | IsBoundsAt(ns, u, o, m, q)
      ensures Lost(ns, ns', u, q) <==> BoundsAbove(ns, dom, u, m, q)
    {
      BoundsRepeated(ns, dom, u, o, m, q);
    }
    forall u: nat, q: nat | Lost(ns, ns', u, q)
      ensures (exists o: nat :: IsNullAt(ns, u, o, q)) || exists o: nat, m: nat :: IsBoundsAt(ns, u, o, m, q)
    {
      CheckShape(ns, u, q);
      CheckKind(ns, u, q);
    }
  }

  // ---------------------------------------------------------------- when nothing changes

  // Without confusion the sweep's reason to remove u is that a implies it.
  lemma RepeatImplies(ns: Nodes, dom: Dom, a: nat, u: nat, rA: nat, rB: nat, bounds: bool)
    requires WfChecks(ns) && NoConfusion(ns, dom) && Repeats(ns, dom, a, u, rA, rB, bounds)
    ensures Implies(ns, a, u) && ns[u].ops != [] && ns[u].ops[0] == Some(Object(ns, a))
  {
    hide Dom.Above;
    CheckInPlace(ns, a, rA);
    CheckInPlace(ns, u, rB);
    assert !Confused(ns, dom, a, u, rA, rB);
    var i :| 0 <= i < |ns[u].ops| && ns[u].ops[i] == Some(Object(ns, a));
    assert i != |ns[u].ops| - 1;
  }

  // Different regions have different numbers.
  ghost predicate OneToOne(dom: Dom) {
    forall a, b :: a in dom.num && b in dom.num && dom.num[a] == dom.num[b] ==> a == b
  }

  lemma ChecksApart(ns: Nodes, g: Cfg, dom: Dom, a: nat, u: nat, rA: nat, rB: nat, bounds: bool)
    requires Accepted(ns, g, dom) && OneToOne(dom) && Repeats(ns, dom, a, u, rA, rB, bounds)
    ensures rA != rB && rA in dom.num && rB in dom.num && dom.num[rA] < dom.num[rB]
  {
    hide Accepted, IsCheckAt, Object, Bound;
    if rA == rB {
      OneCheck(ns, g, dom, a, u, rA);
    }
    AncLeq(dom.tree, dom.num[rA], dom.num[rB]);
  }

  // What repeats a repeater repeats the check itself.
  lemma RepeatsTrans(ns: Nodes, g: Cfg, dom: Dom, b: nat, a: nat, u: nat, rX: nat, rA: nat, rB: nat, bounds: bool,
          other: bool)
    requires Accepted(ns, g, dom) && OneToOne(dom) && NoConfusion(ns, dom)
    requires Repeats(ns, dom, b, a, rX, rA, other) && Repeats(ns, dom, a, u, rA, rB, bounds)
    ensures Repeats(ns, dom, b, u, rX, rB, bounds)
  {
    ChecksApart(ns, g, dom, b, a, rX, rA, other);
    ChecksApart(ns, g, dom, a, u, rA, rB, bounds);
    AcceptedWf(ns, g, dom);
    RepeatImplies(ns, dom, b, a, rX, rA, other);
    RepeatImplies(ns, dom, a, u, rA, rB, bounds);
    AboveTrans(dom, rX, rA, rB);
    hide Accepted, Dom.Above, NoConfusion, WfChecks;
    CheckRegion(ns, b, u, rX, rB);
  }

  lemma CheckRegion(ns: Nodes, c: nat, d: nat, r: nat, r': nat)
    requires IsCheckAt(ns, c, r) && IsCheckAt(ns, d, r') && r != r'
    ensures c != d
  {
  }

  lemma AcceptedWf(ns: Nodes, g: Cfg, dom: Dom)
    requires Accepted(ns, g, dom)
    ensures WfChecks(ns) && Located(ns, g)
  {
  }

  // Above a repeated check stands one that repeats it and is not itself repeated.
  lemma {:induction false} KeptAbove(ns: Nodes, g: Cfg, dom: Dom, a: nat, u: nat, rA: nat, rB: nat, bounds: bool) returns (k: nat,
          rK: nat)
    requires Accepted(ns, g, dom) && OneToOne(dom) && NoConfusion(ns, dom) && Repeats(ns, dom, a, u, rA, rB, bounds)
    requires rA in dom.num
    ensures Repeats(ns, dom, k, u, rK, rB, bounds) && !Repeated(ns, dom, k, rK)
    decreases dom.num[rA]
  {
    hide Accepted, OneToOne, NoConfusion, Repeats;
    if Repeated(ns, dom, a, rA) {
      var b: nat, rX: nat, other :| Repeats(ns, dom, b, a, rX, rA, other);
      RepeatsTrans(ns, g, dom, b, a, u, rX, rA, rB, bounds, other);
      ChecksApart(ns, g, dom, b, a, rX, rA, other);
      k, rK := KeptAbove(ns, g, dom, b, u, rX, rB, bounds);
    } else {
      k, rK := a, rA;
    }
  }

  // A dominating check is passed on every path since the object was last computed.
  lemma Covered(g: Cfg, ns: Nodes, def: nat -> nat, u: nat, r: nat, a: nat, rA: nat, p: seq<nat>) returns (j: nat)
    requires Implies(ns, a, u) && IsCheckAt(ns, a, rA) && rA != r && PathBetween(g, p, g.start, r)
    requires Dominates(g, rA, r)
    requires var D := def(Object(ns, u)); Reachable(g, D) && Dominates(g, D, rA)
    ensures Vouches(ns, ns, def, u, p, a, j) && p[j] == rA
  {
    hide IsCheckAt, Dominates;
    var D := def(Object(ns, u));
    var k;
    k, j := PassedSince(g, p, D, rA);
    assert p[j + 1..] == p[k + 1..][j - k..];
  }

  // With a truthful tree, objects that dominate their checks, and no confusion, checks
  // that are kept vouch for all others.
  lemma NoConfusionSuffices(g: Cfg, def: nat -> nat, ns: Nodes, dom: Dom)
    requires Accepted(ns, g, dom) && OneToOne(dom) && NoConfusion(ns, dom) && Truthful(g, dom) && Ssa(ns, g, def)
    ensures KeptVouch(g, ns, dom, def)
  {
    hide Accepted, OneToOne, NoConfusion, Truthful, Ssa, Repeats, VouchedByKept;
    forall u: nat, q: nat, p | Repeated(ns, dom, u, q) && PathBetween(g, p, g.start, q)
      ensures VouchedByKept(ns, dom, def, u, p)
    {
      var a: nat, rA: nat, bounds :| Repeats(ns, dom, a, u, rA, q, bounds);
      ChecksApart(ns, g, dom, a, u, rA, q, bounds);
      var k, rK := KeptAbove(ns, g, dom, a, u, rA, q, bounds);
      KeptVouches(g, def, ns, dom, k, u, rK, q, bounds, p);
    }
  }

  lemma KeptVouches(g: Cfg, def: nat -> nat, ns: Nodes, dom: Dom, k: nat, u: nat, rK: nat, q: nat, bounds: bool,
          p: seq<nat>)
    requires Accepted(ns, g, dom) && OneToOne(dom) && NoConfusion(ns, dom) && Truthful(g, dom) && Ssa(ns, g, def)
    requires Repeats(ns, dom, k, u, rK, q, bounds) && !Repeated(ns, dom, k, rK) && PathBetween(g, p, g.start, q)
    ensures VouchedByKept(ns, dom, def, u, p)
  {
    AcceptedWf(ns, g, dom);
    ChecksApart(ns, g, dom, k, u, rK, q, bounds);
    RepeatImplies(ns, dom, k, u, rK, q, bounds);
    RepeatDominates(ns, g, dom, k, u, rK, q, bounds);
    hide Accepted, OneToOne, NoConfusion, Truthful, Dom.Above, Dominates, WfChecks, Located, Repeated;
    assert Reachable(g, def(Object(ns, k))) && Dominates(g, def(Object(ns, k)), rK);
    var j := Covered(g, ns, def, u, q, k, rK, p);
  }

  lemma RepeatDominates(ns: Nodes, g: Cfg, dom: Dom, a: nat, u: nat, rA: nat, rB: nat, bounds: bool)
    requires Located(ns, g) && Truthful(g, dom) && Repeats(ns, dom, a, u, rA, rB, bounds)
    ensures Dominates(g, rA, rB)
  {
    hide IsCheckAt, Object, Bound, Dom.Above, Dominates;
  }

  // The pass keeps all runs and failures if and only if checks that are not repeated
  // vouch for those that are: a condition on the graph before the pass.
  lemma EliminationRuns(g: Cfg, def: nat -> nat, ns: Nodes, ns': Nodes, dom: Dom)
    requires Accepted(ns, g, dom) && Reduced(ns, ns') && LosesRepeated(ns, ns', dom)
    ensures RunsAgree(g, def, ns, ns') <==> KeptVouch(g, ns, dom, def)
  {
    hide RunsAgree, Reduced, AllVouched, Accepted, LosesRepeated, KeptVouch;
    AcceptedSingle(ns, g, dom);
    RunsAgreeIff(g, def, ns, ns');
    KeptIff(g, def, ns, ns', dom);
  }

  // Under that condition, whenever a run reaches a region that lost its check, a kept check
  // that implies it has been passed before on the very value of the object.
  lemma AlreadyChecked(g: Cfg, def: nat -> nat, ns: Nodes, ns': Nodes, dom: Dom, sem: Sem, xs: seq<Config>,
          c: nat) returns (a: nat, j: nat)
    requires Reduced(ns, ns') && LosesRepeated(ns, ns', dom) && KeptVouch(g, ns, dom, def) && IsRun(g, ns', def, sem, xs)
    requires Lost(ns, ns', c, xs[|xs| - 1].region)
    ensures j < |xs| - 1 && Implies(ns, a, c) && IsCheckAt(ns', a, xs[j].region) && Passes(ns, a, xs[j].env, sem)
    ensures xs[j].env(Object(ns, c)) == xs[|xs| - 1].env(Object(ns, c))
  {
    hide IsRun, Lost, Reduced, Passes, KeptVouch, LosesRepeated;
    KeptIff(g, def, ns, ns', dom);
    RunIsPath(g, ns', def, sem, xs);
    assert VouchedOn(ns, ns', def, c, Regions(xs));
    a, j := PassedBefore(g, def, ns, ns', sem, xs, c);
  }

  // ---------------------------------------------------------------- the pass

  // Nothing repeats the check of region rA.
  ghost predicate NoneRepeats(ns: Nodes, dom: Dom, rA: nat, bounds: bool) {
    forall a: nat, u: nat, rB: nat :: !Repeats(ns, dom, a, u, rA, rB, bounds)
  }

  // Some user that is a region, if there is one: getNextRegion.
  method NextRegion(F: Graph, u: nat) returns (n: Option<nat>)
    requires Dual(F.nodes) && u < |F.nodes|
    ensures n.Some? ==> n.value in F.nodes[u].users && n.value < |F.nodes| && F.nodes[n.value].kind.Region?
    ensures n.None? ==> forall x :: x in F.nodes[u].users && x < |F.nodes| ==> !F.nodes[x].kind.Region?
  {
    var rest := F.nodes[u].users;
    while rest != multiset{}
      invariant rest <= F.nodes[u].users
      invariant forall x :: x in F.nodes[u].users && x < |F.nodes| && F.nodes[x].kind.Region? ==> x in rest
      decreases |rest|
    {
      var x :| x in rest;
      ghost var i := UserHasSlot(F.nodes, u, x);
      if F.nodes[x].kind.Region? {
        return Some(x);
      }
      rest := rest - multiset{x};
    }
    return None;
  }

  lemma NextRegionIs(ns: Nodes, u: nat, N: nat, B: nat, n: nat)
    requires Dual(ns) && Removable(ns, u, N, B) && n in ns[u].users
    ensures n == N
  {
    var i := UserHasSlot(ns, u, n);
  }

  // detach, create the jump, and give it to the next region.
  method RemoveCheck(F: Graph, u: nat, ghost N: nat, ghost B: nat)
    requires Dual(F.nodes) && Removable(F.nodes, u, N, B)
    modifies F
    ensures Removed(old(F.nodes), F.nodes, u, N, B)
  {
    ghost var ns := F.nodes;
    var beforeRegion := F.nodes[u].ops[|F.nodes[u].ops| - 1].value;
    SlotHasUser(ns, N, 0, u);
    var next := NextRegion(F, u);
    var afterRegion := next.value;
    NextRegionIs(ns, u, N, B, afterRegion);
    F.Detach(u);
    ghost var ns1 := F.nodes;
    DetachedCheck(ns, ns1, u, N, B);
    var jmp := F.Create(Jmp, Void, [Some(beforeRegion)]);
    ghost var ns2 := F.nodes;
    assert SameButUsers(ns2[N], ns1[N]);
    F.SetOperand(afterRegion, 0, Some(jmp));
    JumpInPlace(ns, ns1, ns2, F.nodes, u, N, B);
  }

  lemma DetachedCheck(ns: Nodes, ns1: Nodes, u: nat, N: nat, B: nat)
    requires Removable(ns, u, N, B) && Detached(ns, ns1, u)
    ensures |ns1| == |ns| && u != N && Vacant(ns1[u]) && |ns1[N].ops| == 1
    ensures forall x :: 0 <= x < |ns| ==> ns1[x].kind == ns[x].kind && ns1[x].ty == ns[x].ty
    ensures forall x :: 0 <= x < |ns| && x != u && x != N ==> ns1[x].ops == ns[x].ops
  {
    forall x | 0 <= x < |ns| && x != u && x != N ensures ns1[x].ops == ns[x].ops {
      assert forall i :: 0 <= i < |ns[x].ops| ==> ns[x].ops[i] != Some(u);
    }
  }

  lemma JumpInPlace(ns: Nodes, ns1: Nodes, ns2: Nodes, ns3: Nodes, u: nat, N: nat, B: nat)
    requires Removable(ns, u, N, B) && |ns1| == |ns| && u != N && Vacant(ns1[u]) && |ns1[N].ops| == 1
    requires forall x :: 0 <= x < |ns| ==> ns1[x].kind == ns[x].kind && ns1[x].ty == ns[x].ty
    requires forall x :: 0 <= x < |ns| && x != u && x != N ==> ns1[x].ops == ns[x].ops
    requires Created(ns1, ns2, Jmp, Void, [Some(B)])
    requires |ns3| == |ns2| && Dual(ns3) && ns3[N].ops == ns2[N].ops[0 := Some(|ns|)]
    requires ns3[N].kind == ns2[N].kind && ns3[N].ty == ns2[N].ty
    requires forall x :: 0 <= x < |ns2| && x != N ==> SameButUsers(ns3[x], ns2[x])
    ensures Removed(ns, ns3, u, N, B)
  {
    hide Removable, Dual;
    assert u < |ns| && N < |ns| && B < |ns| by {
      RemovableBounds(ns, u, N, B);
    }
    forall x | 0 <= x < |ns| ensures SameButUsers(ns2[x], ns1[x]) {
    }
  }

  lemma RemovableBounds(ns: Nodes, u: nat, N: nat, B: nat)
    requires Removable(ns, u, N, B)
    ensures u < |ns| && N < |ns| && B < |ns| && u != N
  {
  }

  method Terminator(F: Graph, R: nat) returns (t: Option<nat>)
    requires Dual(F.nodes) && R < |F.nodes|
    ensures t.Some? ==> t.value in F.nodes[R].users && t.value < |F.nodes| && IsTerminator(F.nodes[t.value].kind)
    ensures t.None? ==> forall u :: u in F.nodes[R].users && u < |F.nodes| ==> !IsTerminator(F.nodes[u].kind)
  {
    var rest := F.nodes[R].users;
    while rest != multiset{}
      invariant rest <= F.nodes[R].users
      invariant forall u :: u in F.nodes[R].users && u < |F.nodes| && IsTerminator(F.nodes[u].kind) ==> u in rest
      decreases |rest|
    {
      var u :| u in rest;
      ghost var i := UserHasSlot(F.nodes, R, u);
      if IsTerminator(F.nodes[u].kind) {
        return Some(u);
      }
      rest := rest - multiset{u};
    }
    return None;
  }

  // DT holds the tree dom of g.
  ghost predicate Shows(DT: DomTree, g: Cfg, dom: Dom)
    reads DT
  {
    && g.Wf() && DT.Valid() && DT.nodeToIdx == dom.num && DT.idomTree == dom.tree
    && (forall v: nat :: v in DT.nodeToIdx <==> v < |g.succs|)
    && forall v :: v in DT.nodeToIdx && g.Anchored(v) ==> DT.Hangs(v)
  }

  // A check that uses a region node has it as its last operand.
  lemma CheckOfRegion(ns: Nodes, g: Cfg, dom: Dom, R: nat, c: nat)
    requires Accepted(ns, g, dom) && R < |ns| && ns[R].kind.IsRegion()
    requires c in ns[R].users && c < |ns| && IsCheck(ns[c].kind)
    ensures WfCheck(ns, c) && IsCheckAt(ns, c, ns[R].kind.region)
  {
    var i := UserHasSlot(ns, R, c);
    assert ns[c].ops[i] == Some(R);
    hide Flow, Named, OneEnd, Located, Ready;
    assert WfCheck(ns, c);
    assert i == |ns[c].ops| - 1;
  }

  // What is left of the users of an object: the checks among them are in place and
  // come up no more often than they hold the object.
  ghost predicate Candidates(ns: Nodes, rest: multiset<nat>, obj: nat, bounds: bool) {
    forall u :: u in rest && u < |ns| && Selected(ns[u].kind, bounds) ==>
      rest[u] <= Uses(ns, u, obj) && WfCheck(ns, u)
  }

  lemma UsersAreCandidates(ns: Nodes, g: Cfg, dom: Dom, obj: nat, bounds: bool)
    requires Accepted(ns, g, dom) && obj < |ns|
    ensures Candidates(ns, ns[obj].users, obj, bounds)
  {
    hide Flow, Named, OneEnd, Located, Ready;
    forall u | u in ns[obj].users && u < |ns| && Selected(ns[u].kind, bounds)
      ensures ns[obj].users[u] <= Uses(ns, u, obj) && WfCheck(ns, u)
    {
      var i := UserHasSlot(ns, obj, u);
    }
  }

  // Removing u leaves the other candidates in place.
  lemma CandidatesLeft(ns: Nodes, ns': Nodes, u: nat, N: nat, B: nat, rest: multiset<nat>, obj: nat, bounds: bool)
    requires Removable(ns, u, N, B) && Removed(ns, ns', u, N, B) && InRange(ns)
    requires Candidates(ns, rest, obj, bounds) && u !in rest && forall x :: x in rest ==> x < |ns|
    ensures Candidates(ns', rest, obj, bounds)
  {
    hide WfCheck, InRange, Dual;
    forall x | x in rest && x < |ns'| && Selected(ns'[x].kind, bounds)
      ensures rest[x] <= Uses(ns', x, obj) && WfCheck(ns', x)
    {
      assert x != u && x != N && ns'[x].ops == ns[x].ops;
      RemovedWfCheck(ns, ns', u, N, B, x);
    }
  }

  // The check of region r is what repeats u.
  ghost predicate RepeatedAt(ns: Nodes, dom: Dom, r: nat, u: nat, q: nat, bounds: bool) {
    exists a: nat :: Repeats(ns, dom, a, u, r, q, bounds)
  }

  // The check that ends region R removes exactly the checks that repeat it.
  method EliminateAt(F: Graph, R: nat, bounds: bool, DT: DomTree, ghost g: Cfg, ghost dom: Dom)
    requires Accepted(F.nodes, g, dom) && Shows(DT, g, dom)
    requires R < |F.nodes| && F.nodes[R].kind.IsRegion() && F.nodes[R].kind.region < |g.succs|
    modifies F
    ensures Accepted(F.nodes, g, dom) && Reduced(old(F.nodes), F.nodes)
    ensures forall u: nat, q: nat ::
      Lost(old(F.nodes), F.nodes, u, q) <==> RepeatedAt(old(F.nodes), dom, old(F.nodes)[R].kind.region, u, q, bounds)
  {
    hide Accepted, WfCheck, IsCheckAt, Candidates, Reduced, NoneRepeats, Repeats, Lost, RepeatedAt;
    ghost var start := F.nodes;
    AcceptedDual(F.nodes, g, dom);
    ReducedRefl(F.nodes);
    var term := Terminator(F, R);
    if term.Some? && Selected(F.nodes[term.value].kind, bounds) {
      var cn := term.value;
      CheckOfRegion(F.nodes, g, dom, R, cn);
      CheckParts(F.nodes, cn);
      EliminateUsers(F, cn, F.nodes[R].kind.region, bounds, DT, g, dom);
      OnlyThisCheck(start, g, dom, cn, start[R].kind.region, bounds);
    } else {
      NoCheckHere(F.nodes, g, dom, R, term, bounds);
      NothingLost(F.nodes, dom, start[R].kind.region, bounds);
    }
  }

  lemma OnlyThisCheck(ns: Nodes, g: Cfg, dom: Dom, cn: nat, r: nat, bounds: bool)
    requires Accepted(ns, g, dom) && IsCheckAt(ns, cn, r)
    ensures forall u: nat, q: nat :: RepeatedAt(ns, dom, r, u, q, bounds) <==> Repeats(ns, dom, cn, u, r, q, bounds)
  {
    hide Accepted, IsCheckAt, Object, Bound;
    forall u: nat, q: nat | RepeatedAt(ns, dom, r, u, q, bounds) ensures Repeats(ns, dom, cn, u, r, q, bounds) {
      var a: nat :| Repeats(ns, dom, a, u, r, q, bounds);
      OneCheck(ns, g, dom, a, cn, r);
    }
  }

  lemma NothingLost(ns: Nodes, dom: Dom, r: nat, bounds: bool)
    requires NoneRepeats(ns, dom, r, bounds)
    ensures forall u: nat, q: nat :: !Lost(ns, ns, u, q) && !RepeatedAt(ns, dom, r, u, q, bounds)
  {
    hide Repeats;
  }

  lemma TerminatorIsCheck(ns: Nodes, g: Cfg, dom: Dom, R: nat, term: Option<nat>, a: nat)
    requires Accepted(ns, g, dom) && R < |ns| && ns[R].kind.IsRegion() && IsCheckAt(ns, a, ns[R].kind.region)
    requires term.Some? ==> term.value in ns[R].users && term.value < |ns| && IsTerminator(ns[term.value].kind)
    requires term.None? ==> forall u :: u in ns[R].users && u < |ns| ==> !IsTerminator(ns[u].kind)
    ensures term == Some(a)
  {
    hide Flow, WfChecks, Located, Ready;
    var k := |ns[a].ops| - 1;
    assert ns[a].ops[k] == Some(R);
    SlotHasUser(ns, a, k, R);
    assert Ends(ns, a, R);
    var i := UserHasSlot(ns, R, term.value);
    assert ns[term.value].ops[i] == Some(R);
    assert Ends(ns, term.value, R);
  }

  lemma NoCheckHere(ns: Nodes, g: Cfg, dom: Dom, R: nat, term: Option<nat>, bounds: bool)
    requires Accepted(ns, g, dom) && R < |ns| && ns[R].kind.IsRegion()
    requires term.Some? ==> term.value in ns[R].users && term.value < |ns| && IsTerminator(ns[term.value].kind)
    requires term.None? ==> forall u :: u in ns[R].users && u < |ns| ==> !IsTerminator(ns[u].kind)
    requires term.None? || !Selected(ns[term.value].kind, bounds)
    ensures NoneRepeats(ns, dom, ns[R].kind.region, bounds)
  {
    hide Accepted, Dom.Above, IsCheckAt, Object, Bound;
    forall a: nat, u: nat, rB: nat ensures !Repeats(ns, dom, a, u, ns[R].kind.region, rB, bounds) {
      if IsCheckAt(ns, a, ns[R].kind.region) {
        TerminatorIsCheck(ns, g, dom, R, term, a);
      }
    }
  }

  method EliminateUsers(F: Graph, cn: nat, r: nat, bounds: bool, DT: DomTree, ghost g: Cfg, ghost dom: Dom)
    requires Accepted(F.nodes, g, dom) && Shows(DT, g, dom) && r < |g.succs|
    requires cn < |F.nodes| && IsCheckAt(F.nodes, cn, r) && Selected(F.nodes[cn].kind, bounds)
    requires |F.nodes[cn].ops| >= 1 && F.nodes[cn].ops[0].Some? && Object(F.nodes, cn) < |F.nodes|
    modifies F
    ensures Accepted(F.nodes, g, dom) && Reduced(old(F.nodes), F.nodes)
    ensures forall u: nat, q: nat :: Lost(old(F.nodes), F.nodes, u, q) <==> Repeats(old(F.nodes), dom, cn, u, r, q, bounds)
  {
    hide Accepted, IsCheckAt, Candidates, Reduced, Repeats, Bound, Lost;
    var obj, curBound := Object(F.nodes, cn), Bound(F.nodes, cn);
    var rest := F.nodes[obj].users;
    ghost var start := F.nodes;
    AcceptedDual(F.nodes, g, dom);
    UsersBelow(F.nodes, obj);
    UsersAreCandidates(F.nodes, g, dom, obj, bounds);
    ReducedRefl(F.nodes);
    AllListed(F.nodes, dom, cn, r, bounds);
    NoneLost(F.nodes);
    while rest != multiset{}
      invariant Loop(F.nodes, g, dom, start, cn, r, obj, curBound, bounds, rest)
      decreases |rest|
    {
      var u :| u in rest;
      if u != cn && Selected(F.nodes[u].kind, bounds) {
        ghost var cur := F.nodes;
        TryRemove(F, cn, u, r, curBound, bounds, DT, g, dom, rest, obj);
        LoopRemove(cur, F.nodes, g, dom, start, cn, u, r, obj, curBound, bounds, rest);
      } else {
        LoopSkip(F.nodes, g, dom, start, cn, u, r, obj, curBound, bounds, rest);
      }
      rest := rest - multiset{u};
    }
    LoopDone(F.nodes, g, dom, start, cn, r, obj, curBound, bounds);
  }

  lemma NoneLost(ns: Nodes)
    ensures forall u: nat, q: nat :: !Lost(ns, ns, u, q)
  {
  }

  // The loop over the users of the object: only what repeated cn is lost, and what still
  // repeats cn is in rest.
  ghost predicate Loop(cur: Nodes, g: Cfg, dom: Dom, start: Nodes, cn: nat, r: nat, obj: nat, curBound: nat,
          bounds: bool, rest: multiset<nat>) {
    && Accepted(cur, g, dom) && Reduced(start, cur)
    && (forall u: nat, q: nat :: Lost(start, cur, u, q) ==> Repeats(start, dom, cn, u, r, q, bounds))
    && IsCheckAt(cur, cn, r) && cn < |cur| && Object(cur, cn) == obj && Bound(cur, cn) == curBound && Selected(cur[cn].kind, bounds)
    && Candidates(cur, rest, obj, bounds)
    && (forall x :: x in rest ==> x < |cur|)
    && forall u: nat, rB: nat :: Repeats(cur, dom, cn, u, r, rB, bounds) ==> u in rest
  }

  lemma AllListed(ns: Nodes, dom: Dom, cn: nat, r: nat, bounds: bool)
    requires Dual(ns) && IsCheckAt(ns, cn, r) && Object(ns, cn) < |ns|
    ensures forall u: nat, rB: nat :: Repeats(ns, dom, cn, u, r, rB, bounds) ==> u in ns[Object(ns, cn)].users
  {
    hide Dom.Above;
    forall u: nat, rB: nat | Repeats(ns, dom, cn, u, r, rB, bounds) ensures u in ns[Object(ns, cn)].users {
      var i :| 0 <= i < |ns[u].ops| && ns[u].ops[i] == Some(Object(ns, cn));
      SlotHasUser(ns, u, i, Object(ns, cn));
    }
  }

  lemma LoopSkip(cur: Nodes, g: Cfg, dom: Dom, start: Nodes, cn: nat, u: nat, r: nat, obj: nat, curBound: nat,
          bounds: bool, rest: multiset<nat>)
    requires Loop(cur, g, dom, start, cn, r, obj, curBound, bounds, rest) && u in rest
    requires u == cn || (u < |cur| && !Selected(cur[u].kind, bounds))
    ensures Loop(cur, g, dom, start, cn, r, obj, curBound, bounds, rest - multiset{u})
  {
    hide Accepted, Reduced, IsCheckAt, Dom.Above, Candidates, Lost;
    CandidatesShrink(cur, rest, u, obj, bounds);
    forall x: nat, rB: nat | Repeats(cur, dom, cn, x, r, rB, bounds) ensures x in rest - multiset{u} {
      assert x in rest && x != u;
    }
  }

  lemma LoopRemove(cur: Nodes, cur': Nodes, g: Cfg, dom: Dom, start: Nodes, cn: nat, u: nat, r: nat, obj: nat,
          curBound: nat, bounds: bool, rest: multiset<nat>)
    requires Loop(cur, g, dom, start, cn, r, obj, curBound, bounds, rest) && u in rest
    requires Accepted(cur', g, dom) && Reduced(cur, cur')
    requires forall x: nat, q: nat :: Lost(cur, cur', x, q) ==> Repeats(cur, dom, cn, x, r, q, bounds)
    requires IsCheckAt(cur', cn, r) && Object(cur', cn) == obj && Bound(cur', cn) == curBound
    requires Candidates(cur', rest - multiset{u}, obj, bounds)
    requires forall rB: nat :: !Repeats(cur', dom, cn, u, r, rB, bounds)
    ensures Loop(cur', g, dom, start, cn, r, obj, curBound, bounds, rest - multiset{u})
  {
    hide Accepted, IsCheckAt, Repeats, Candidates, Object, Bound, Reduced;
    ReducedTrans(start, cur, cur');
    ReducedKinds(cur, cur');
    forall x: nat, q: nat | Lost(start, cur', x, q) ensures Repeats(start, dom, cn, x, r, q, bounds) {
      if !Lost(start, cur, x, q) {
        assert Lost(cur, cur', x, q);
        RepeatsStill(start, cur, dom, cn, x, r, q, bounds);
      }
    }
    forall x: nat, rB: nat | Repeats(cur', dom, cn, x, r, rB, bounds) ensures x in rest - multiset{u} {
      RepeatsStill(cur, cur', dom, cn, x, r, rB, bounds);
      assert x != u;
    }
  }

  lemma LoopDone(cur: Nodes, g: Cfg, dom: Dom, start: Nodes, cn: nat, r: nat, obj: nat, curBound: nat, bounds: bool)
    requires Loop(cur, g, dom, start, cn, r, obj, curBound, bounds, multiset{})
    ensures Accepted(cur, g, dom) && Reduced(start, cur)
    ensures forall u: nat, q: nat :: Lost(start, cur, u, q) <==> Repeats(start, dom, cn, u, r, q, bounds)
  {
    hide Accepted, Reduced, IsCheckAt, Repeats, Candidates, Object, Bound;
    forall u: nat, q: nat | Repeats(start, dom, cn, u, r, q, bounds) ensures Lost(start, cur, u, q) {
      if !Lost(start, cur, u, q) {
        RepeatsAfter(start, cur, dom, cn, u, r, q, bounds);
      }
    }
  }

  // A repeat whose two checks are left is a repeat still.
  lemma RepeatsAfter(ns: Nodes, ns': Nodes, dom: Dom, a: nat, u: nat, rA: nat, rB: nat, bounds: bool)
    requires Reduced(ns, ns') && Repeats(ns, dom, a, u, rA, rB, bounds) && IsCheckAt(ns', a, rA) && !Lost(ns, ns', u, rB)
    ensures Repeats(ns', dom, a, u, rA, rB, bounds)
  {
    hide IsCheckAt, Object, Bound, Dom.Above;
    assert StillChecks(ns, ns', a, rA) && StillChecks(ns, ns', u, rB);
  }

  lemma CandidatesShrink(ns: Nodes, rest: multiset<nat>, u: nat, obj: nat, bounds: bool)
    requires Candidates(ns, rest, obj, bounds) && u in rest
    ensures Candidates(ns, rest - multiset{u}, obj, bounds)
  {
    forall x | x in rest - multiset{u} && x < |ns| && Selected(ns[x].kind, bounds)
      ensures (rest - multiset{u})[x] <= Uses(ns, x, obj) && WfCheck(ns, x)
    {
      assert x in rest;
    }
  }

  lemma UsersBelow(ns: Nodes, n: nat)
    requires Dual(ns) && n < |ns|
    ensures forall u :: u in ns[n].users ==> u < |ns|
  {
    forall u | u in ns[n].users ensures u < |ns| {
      var i := UserHasSlot(ns, n, u);
    }
  }

  // The last operand of c is the region it ends.
  ghost predicate EndsRegion(ns: Nodes, c: nat)
    requires c < |ns| && ns[c].ops != []
  {
    var s := ns[c].ops[|ns[c].ops| - 1];
    s.Some? && s.value < |ns| && ns[s.value].kind.IsRegion() && IsCheckAt(ns, c, ns[s.value].kind.region)
  }

  lemma CheckParts(ns: Nodes, c: nat)
    requires c < |ns| && WfCheck(ns, c) && IsCheck(ns[c].kind)
    ensures |ns[c].ops| >= 2 && ns[c].ops[0].Some? && Object(ns, c) == ns[c].ops[0].value < |ns|
    ensures EndsRegion(ns, c)
  {
  }

  // Removes u exactly when it repeats cn.
  method TryRemove(F: Graph, cn: nat, u: nat, r: nat, curBound: nat, bounds: bool, DT: DomTree,
                   ghost g: Cfg, ghost dom: Dom, ghost rest: multiset<nat>, ghost obj: nat)
    requires Accepted(F.nodes, g, dom) && Shows(DT, g, dom) && r < |g.succs|
    requires IsCheckAt(F.nodes, cn, r) && Object(F.nodes, cn) == obj && Bound(F.nodes, cn) == curBound
    requires Selected(F.nodes[cn].kind, bounds) && u != cn && u < |F.nodes| && Selected(F.nodes[u].kind, bounds)
    requires Candidates(F.nodes, rest, obj, bounds) && u in rest && forall x :: x in rest ==> x < |F.nodes|
    modifies F
    ensures Accepted(F.nodes, g, dom) && Reduced(old(F.nodes), F.nodes)
    ensures forall x: nat, q: nat :: Lost(old(F.nodes), F.nodes, x, q) <==> x == u && Repeats(old(F.nodes), dom, cn, u, r, q, bounds)
    ensures IsCheckAt(F.nodes, cn, r) && Object(F.nodes, cn) == obj && Bound(F.nodes, cn) == curBound
    ensures Candidates(F.nodes, rest - multiset{u}, obj, bounds)
    ensures if exists rB: nat :: Repeats(old(F.nodes), dom, cn, u, r, rB, bounds)
            then exists N: nat, B: nat :: Removable(old(F.nodes), u, N, B) && Removed(old(F.nodes), F.nodes, u, N, B)
            else F.nodes == old(F.nodes)
    ensures forall rB: nat :: !Repeats(F.nodes, dom, cn, u, r, rB, bounds)
    ensures bounds ==> LostToBound(old(F.nodes), F.nodes, dom, cn, u, r)
  {
    hide Accepted, WfCheck, Candidates, Removable, Removed, IsCheckAt, Object, Bound, Uses, Reduced, LostToBound;
    ghost var cur := F.nodes;
    CandidateParts(cur, rest, u, obj, bounds);
    CandidatesShrink(cur, rest, u, obj, bounds);
    ReducedRefl(cur);
    var beforeRegion := F.nodes[u].ops[|F.nodes[u].ops| - 1].value;
    var rB := F.nodes[beforeRegion].kind.region;
    CheckLocated(cur, g, dom, u, rB);
    OnlyRegion(cur, u, rB);
    if bounds && Bound(F.nodes, u) > curBound {
      NoneLost(cur);
      LostByBound(cur, F.nodes, dom, cn, u, r);
      return;
    }
    var dominates := DT.Dominates(r, rB);
    if dominates {
      assert Repeats(cur, dom, cn, u, r, rB, bounds);
      RemoveRepeat(F, cn, u, r, rB, bounds, g, dom, rest, obj);
    }
    if bounds {
      LostByBound(cur, F.nodes, dom, cn, u, r);
    }
  }

  // boundsCheck(_, m) in the position u is lost to boundsCheck(p, k) in the position a
  // when it holds p, m <= k, and its region lies below.
  ghost predicate LostToBound(ns: Nodes, ns': Nodes, dom: Dom, a: nat, u: nat, r: nat) {
    forall p: nat, k: nat, o: nat, m: nat, q: nat :: IsBoundsAt(ns, a, p, k, r) && IsBoundsAt(ns, u, o, m, q) ==>
      u < |ns| && (Lost(ns, ns', u, q) <==> Some(p) in ns[u].ops && m <= k && dom.Above(r, q))
  }

  lemma LostByBound(ns: Nodes, ns': Nodes, dom: Dom, a: nat, u: nat, r: nat)
    requires a != u && forall q: nat :: Lost(ns, ns', u, q) <==> Repeats(ns, dom, a, u, r, q, true)
    ensures LostToBound(ns, ns', dom, a, u, r)
  {
    hide IsBoundsAt, Repeats, Lost, Dom.Above;
    RepeatsAllBySlots(ns, dom, a, u, r);
  }

  lemma RepeatsAllBySlots(ns: Nodes, dom: Dom, a: nat, u: nat, r: nat)
    ensures forall p: nat, k: nat, o: nat, m: nat, q: nat :: IsBoundsAt(ns, a, p, k, r) && IsBoundsAt(ns, u, o, m, q) ==>
      u < |ns| && (Repeats(ns, dom, a, u, r, q, true) <==> a != u && Some(p) in ns[u].ops && m <= k && dom.Above(r, q))
  {
    hide IsBoundsAt, Repeats, Dom.Above;
    forall p: nat, k: nat, o: nat, m: nat, q: nat | IsBoundsAt(ns, a, p, k, r) && IsBoundsAt(ns, u, o, m, q)
      ensures u < |ns| && (Repeats(ns, dom, a, u, r, q, true) <==> a != u && Some(p) in ns[u].ops && m <= k && dom.Above(r, q))
    {
      RepeatsBySlots(ns, dom, a, u, r, q);
    }
  }

  lemma OnlyRegion(ns: Nodes, u: nat, r: nat)
    requires IsCheckAt(ns, u, r)
    ensures forall q: nat :: IsCheckAt(ns, u, q) <==> q == r
  {
  }

  lemma CheckLocated(ns: Nodes, g: Cfg, dom: Dom, u: nat, r: nat)
    requires Accepted(ns, g, dom) && IsCheckAt(ns, u, r)
    ensures g.Anchored(r)
  {
    hide Dual, Flow, WfChecks, Named, OneEnd, Ready, IsCheckAt;
  }

  method RemoveRepeat(F: Graph, cn: nat, u: nat, r: nat, rB: nat, bounds: bool,
                      ghost g: Cfg, ghost dom: Dom, ghost rest: multiset<nat>, ghost obj: nat)
    requires Accepted(F.nodes, g, dom) && Repeats(F.nodes, dom, cn, u, r, rB, bounds) && Object(F.nodes, cn) == obj
    requires Candidates(F.nodes, rest, obj, bounds) && u in rest && forall x :: x in rest ==> x < |F.nodes|
    modifies F
    ensures Accepted(F.nodes, g, dom) && Reduced(old(F.nodes), F.nodes)
    ensures forall x: nat, q: nat :: Lost(old(F.nodes), F.nodes, x, q) <==> x == u && q == rB
    ensures IsCheckAt(F.nodes, cn, r) && Object(F.nodes, cn) == obj && Bound(F.nodes, cn) == Bound(old(F.nodes), cn)
    ensures Candidates(F.nodes, rest - multiset{u}, obj, bounds)
    ensures exists N: nat, B: nat :: Removable(old(F.nodes), u, N, B) && Removed(old(F.nodes), F.nodes, u, N, B)
    ensures forall q: nat :: !IsCheckAt(F.nodes, u, q)
  {
    hide Accepted, Candidates, Removable, Removed, IsCheckAt, Object, Bound, Dom.Above, Uses, Reduced;
    ghost var cur := F.nodes;
    RepeatOnce(cur, g, dom, cn, u, r, rB, bounds, rest);
    ghost var N: nat, B: nat :| Removable(cur, u, N, B);
    AcceptedDual(cur, g, dom);
    RemoveCheck(F, u, N, B);
    RemovedAccepted(cur, F.nodes, u, N, B, g, dom);
    RemovedReduces(cur, F.nodes, u, N, B);
    OnlyRegion(cur, u, rB);
    CandidatesShrink(cur, rest, u, obj, bounds);
    AfterRemoval(cur, F.nodes, u, N, B, cn, r, rest - multiset{u}, obj, bounds);
  }

  // A repeat comes up once, so it is not found again.
  lemma RepeatOnce(ns: Nodes, g: Cfg, dom: Dom, cn: nat, u: nat, r: nat, rB: nat, bounds: bool, rest: multiset<nat>)
    requires Accepted(ns, g, dom) && Repeats(ns, dom, cn, u, r, rB, bounds)
    requires Candidates(ns, rest, Object(ns, cn), bounds) && u in rest
    ensures u !in rest - multiset{u} && exists N: nat, B: nat :: Removable(ns, u, N, B)
  {
    hide Dual, Flow, WfChecks, Named, OneEnd, Located, Dom.Above, Removable, WfCheck, Uses;
    assert CanGo(ns, Object(ns, cn), u);
  }

  lemma CandidateParts(ns: Nodes, rest: multiset<nat>, u: nat, obj: nat, bounds: bool)
    requires Candidates(ns, rest, obj, bounds) && u in rest && u < |ns| && Selected(ns[u].kind, bounds)
    ensures WfCheck(ns, u) && Some(obj) in ns[u].ops
    ensures |ns[u].ops| >= 2 && EndsRegion(ns, u)
  {
    CheckParts(ns, u);
    assert Some(obj) in multiset(ns[u].ops);
  }

  lemma AfterRemoval(ns: Nodes, ns': Nodes, u: nat, N: nat, B: nat, cn: nat, r: nat, rest: multiset<nat>, obj: nat,
          bounds: bool)
    requires Removable(ns, u, N, B) && Removed(ns, ns', u, N, B) && InRange(ns)
    requires IsCheckAt(ns, cn, r) && cn != u
    requires Candidates(ns, rest, obj, bounds) && u !in rest && forall x :: x in rest ==> x < |ns|
    ensures IsCheckAt(ns', cn, r) && Object(ns', cn) == Object(ns, cn) && Bound(ns', cn) == Bound(ns, cn)
    ensures Candidates(ns', rest, obj, bounds)
    ensures forall q: nat :: !IsCheckAt(ns', u, q)
  {
    hide Candidates, IsCheckAt, Object, Bound, Removable, Removed;
    ChecksBelow(ns);
    RemovedChecks(ns, ns', u, N, B, cn, r);
    CandidatesLeft(ns, ns', u, N, B, rest, obj, bounds);
    RemovedReduces(ns, ns', u, N, B);
  }

  // at[r] is the node of region r.
  ghost predicate RegionNodes(ns: Nodes, g: Cfg, at: seq<nat>) {
    && |at| == |g.succs|
    && forall r :: 0 <= r < |at| ==> at[r] < |ns| && ns[at[r]].kind.IsRegion() && ns[at[r]].kind.region == r
  }

  // The check of one of the regions rs repeats u.
  ghost predicate RepeatedBy(ns: Nodes, dom: Dom, rs: seq<nat>, u: nat, q: nat, bounds: bool) {
    exists rA: nat :: rA in rs && RepeatedAt(ns, dom, rA, u, q, bounds)
  }

  // One sweep over the regions, null checks or bounds checks, loses exactly the checks
  // that were repeated by the check of a region in the list.
  method Sweep(F: Graph, rpo: seq<nat>, at: seq<nat>, bounds: bool, DT: DomTree, ghost g: Cfg, ghost dom: Dom)
    requires Accepted(F.nodes, g, dom) && Shows(DT, g, dom) && RegionNodes(F.nodes, g, at)
    requires InnerFirst(dom, rpo) && forall r :: r in rpo ==> r < |g.succs|
    modifies F
    ensures Accepted(F.nodes, g, dom) && Reduced(old(F.nodes), F.nodes) && RegionNodes(F.nodes, g, at)
    ensures forall u: nat, q: nat :: Lost(old(F.nodes), F.nodes, u, q) <==> RepeatedBy(old(F.nodes), dom, rpo, u, q, bounds)
  {
    hide Accepted, Reduced, Lost, RepeatedBy, RepeatedAt, InnerFirst;
    ghost var start := F.nodes;
    ReducedRefl(start);
    NoneLost(start);
    NoneListed(start, dom, bounds);
    assert rpo[..0] == [];
    for k := 0 to |rpo|
      invariant Accepted(F.nodes, g, dom) && Reduced(start, F.nodes) && RegionNodes(F.nodes, g, at)
      invariant forall u: nat, q: nat :: Lost(start, F.nodes, u, q) <==> RepeatedBy(start, dom, rpo[..k], u, q, bounds)
    {
      ghost var cur := F.nodes;
      assert rpo[k] in rpo;
      EliminateAt(F, at[rpo[k]], bounds, DT, g, dom);
      ReducedKinds(cur, F.nodes);
      ReducedTrans(start, cur, F.nodes);
      SweepNext(start, cur, F.nodes, dom, rpo, k, bounds);
    }
    assert rpo[..|rpo|] == rpo;
  }

  lemma NoneListed(ns: Nodes, dom: Dom, bounds: bool)
    ensures forall u: nat, q: nat :: !RepeatedBy(ns, dom, [], u, q, bounds)
  {
  }

  // What the next region takes away is what repeated its check from the beginning: if
  // that check were gone, a region above would have come up before, and with it this one.
  lemma SweepNext(start: Nodes, cur: Nodes, cur': Nodes, dom: Dom, rpo: seq<nat>, k: nat, bounds: bool)
    requires k < |rpo| && InnerFirst(dom, rpo) && Reduced(start, cur) && Reduced(cur, cur')
    requires forall u: nat, q: nat :: Lost(start, cur, u, q) <==> RepeatedBy(start, dom, rpo[..k], u, q, bounds)
    requires forall u: nat, q: nat :: Lost(cur, cur', u, q) <==> RepeatedAt(cur, dom, rpo[k], u, q, bounds)
    ensures forall u: nat, q: nat :: Lost(start, cur', u, q) <==> RepeatedBy(start, dom, rpo[..k + 1], u, q, bounds)
  {
    hide Reduced, InnerFirst, RepeatedBy, RepeatedAt, Lost;
    forall u: nat, q: nat ensures Lost(start, cur', u, q) <==> RepeatedBy(start, dom, rpo[..k + 1], u, q, bounds) {
      LostNext(start, cur, cur', u, q);
      RepeatedByNext(start, dom, rpo, k, u, q, bounds);
      if RepeatedAt(cur, dom, rpo[k], u, q, bounds) {
        RepeatedEarlier(start, cur, dom, rpo[k], u, q, bounds);
      }
      if RepeatedAt(start, dom, rpo[k], u, q, bounds) && !RepeatedBy(start, dom, rpo[..k], u, q, bounds) {
        RepeatedNow(start, cur, dom, rpo, k, u, q, bounds);
      }
    }
  }

  lemma LostNext(a: Nodes, b: Nodes, c: Nodes, u: nat, q: nat)
    requires Reduced(a, b) && Reduced(b, c)
    ensures Lost(a, c, u, q) <==> Lost(a, b, u, q) || Lost(b, c, u, q)
  {
    hide IsCheckAt, Object, Bound;
    assert IsCheckAt(b, u, q) ==> StillChecks(a, b, u, q);
    assert IsCheckAt(c, u, q) ==> StillChecks(b, c, u, q);
  }

  lemma RepeatedByNext(ns: Nodes, dom: Dom, rpo: seq<nat>, k: nat, u: nat, q: nat, bounds: bool)
    requires k < |rpo|
    ensures RepeatedBy(ns, dom, rpo[..k + 1], u, q, bounds) <==>
      RepeatedBy(ns, dom, rpo[..k], u, q, bounds) || RepeatedAt(ns, dom, rpo[k], u, q, bounds)
  {
    hide RepeatedAt;
    assert rpo[..k + 1] == rpo[..k] + [rpo[k]];
    assert rpo[k] in rpo[..k + 1];
    if RepeatedBy(ns, dom, rpo[..k], u, q, bounds) {
      var rA: nat :| rA in rpo[..k] && RepeatedAt(ns, dom, rA, u, q, bounds);
      assert rA in rpo[..k + 1];
    }
  }

  lemma RepeatedEarlier(start: Nodes, cur: Nodes, dom: Dom, r: nat, u: nat, q: nat, bounds: bool)
    requires Reduced(start, cur) && RepeatedAt(cur, dom, r, u, q, bounds)
    ensures RepeatedAt(start, dom, r, u, q, bounds)
  {
    hide Reduced, Repeats;
    var a: nat :| Repeats(cur, dom, a, u, r, q, bounds);
    RepeatsStill(start, cur, dom, a, u, r, q, bounds);
  }

  lemma RepeatedNow(start: Nodes, cur: Nodes, dom: Dom, rpo: seq<nat>, k: nat, u: nat, q: nat, bounds: bool)
    requires k < |rpo| && InnerFirst(dom, rpo) && Reduced(start, cur)
    requires forall x: nat, y: nat :: Lost(start, cur, x, y) <==> RepeatedBy(start, dom, rpo[..k], x, y, bounds)
    requires RepeatedAt(start, dom, rpo[k], u, q, bounds) && !RepeatedBy(start, dom, rpo[..k], u, q, bounds)
    ensures RepeatedAt(cur, dom, rpo[k], u, q, bounds)
  {
    hide Reduced, InnerFirst, RepeatedBy, Repeats, Lost;
    var a: nat :| Repeats(start, dom, a, u, rpo[k], q, bounds);
    RepeaterStays(start, cur, dom, rpo, k, a, u, q, bounds);
    RepeatsAfter(start, cur, dom, a, u, rpo[k], q, bounds);
  }

  lemma RepeaterStays(start: Nodes, cur: Nodes, dom: Dom, rpo: seq<nat>, k: nat, a: nat, u: nat, q: nat, bounds: bool)
    requires k < |rpo| && InnerFirst(dom, rpo)
    requires forall x: nat, y: nat :: Lost(start, cur, x, y) <==> RepeatedBy(start, dom, rpo[..k], x, y, bounds)
    requires Repeats(start, dom, a, u, rpo[k], q, bounds) && !RepeatedBy(start, dom, rpo[..k], u, q, bounds)
    ensures IsCheckAt(cur, a, rpo[k])
  {
    hide IsCheckAt, Object, Bound, Dom.Above;
    if Lost(start, cur, a, rpo[k]) {
      MentionedBefore(start, dom, rpo, k, a, u, q, bounds);
    }
  }

  lemma MentionedBefore(ns: Nodes, dom: Dom, rpo: seq<nat>, k: nat, a: nat, u: nat, q: nat, bounds: bool)
    requires k < |rpo| && InnerFirst(dom, rpo) && Repeats(ns, dom, a, u, rpo[k], q, bounds)
    requires RepeatedBy(ns, dom, rpo[..k], a, rpo[k], bounds)
    ensures RepeatedBy(ns, dom, rpo[..k], u, q, bounds)
  {
    hide Repeats, Dom.Above, InnerFirst;
    var rX: nat :| rX in rpo[..k] && RepeatedAt(ns, dom, rX, a, rpo[k], bounds);
    var i :| 0 <= i < k && rpo[..k][i] == rX;
    RepeatedAbove(ns, dom, rX, a, rpo[k], bounds);
    EarlierMention(dom, rpo, i, k);
    assert RepeatedAt(ns, dom, rpo[k], u, q, bounds);
  }

  lemma RepeatedAbove(ns: Nodes, dom: Dom, r: nat, u: nat, q: nat, bounds: bool)
    requires RepeatedAt(ns, dom, r, u, q, bounds)
    ensures dom.Above(r, q)
  {
    hide Dom.Above, IsCheckAt, Object, Bound;
  }

  lemma EarlierMention(dom: Dom, rpo: seq<nat>, i: nat, k: nat)
    requires i < k < |rpo| && InnerFirst(dom, rpo) && dom.Above(rpo[i], rpo[k])
    ensures rpo[k] in rpo[..k]
  {
    hide Dom.Above;
    var j :| 0 <= j < i + 1 && rpo[..i + 1][j] == rpo[k];
    assert rpo[..k][j] == rpo[k];
  }

  lemma ReducedKinds(ns: Nodes, ns': Nodes)
    requires Reduced(ns, ns')
    ensures |ns| <= |ns'| && forall x :: 0 <= x < |ns| ==> ns'[x].kind == ns[x].kind
  {
  }

  // Null checks first, then bounds checks.
  method Sweeps(F: Graph, rpo: seq<nat>, at: seq<nat>, DT: DomTree, ghost g: Cfg, ghost dom: Dom)
    requires Sound(g) && Accepted(F.nodes, g, dom) && Shows(DT, g, dom) && RegionNodes(F.nodes, g, at)
    requires InnerFirst(dom, rpo) && forall r: nat :: r in rpo <==> r < |g.succs|
    modifies F
    ensures Accepted(F.nodes, g, dom) && RegionNodes(F.nodes, g, at)
    ensures Reduced(old(F.nodes), F.nodes) && LosesRepeated(old(F.nodes), F.nodes, dom)
  {
    hide Reduced, Accepted, Lost, RepeatedBy, InnerFirst, LosesRepeated, Sound, Shows;
    ghost var ns := F.nodes;
    Sweep(F, rpo, at, false, DT, g, dom);
    ghost var mid := F.nodes;
    Sweep(F, rpo, at, true, DT, g, dom);
    BothSweeps(ns, mid, F.nodes, g, dom, rpo);
  }

  // Both sweeps, over the list of the search and with the tree
  // computed from it, exact or not. The control flow graph stays and no check is added;
  // exactly the repeated checks are lost; and runs and failures are those of the original
  // if and only if checks that are not repeated vouch for those that are.
  method Run(F: Graph, g: Cfg, at: seq<nat>, ghost dom: Dom, ghost rpo: seq<nat>, ghost def: nat -> nat)
    requires Sound(g) && Built(g, dom, rpo) && Accepted(F.nodes, g, dom) && RegionNodes(F.nodes, g, at)
    modifies F
    ensures Accepted(F.nodes, g, dom) && Flow(F.nodes, g) && RegionNodes(F.nodes, g, at)
    ensures Reduced(old(F.nodes), F.nodes) && LosesRepeated(old(F.nodes), F.nodes, dom)
    ensures LosesBySlots(old(F.nodes), F.nodes, dom)
    ensures RunsAgree(g, def, old(F.nodes), F.nodes) <==> KeptVouch(g, old(F.nodes), dom, def)
    ensures NoConfusion(old(F.nodes), dom) && Truthful(g, dom) && Ssa(old(F.nodes), g, def) ==>
      RunsAgree(g, def, old(F.nodes), F.nodes)
  {
    ghost var ns := F.nodes;
    hide Reduced, Accepted, RunsAgree, KeptVouch, NoConfusion, Ssa, Truthful, Lost, RepeatedBy, InnerFirst, LosesRepeated,
      SearchYields, Candidates, TreeFor, ExactNodes, PassedBy, Numbering, DepthFirst, PreOrder, PostOrder, GroupedSuccs,
      RepeatsFollowParents, AllReachable, Reachable, Built, DomTree.Valid, DomTree.TreeOf, DomTree.FromSearch, Cfg.Wf, Flow, LosesBySlots;
    SoundSuccs(g);
    var dfs, parents, num, list := Dfs(g);
    var DT := new DomTree(g);
    TreeBuilt(DT, g, dom, rpo, dfs, parents, num, list);
    BuiltOrder(g, dom, rpo);
    Sweeps(F, list, at, DT, g, dom);
    AcceptedFlow(F.nodes, g, dom);
    EliminationRuns(g, def, ns, F.nodes, dom);
    LostBySlots(ns, F.nodes, dom);
    BuiltKeepsRuns(g, def, ns, dom, rpo);
  }

  lemma BuiltKeepsRuns(g: Cfg, def: nat -> nat, ns: Nodes, dom: Dom, rpo: seq<nat>)
    requires Accepted(ns, g, dom) && Built(g, dom, rpo)
    ensures NoConfusion(ns, dom) && Truthful(g, dom) && Ssa(ns, g, def) ==> KeptVouch(g, ns, dom, def)
  {
    hide Accepted, NoConfusion, Truthful, Ssa, KeptVouch, Built, OneToOne;
    BuiltOneToOne(g, dom, rpo);
    if NoConfusion(ns, dom) && Truthful(g, dom) && Ssa(ns, g, def) {
      NoConfusionSuffices(g, def, ns, dom);
    }
  }

  lemma SoundSuccs(g: Cfg)
    requires Sound(g)
    ensures g.Wf() && g.WfSuccs() && AllReachable(g)
  {
  }

  // The tree built and the list found are the computed ones.
  lemma TreeBuilt(DT: DomTree, g: Cfg, dom: Dom, rpo: seq<nat>, dfs: seq<nat>, parents: seq<nat>, num: map<nat, nat>,
          list: seq<nat>)
    requires g.Wf() && DT.Valid() && DT.TreeOf(g) && exists ps, rs :: DT.FromSearch(g, ps, rs)
    requires Built(g, dom, rpo) && SearchYields(g, dfs, parents, num, list)
    ensures Shows(DT, g, dom) && list == rpo
  {
    hide SearchYields, Candidates, ExactNodes, ParentProperty, ParentsDominate, PassedBy, Dominates;
    var ps, rs :| DT.FromSearch(g, ps, rs);
    var shown := Dom(DT.nodeToIdx, DT.idomTree);
    assert BuiltFrom(g, DT.idxToNode, ps, shown, rs);
    BuiltOnce(g, shown, rs, dom, rpo);
    OneOutcome(g, DT.idxToNode, ps, DT.nodeToIdx, rs, dfs, parents, num, list);
  }

  lemma BuiltOneToOne(g: Cfg, dom: Dom, rpo: seq<nat>)
    requires Built(g, dom, rpo)
    ensures OneToOne(dom)
  {
    hide SearchYields, IsCandidate;
    var dfs, parents :| BuiltFrom(g, dfs, parents, dom, rpo);
    assert Numbering(g, dfs, parents, dom.num);
  }

  // A null check is repeated by null checks only, so the second sweep finds the repeats
  // of bounds checks as they were.
  lemma BothSweeps(ns: Nodes, mid: Nodes, ns': Nodes, g: Cfg, dom: Dom, list: seq<nat>)
    requires Reduced(ns, mid) && Reduced(mid, ns') && Accepted(ns, g, dom) && Sound(g)
    requires forall r: nat :: r in list <==> r < |g.succs|
    requires forall u: nat, q: nat :: Lost(ns, mid, u, q) <==> RepeatedBy(ns, dom, list, u, q, false)
    requires forall u: nat, q: nat :: Lost(mid, ns', u, q) <==> RepeatedBy(mid, dom, list, u, q, true)
    ensures Reduced(ns, ns') && LosesRepeated(ns, ns', dom)
  {
    hide Reduced, Accepted, Lost, RepeatedBy, Repeated, Sound;
    ReducedTrans(ns, mid, ns');
    forall u: nat, q: nat ensures Lost(ns, ns', u, q) <==> Repeated(ns, dom, u, q) {
      LostNext(ns, mid, ns', u, q);
      RepeatedAnywhere(ns, g, dom, list, u, q);
      BoundsUntouched(ns, mid, dom, list, u, q);
    }
  }

  lemma RepeatedAnywhere(ns: Nodes, g: Cfg, dom: Dom, list: seq<nat>, u: nat, q: nat)
    requires Accepted(ns, g, dom) && Sound(g) && forall r: nat :: r in list <==> r < |g.succs|
    ensures Repeated(ns, dom, u, q) <==> RepeatedBy(ns, dom, list, u, q, false) || RepeatedBy(ns, dom, list, u, q, true)
  {
    AcceptedWf(ns, g, dom);
    hide Accepted, IsCheckAt, Object, Bound, Dom.Above, WfChecks;
    if Repeated(ns, dom, u, q) {
      var a: nat, rA: nat, bounds :| Repeats(ns, dom, a, u, rA, q, bounds);
      assert g.Anchored(rA);
      assert RepeatedAt(ns, dom, rA, u, q, bounds);
    }
    forall bounds | RepeatedBy(ns, dom, list, u, q, bounds) ensures Repeated(ns, dom, u, q) {
      var rA: nat :| rA in list && RepeatedAt(ns, dom, rA, u, q, bounds);
    }
  }

  lemma BoundsUntouched(ns: Nodes, mid: Nodes, dom: Dom, list: seq<nat>, u: nat, q: nat)
    requires Reduced(ns, mid)
    requires forall x: nat, y: nat :: Lost(ns, mid, x, y) <==> RepeatedBy(ns, dom, list, x, y, false)
    ensures RepeatedBy(mid, dom, list, u, q, true) <==> RepeatedBy(ns, dom, list, u, q, true)
  {
    hide Reduced, Lost, Repeats;
    if rA: nat :| rA in list && RepeatedAt(mid, dom, rA, u, q, true) {
      RepeatedEarlier(ns, mid, dom, rA, u, q, true);
    }
    if rA: nat :| rA in list && RepeatedAt(ns, dom, rA, u, q, true) {
      var a: nat :| Repeats(ns, dom, a, u, rA, q, true);
      BoundsStay(ns, mid, dom, list, a, u, rA, q);
      assert RepeatedAt(mid, dom, rA, u, q, true);
    }
  }

  lemma BoundsStay(ns: Nodes, mid: Nodes, dom: Dom, list: seq<nat>, a: nat, u: nat, rA: nat, q: nat)
    requires Reduced(ns, mid) && Repeats(ns, dom, a, u, rA, q, true)
    requires forall x: nat, y: nat :: Lost(ns, mid, x, y) <==> RepeatedBy(ns, dom, list, x, y, false)
    ensures Repeats(mid, dom, a, u, rA, q, true)
  {
    hide Reduced, IsCheckAt, Object, Bound, Dom.Above;
    assert !Lost(ns, mid, a, rA) && !Lost(ns, mid, u, q);
    RepeatsAfter(ns, mid, dom, a, u, rA, q, true);
  }
}
