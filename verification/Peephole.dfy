// Peephole rewriting of Add, Xor and Shl (src/Optimizations/Peephole.hpp).
module PeepholePass {
  import opened SeqUtil
  import opened Bits
  import opened UseDef
  import opened Values
  import opened Rewriting

  // ---------------------------------------------------------------- the outcome, slot by slot

  // V + 0 gives way to V. (V + C2) + C1 with V no constant and the inner sum used once
  // becomes (C1 + C2) + V. Any other V + V gives way to V << 1. Nothing else changes.
  ghost predicate AddOutcome(ns: Nodes, ns': Nodes, n: nat, a: nat, b: nat)
    requires n < |ns| && a < |ns| && b < |ns|
  {
    && (ns[b].kind == Constant(0) ==> |ns'| == |ns| && TakesPlace(ns, ns', n, a))
    && (ns[b].kind != Constant(0) && a == b ==>
      && |ns'| == |ns| + 2 && TakesPlace(ns, ns', n, |ns| + 1) && IsConstant(ns', |ns|, 1, ns[n].ty)
      && ns'[|ns| + 1].kind == Shl && ns'[|ns| + 1].ty == ns[n].ty && ns'[|ns| + 1].ops == [Some(a), Some(|ns|)])
    && (ns[b].kind != Constant(0) && a != b ==>
      && (forall x: nat, c: nat :: IsSum(ns, a, x, c) && ns[b].kind.Constant? ==> Exchanged(ns, ns', n, a, b, x, c))
      && (!ns[b].kind.Constant? || (forall x: nat, c: nat :: !IsSum(ns, a, x, c)) ==> ns' == ns))
  }

  ghost predicate IsConstant(ns: Nodes, k: nat, value: nat, ty: ValueType) {
    k < |ns| && ns[k].kind == Constant(value) && ns[k].ty == ty && ns[k].ops == []
  }

  // a is x + c, c a constant and x none, and a is used once at most.
  ghost predicate IsSum(ns: Nodes, a: nat, x: nat, c: nat) {
    && a < |ns| && ns[a].kind.Add? && |ns[a].users| <= 1 && ns[a].ops == [Some(x), Some(c)]
    && x < |ns| && !ns[x].kind.Constant? && c < |ns| && ns[c].kind.Constant?
  }

  // b goes into the left slot of a, and x into the right slot of n.
  ghost predicate Exchanged(ns: Nodes, ns': Nodes, n: nat, a: nat, b: nat, x: nat, c: nat) {
    && n < |ns| == |ns'| && a < |ns|
    && (forall u :: 0 <= u < |ns| ==> ns'[u].kind == ns[u].kind && ns'[u].ty == ns[u].ty)
    && (forall u :: 0 <= u < |ns| && u != a && u != n ==> ns'[u].ops == ns[u].ops)
    && ns'[a].ops == [Some(b), Some(c)] && ns'[n].ops == [Some(a), Some(x)]
  }

  // V << 0 gives way to V. Nothing else changes.
  ghost predicate ShlOutcome(ns: Nodes, ns': Nodes, n: nat, a: nat, b: nat)
    requires n < |ns| && a < |ns| && b < |ns|
  {
    && (ns[b].kind == Constant(0) ==> |ns'| == |ns| && TakesPlace(ns, ns', n, a))
    && (ns[b].kind != Constant(0) ==> ns' == ns)
  }

  // V ^ V gives way to the constant 0, any other V ^ 0 to V. Nothing else changes.
  ghost predicate XorOutcome(ns: Nodes, ns': Nodes, n: nat, a: nat, b: nat)
    requires n < |ns| && a < |ns| && b < |ns|
  {
    && (a == b ==> |ns'| == |ns| + 1 && TakesPlace(ns, ns', n, |ns|) && IsConstant(ns', |ns|, 0, ns[n].ty))
    && (a != b && ns[b].kind == Constant(0) ==> |ns'| == |ns| && TakesPlace(ns, ns', n, a))
    && (a != b && ns[b].kind != Constant(0) ==> ns' == ns)
  }

  // ---------------------------------------------------------------- reordering a chain of sums

  // n = (x + c) + b becomes (b + c) + x, through the inner addition a that only n uses.
  ghost predicate ChainStep(ns: Nodes, ns': Nodes, n: nat) {
    && n < |ns| == |ns'| && ns[n].kind.Add? && |ns[n].ops| == 2 && Complete(ns[n])
    && var a, b := Lhs(ns, n), Rhs(ns, n);
    && a < |ns| && b < |ns| && a != n && ns[a].kind.Add? && |ns[a].ops| == 2 && Complete(ns[a])
    && var x, c := Lhs(ns, a), Rhs(ns, a);
    && x < |ns| && c < |ns| && x != n && x != a && ns[b].kind.Constant? && ns[c].kind.Constant?
    && ns[a].ty == ns[n].ty && ns[b].ty == ns[n].ty && ns[x].ty == ns[n].ty && ns[c].ty == ns[n].ty
    && OnlyUse(ns, a, n)
    && (forall u :: 0 <= u < |ns| ==> ns'[u].kind == ns[u].kind && ns'[u].ty == ns[u].ty)
    && (forall u :: 0 <= u < |ns| && u != a && u != n ==> ns'[u].ops == ns[u].ops)
    && ns'[a].ops == [Some(b), Some(c)]
    && ns'[n].ops == [Some(a), Some(x)]
  }

  // No slot but the left one of n holds a.
  ghost predicate OnlyUse(ns: Nodes, a: nat, n: nat) {
    forall u, i :: 0 <= u < |ns| && 0 <= i < |ns[u].ops| && ns[u].ops[i] == Some(a) ==> u == n && i == 0
  }

  // ---------------------------------------------------------------- the rules are equations

  lemma ApplyZero(k: Kind, ty: ValueType, v: nat, env: Env)
    requires Rewritten(k) && v < Mod(ty)
    ensures Apply(k, ty, [v, 0], env) == v
  {
    hide Mod;
    XorZero(v);
    ModSmall(v, Mod(ty));
  }

  // V + 0, V << 0 and V ^ 0 equal V.
  lemma ForwardEqual(ns: Nodes, n: nat, env: Env, val: seq<nat>)
    requires IsModel(ns, env, val) && n < |ns| && Rewritten(ns[n].kind)
    requires |ns[n].ops| == 2 && Complete(ns[n]) && Rhs(ns, n) < |ns| && ns[Rhs(ns, n)].kind == Constant(0)
    ensures Lhs(ns, n) < |val| && val[n] == val[Lhs(ns, n)]
  {
    hide Apply, Mod, IsModel;
    NodeEquation(ns, n, env, val);
    ConstantValue(ns, Rhs(ns, n), env, val);
    ModSmall(0, Mod(ns[Rhs(ns, n)].ty));
    ApplyZero(ns[n].kind, ns[n].ty, val[Lhs(ns, n)], env);
  }

  // V ^ V is 0.
  lemma XorSelfZero(ns: Nodes, n: nat, env: Env, val: seq<nat>)
    requires IsModel(ns, env, val) && n < |ns| && ns[n].kind.Xor?
    requires |ns[n].ops| == 2 && Complete(ns[n]) && Lhs(ns, n) == Rhs(ns, n)
    ensures val[n] == 0
  {
    hide Mod, IsModel;
    NodeEquation(ns, n, env, val);
    XorSelf(val[Lhs(ns, n)]);
    ModSmall(0, Mod(ns[n].ty));
  }

  // V + V equals V << 1 at every width.
  lemma DoubleIsShift(v: nat, ty: ValueType)
    ensures Reduce(Shifted(v, Reduce(1, ty)), ty) == Reduce(v + v, ty)
  {
    if Width(ty) == 0 {
      assert Mod(ty) == 1;
    } else {
      assert Mod(ty) == 2 * Pow2(Width(ty) - 1);
      var m := Mod(ty);
      hide Mod;
      ModSmall(1, m);
      assert Pow2(1) == 2 * Pow2(0) == 2;
      assert v * 2 == v + v;
    }
  }

  lemma ReducedSums(ty: ValueType, s: nat, b: nat, t: nat, x: nat)
    requires s + b == t + x
    ensures Reduce(Reduce(s, ty) + b, ty) == Reduce(Reduce(t, ty) + x, ty)
  {
    SumsAgree(s, b, t, x, Mod(ty));
  }

  // ((x + c) + b) equals ((b + c) + x).
  lemma ChainEquation(ty: ValueType, env: Env, x: nat, b: nat, c: nat)
    ensures Apply(Add, ty, [Apply(Add, ty, [x, c], env), b], env) == Apply(Add, ty, [Apply(Add, ty, [b, c], env), x], env)
  {
    hide Mod, Reduce;
    ReducedSums(ty, x + c, b, b + c, x);
  }

  // ---------------------------------------------------------------- the chain rule keeps the meaning

  function ChainValue(ns: Nodes, n: nat, env: Env, val: seq<nat>): seq<nat>
    requires n < |ns| == |val| && |ns[n].ops| == 2 && Complete(ns[n])
    requires Lhs(ns, n) < |ns| && Rhs(ns, n) < |ns| && |ns[Lhs(ns, n)].ops| == 2 && Complete(ns[Lhs(ns, n)])
    requires Rhs(ns, Lhs(ns, n)) < |ns|
  {
    val[Lhs(ns, n) := Apply(Add, ns[n].ty, [val[Rhs(ns, n)], val[Rhs(ns, Lhs(ns, n))]], env)]
  }

  lemma ChainMeaningInner(ns: Nodes, ns': Nodes, n: nat, env: Env, val: seq<nat>)
    requires ChainStep(ns, ns', n) && Typed(ns') && |val| == |ns|
    ensures var a := Lhs(ns, n); Meaning(ns', env, ChainValue(ns, n, env, val), a) == ChainValue(ns, n, env, val)[a]
  {
    hide Mod, Apply, Typed, OnlyUse;
    var a, b := Lhs(ns, n), Rhs(ns, n);
    var val' := ChainValue(ns, n, env, val);
    assert Args(ns'[a], val') == [val[b], val[Rhs(ns, a)]];
  }

  lemma ChainMeaningOuter(ns: Nodes, ns': Nodes, n: nat, env: Env, val: seq<nat>)
    requires ChainStep(ns, ns', n) && IsModel(ns, env, val) && Typed(ns')
    ensures Meaning(ns', env, ChainValue(ns, n, env, val), n) == ChainValue(ns, n, env, val)[n]
  {
    hide Mod, Apply, IsModel, Typed, OnlyUse;
    ModelLength(ns, env, val);
    var a, b := Lhs(ns, n), Rhs(ns, n);
    var x, c := Lhs(ns, a), Rhs(ns, a);
    var val' := ChainValue(ns, n, env, val);
    NodeEquation(ns, n, env, val);
    NodeEquation(ns, a, env, val);
    assert Args(ns'[n], val') == [val'[a], val[x]];
    ChainEquation(ns[n].ty, env, val[x], val[b], val[c]);
  }

  lemma ChainMeaningElsewhere(ns: Nodes, ns': Nodes, n: nat, env: Env, val: seq<nat>, u: nat)
    requires ChainStep(ns, ns', n) && IsModel(ns, env, val) && Typed(ns') && u < |ns| && u != n && u != Lhs(ns, n)
    ensures Meaning(ns', env, ChainValue(ns, n, env, val), u) == ChainValue(ns, n, env, val)[u]
  {
    hide Mod, Apply, ChainValue;
    var val' := ChainValue(ns, n, env, val);
    assert val[u] == Meaning(ns, env, val, u);
    ChainValueElsewhere(ns, n, env, val);
    if Computed(ns[u].kind) && Complete(ns[u]) {
      assert Args(ns'[u], val') == Args(ns[u], val);
    }
  }

  lemma ChainValueElsewhere(ns: Nodes, n: nat, env: Env, val: seq<nat>)
    requires n < |ns| == |val| && |ns[n].ops| == 2 && Complete(ns[n])
    requires Lhs(ns, n) < |ns| && Rhs(ns, n) < |ns| && |ns[Lhs(ns, n)].ops| == 2 && Complete(ns[Lhs(ns, n)])
    requires Rhs(ns, Lhs(ns, n)) < |ns|
    ensures |ChainValue(ns, n, env, val)| == |val|
    ensures forall u :: 0 <= u < |val| && u != Lhs(ns, n) ==> ChainValue(ns, n, env, val)[u] == val[u]
  {
  }

  lemma ChainPreserves(ns: Nodes, ns': Nodes, n: nat)
    requires ChainStep(ns, ns', n) && Typed(ns')
    ensures Preserves(ns, ns')
  {
    hide Mod, Apply, ChainValue, Typed, OnlyUse;
    forall env, val | IsModel(ns, env, val)
      ensures exists val' :: IsModel(ns', env, val') && RootsKept(ns, val, ns', val')
    {
      ModelLength(ns, env, val);
      var val' := ChainValue(ns, n, env, val);
      ChainValueElsewhere(ns, n, env, val);
      forall u | 0 <= u < |ns| ensures Meaning(ns', env, val', u) == val'[u] {
        if u == n {
          ChainMeaningOuter(ns, ns', n, env, val);
        } else if u == Lhs(ns, n) {
          ChainMeaningInner(ns, ns', n, env, val);
        } else {
          ChainMeaningElsewhere(ns, ns', n, env, val, u);
        }
      }
      assert IsModel(ns', env, val');
      ChainRoots(ns, ns', n, val, val');
    }
  }

  lemma ChainRoots(ns: Nodes, ns': Nodes, n: nat, val: seq<nat>, val': seq<nat>)
    requires ChainStep(ns, ns', n) && InRange(ns) && |val| == |ns| == |val'|
    requires forall u :: 0 <= u < |val| && u != Lhs(ns, n) ==> val'[u] == val[u]
    ensures RootsKept(ns, val, ns', val')
  {
    forall r | 0 <= r < |ns| && Root(ns[r].kind)
      ensures |ns'[r].ops| == |ns[r].ops|
      ensures forall i :: 0 <= i < |ns[r].ops| ==> SlotKept(ns, val, val', ns[r].ops[i], ns'[r].ops[i])
    {
    }
  }

  lemma ChainGood(ns: Nodes, rank: seq<nat>, ns': Nodes, n: nat)
    requires Good(ns, rank) && ChainStep(ns, ns', n) && Dual(ns')
    ensures Good(ns', rank)
  {
    ChainAcyclic(ns, rank, ns', n);
    ChainTyped(ns, ns', n);
    ChainLive(ns, ns', n);
    hide Acyclic, Typed, LiveComplete, Dual, ChainStep;
  }

  lemma ChainAcyclic(ns: Nodes, rank: seq<nat>, ns': Nodes, n: nat)
    requires Acyclic(ns, rank) && ChainStep(ns, ns', n)
    ensures Acyclic(ns', rank)
  {
    var a := Lhs(ns, n);
    assert RankBelow(ns, rank, a, n) && RankBelow(ns, rank, Lhs(ns, a), a);
    forall u, i | 0 <= u < |ns'| && Computed(ns'[u].kind) && 0 <= i < |ns'[u].ops| && ns'[u].ops[i].Some?
      ensures ns'[u].ops[i].value < |ns'| && RankBelow(ns', rank, ns'[u].ops[i].value, u)
    {
      if u != a && u != n {
        assert RankBelow(ns, rank, ns[u].ops[i].value, u);
      }
    }
  }

  lemma ChainTyped(ns: Nodes, ns': Nodes, n: nat)
    requires Typed(ns) && ChainStep(ns, ns', n)
    ensures Typed(ns')
  {
    hide OnlyUse;
    forall u, i | 0 <= u < |ns'| && 0 <= i < |ns'[u].ops| && ns'[u].ops[i].Some? ensures ns'[u].ops[i].value < |ns'| {
      if u != Lhs(ns, n) && u != n {
        assert ns'[u].ops == ns[u].ops;
      }
    }
  }

  lemma ChainLiveAt(ns: Nodes, ns': Nodes, n: nat, u: nat)
    requires Dual(ns) && LiveComplete(ns) && ChainStep(ns, ns', n) && Dual(ns')
    requires u < |ns| && Rewritten(ns[u].kind) && ns'[u].users != multiset{}
    requires u != Lhs(ns, n) && u != n && u != Lhs(ns, Lhs(ns, n))
    ensures Complete(ns'[u])
  {
    var w :| w in ns'[u].users;
    var i := UserHasSlot(ns', u, w);
    ChainSlot(ns, ns', n, w, i, u);
    SlotHasUser(ns, w, i, u);
    assert ns'[u].ops == ns[u].ops;
    hide ChainStep, Dual;
  }

  lemma ChainComplete(ns: Nodes, ns': Nodes, n: nat)
    requires Dual(ns) && LiveComplete(ns) && ChainStep(ns, ns', n)
    ensures var a := Lhs(ns, n); a < |ns| && Complete(ns'[a]) && Complete(ns'[n])
    ensures var x := Lhs(ns, Lhs(ns, n)); x < |ns| && (Rewritten(ns[x].kind) ==> Complete(ns'[x]))
  {
    hide OnlyUse;
    var a := Lhs(ns, n);
    SlotHasUser(ns, a, 0, Lhs(ns, a));
  }

  lemma ChainLive(ns: Nodes, ns': Nodes, n: nat)
    requires Dual(ns) && LiveComplete(ns) && ChainStep(ns, ns', n) && Dual(ns')
    ensures LiveComplete(ns')
  {
    ChainComplete(ns, ns', n);
    assert |ns'| == |ns| && forall u :: 0 <= u < |ns| ==> ns'[u].kind == ns[u].kind;
    hide Dual, ChainStep;
    forall u | 0 <= u < |ns'| && Rewritten(ns'[u].kind) && ns'[u].users != multiset{} ensures Complete(ns'[u]) {
      if u != Lhs(ns, n) && u != n && u != Lhs(ns, Lhs(ns, n)) {
        ChainLiveAt(ns, ns', n, u);
      }
    }
  }

  lemma ChainSlot(ns: Nodes, ns': Nodes, n: nat, w: nat, i: nat, u: nat)
    requires ChainStep(ns, ns', n) && w < |ns| && i < |ns'[w].ops| && ns'[w].ops[i] == Some(u)
    requires u < |ns| && Rewritten(ns[u].kind) && u != Lhs(ns, n) && u != Lhs(ns, Lhs(ns, n))
    ensures i < |ns[w].ops| && ns[w].ops[i] == Some(u)
  {
  }

  // ---------------------------------------------------------------- establishing the chain step

  lemma ChainUse(ns: Nodes, rank: seq<nat>, n: nat)
    requires Ready(ns, rank, n) && Lhs(ns, n) != Rhs(ns, n) && |ns[Lhs(ns, n)].users| <= 1
    ensures OnlyUse(ns, Lhs(ns, n), n)
  {
    var a := Lhs(ns, n);
    SlotHasUser(ns, n, 0, a);
    forall u, i | 0 <= u < |ns| && 0 <= i < |ns[u].ops| && ns[u].ops[i] == Some(a) ensures u == n && i == 0 {
      SlotHasUser(ns, u, i, a);
      SingleUser(ns[a].users, n, u);
    }
  }

  lemma SingleUser(us: multiset<nat>, n: nat, u: nat)
    requires n in us && u in us && |us| <= 1
    ensures u == n
  {
    assert |us - multiset{n}| == 0;
    assert u != n ==> u in us - multiset{n};
  }

  lemma TwoSlots(ns: Nodes, n: nat, b: Slot, a: nat, x: Slot)
    requires Dual(ns) && n < |ns| && a < |ns| && a != n && |ns[a].ops| == 2 && |ns[n].ops| == 2
    requires (b.Some? ==> b.value < |ns|) && (x.Some? ==> x.value < |ns|)
    ensures var ns1 := WithSlot(ns, a, 0, b);
      && |ns1[n].ops| == 2 && (ns1[n].ops[1].Some? ==> ns1[n].ops[1].value < |ns1|)
      && var ns2 := WithSlot(ns1, n, 1, x);
      && |ns2| == |ns|
      && (forall u :: 0 <= u < |ns| ==> ns2[u].kind == ns[u].kind && ns2[u].ty == ns[u].ty)
      && (forall u :: 0 <= u < |ns| && u != a && u != n ==> ns2[u].ops == ns[u].ops)
      && ns2[a].ops == [b, ns[a].ops[1]] && ns2[n].ops == [ns[n].ops[0], x]
  {
    var ns1 := WithSlot(ns, a, 0, b);
    WithSlotShape(ns, a, 0, b);
    assert SameButUsers(ns1[n], ns[n]);
    WithSlotShape(ns1, n, 1, x);
    hide WithSlot;
    var ns2 := WithSlot(ns1, n, 1, x);
    forall u | 0 <= u < |ns| && u != n ensures SameButUsers(ns2[u], ns1[u]) {
    }
    forall u | 0 <= u < |ns| && u != a ensures SameButUsers(ns1[u], ns[u]) {
    }
  }

  // ---------------------------------------------------------------- one node

  // n equals its left operand and gives way to it.
  method ForwardLeft(F: Graph, n: nat, ghost rank: seq<nat>)
    requires Ready(F.nodes, rank, n) && F.nodes[Rhs(F.nodes, n)].kind == Constant(0)
    modifies F
    ensures |F.nodes| == |old(F.nodes)| && TakesPlace(old(F.nodes), F.nodes, n, Lhs(old(F.nodes), n))
    ensures Good(F.nodes, rank) && Preserves(old(F.nodes), F.nodes)
  {
    hide Good, Preserves, IsModel;
    ghost var ns := F.nodes;
    var m := Lhs(F.nodes, n);
    ForwardReplaceable(ns, rank, n);
    ForwardTo(F, n, m, rank);
    ReplacedPreserves(ns, rank, F.nodes, n, m);
    ReplacedTakesPlace(ns, F.nodes, n, m);
  }

  lemma ForwardReplaceable(ns: Nodes, rank: seq<nat>, n: nat)
    requires Ready(ns, rank, n) && ns[Rhs(ns, n)].kind == Constant(0)
    ensures CanReplace(ns, rank, n, Lhs(ns, n))
    ensures forall env, val :: IsModel(ns, env, val) ==> val[n] == val[Lhs(ns, n)]
  {
    OperandsReady(ns, rank, n);
    forall env, val | IsModel(ns, env, val) ensures val[n] == val[Lhs(ns, n)] {
      ForwardEqual(ns, n, env, val);
    }
  }

  lemma ZeroReplaceable(ns: Nodes, rank: seq<nat>, ns1: Nodes, n: nat)
    requires Ready(ns, rank, n) && ns[n].kind.Xor? && Lhs(ns, n) == Rhs(ns, n)
    requires Created(ns, ns1, Constant(0), ns[n].ty, [])
    ensures CanReplace(ns1, rank + [0], n, |ns|) && Preserves(ns, ns1)
    ensures forall env, val :: IsModel(ns1, env, val) ==> val[n] == val[|ns|]
  {
    CreatedGood(ns, rank, ns1, Constant(0), ns[n].ty, [], 0);
    CreatedPreserves(ns, rank, ns1, Constant(0), ns[n].ty, [], 0);
    assert SameButUsers(ns1[n], ns[n]);
    hide Good, Preserves, Reduce, Created;
    forall env, val | IsModel(ns1, env, val) ensures val[n] == val[|ns|] {
      XorSelfZero(ns1, n, env, val);
      ConstantValue(ns1, |ns|, env, val);
      ReduceZero(ns[n].ty);
    }
  }

  lemma ReduceZero(ty: ValueType)
    ensures Reduce(0, ty) == 0
  {
  }

  // V ^ V gives way to a new constant 0.
  method MakeZero(F: Graph, n: nat, ghost rank: seq<nat>) returns (ghost rank': seq<nat>)
    requires Ready(F.nodes, rank, n) && F.nodes[n].kind.Xor? && Lhs(F.nodes, n) == Rhs(F.nodes, n)
    modifies F
    ensures Zeroed(old(F.nodes), F.nodes, n)
    ensures Good(F.nodes, rank') && Preserves(old(F.nodes), F.nodes)
  {
    hide Good, Preserves, IsModel, CanReplace, Created, Replaced, Zeroed, Dual;
    ghost var ns := F.nodes;
    AddOperands(ns, rank, n);
    var c0 := F.Create(Constant(0), F.nodes[n].ty, []);
    ghost var ns1 := F.nodes;
    rank' := rank + [0];
    ZeroReplaceable(ns, rank, ns1, n);
    ForwardTo(F, n, c0, rank');
    ReplacedPreserves(ns1, rank', F.nodes, n, c0);
    PreservesTrans(ns, ns1, F.nodes);
    ZeroApplied(ns, rank, ns1, F.nodes, n);
  }

  ghost predicate Zeroed(ns: Nodes, ns': Nodes, n: nat)
    requires n < |ns|
  {
    |ns'| == |ns| + 1 && TakesPlace(ns, ns', n, |ns|) && IsConstant(ns', |ns|, 0, ns[n].ty)
  }

  lemma ZeroApplied(ns: Nodes, rank: seq<nat>, ns1: Nodes, ns2: Nodes, n: nat)
    requires Ready(ns, rank, n) && Created(ns, ns1, Constant(0), ns[n].ty, []) && Replaced(ns1, ns2, n, |ns|)
    ensures Zeroed(ns, ns2, n)
  {
    hide Good, Created, Replaced, ReplacedByNew, TakesPlace, Dual;
    NewThenReplaced(ns, ns1, ns2, n, Constant(0), ns[n].ty, []);
    assert |ns2| == |ns| + 1 by {
      NewCount(ns, ns2, n, 1);
    }
    NewTakesPlace(ns, ns2, n, 1);
  }

  method TryXor(F: Graph, n: nat, ghost rank: seq<nat>) returns (r: bool, ghost rank': seq<nat>)
    requires Ready(F.nodes, rank, n) && F.nodes[n].kind.Xor?
    modifies F
    ensures var ns := old(F.nodes);
      var a, b := ns[n].ops[0].value, ns[n].ops[1].value;
      XorOutcome(ns, F.nodes, n, a, b) && (r <==> a == b || ns[b].kind == Constant(0))
    ensures Good(F.nodes, rank') && Preserves(old(F.nodes), F.nodes)
  {
    hide Preserves, IsModel, TakesPlace;
    rank' := rank;
    if F.nodes[n].ops[0] == F.nodes[n].ops[1] {
      rank' := MakeZero(F, n, rank);
      return true, rank';
    }
    if F.nodes[Rhs(F.nodes, n)].kind == Constant(0) {
      ForwardLeft(F, n, rank);
      return true, rank';
    }
    PreservesRefl(F.nodes);
    return false, rank';
  }

  method TryShl(F: Graph, n: nat, ghost rank: seq<nat>) returns (r: bool)
    requires Ready(F.nodes, rank, n) && F.nodes[n].kind.Shl?
    modifies F
    ensures var ns := old(F.nodes);
      var a, b := ns[n].ops[0].value, ns[n].ops[1].value;
      ShlOutcome(ns, F.nodes, n, a, b) && (r <==> ns[b].kind == Constant(0))
    ensures Good(F.nodes, rank) && Preserves(old(F.nodes), F.nodes)
  {
    hide Preserves, IsModel, TakesPlace;
    if F.nodes[Rhs(F.nodes, n)].kind == Constant(0) {
      ForwardLeft(F, n, rank);
      return true;
    }
    PreservesRefl(F.nodes);
    return false;
  }

  // ---------------------------------------------------------------- V + V

  // n gives way to its left operand shifted by the new constant 1.
  ghost predicate Doubled(ns: Nodes, ns': Nodes, n: nat)
    requires n < |ns| && |ns[n].ops| == 2 && ns[n].ops[0].Some?
  {
    && |ns'| == |ns| + 2 && TakesPlace(ns, ns', n, |ns| + 1) && IsConstant(ns', |ns|, 1, ns[n].ty)
    && ns'[|ns| + 1].kind == Shl && ns'[|ns| + 1].ty == ns[n].ty
    && ns'[|ns| + 1].ops == [Some(Lhs(ns, n)), Some(|ns|)]
  }

  lemma DoubleFirst(ns: Nodes, rank: seq<nat>, ns1: Nodes, n: nat)
    requires Ready(ns, rank, n) && ns[n].kind.Add?
    requires Created(ns, ns1, Constant(1), ns[n].ty, [])
    ensures CanCreate(ns1, rank + [0], Shl, ns[n].ty, [Some(Lhs(ns, n)), Some(|ns|)], rank[n]) && Preserves(ns, ns1)
    ensures SameButUsers(ns1[n], ns[n]) && Dual(ns1)
  {
    var a := Lhs(ns, n);
    OperandsReady(ns, rank, n);
    CreatedGood(ns, rank, ns1, Constant(1), ns[n].ty, [], 0);
    CreatedPreserves(ns, rank, ns1, Constant(1), ns[n].ty, [], 0);
    assert SameButUsers(ns1[n], ns[n]) && SameButUsers(ns1[a], ns[a]);
    hide Acyclic, Typed, LiveComplete, Dual, Preserves;
  }

  lemma DoubleSecond(ns1: Nodes, rank1: seq<nat>, ns2: Nodes, n: nat, a: nat, c: nat)
    requires Good(ns1, rank1) && n < |ns1| && a < |ns1| && c < |ns1|
    requires ns1[n].kind.Add? && ns1[n].ops == [Some(a), Some(a)] && ns1[c].kind == Constant(1)
      && ns1[c].ty == ns1[n].ty
    requires CanCreate(ns1, rank1, Shl, ns1[n].ty, [Some(a), Some(c)], rank1[n])
    requires Created(ns1, ns2, Shl, ns1[n].ty, [Some(a), Some(c)])
    ensures CanReplace(ns2, rank1 + [rank1[n]], n, |ns1|) && Preserves(ns1, ns2)
    ensures forall env, val :: IsModel(ns2, env, val) ==> val[n] == val[|ns1|]
  {
    var ops := [Some(a), Some(c)];
    CreatedGood(ns1, rank1, ns2, Shl, ns1[n].ty, ops, rank1[n]);
    CreatedPreserves(ns1, rank1, ns2, Shl, ns1[n].ty, ops, rank1[n]);
    assert SameButUsers(ns2[n], ns1[n]) && SameButUsers(ns2[c], ns1[c]);
    assert |ns2| == |ns1| + 1 && ns2[|ns1|].kind == Shl && ns2[|ns1|].ops == ops && ns2[|ns1|].ty == ns1[n].ty;
    hide Good, Preserves, Created, CanCreate;
    forall env, val | IsModel(ns2, env, val) ensures val[n] == val[|ns1|] {
      DoubleEqual(ns2, n, a, c, |ns1|, env, val);
    }
  }

  lemma DoubleEqual(ns: Nodes, n: nat, a: nat, c: nat, s: nat, env: Env, val: seq<nat>)
    requires IsModel(ns, env, val) && n < |ns| && a < |ns| && c < |ns| && s < |ns|
    requires ns[n].kind.Add? && ns[n].ops == [Some(a), Some(a)]
    requires ns[c].kind == Constant(1) && ns[c].ty == ns[n].ty
    requires ns[s].kind.Shl? && ns[s].ty == ns[n].ty && ns[s].ops == [Some(a), Some(c)]
    ensures val[n] == val[s]
  {
    hide IsModel, Reduce;
    NodeEquation(ns, n, env, val);
    NodeEquation(ns, s, env, val);
    ConstantValue(ns, c, env, val);
    DoubleIsShift(val[a], ns[n].ty);
  }

  lemma TwoNewThenReplaced(ns: Nodes, ns1: Nodes, ns2: Nodes, ns3: Nodes, n: nat, a: nat, ty: ValueType)
    requires n < |ns| && a < |ns| && a != n && Created(ns, ns1, Constant(1), ty, [])
    requires Created(ns1, ns2, Shl, ty, [Some(a), Some(|ns|)]) && Replaced(ns2, ns3, n, |ns| + 1)
    ensures ReplacedByNew(ns, ns3, n, 2)
    ensures ns3[|ns|].kind == Constant(1) && ns3[|ns|].ty == ty && ns3[|ns|].ops == []
    ensures ns3[|ns| + 1].kind == Shl && ns3[|ns| + 1].ty == ty && ns3[|ns| + 1].ops == [Some(a), Some(|ns|)]
  {
    forall u | 0 <= u < |ns| ensures SameButUsers(ns2[u], ns[u]) {
      assert SameButUsers(ns1[u], ns[u]) && SameButUsers(ns2[u], ns1[u]);
    }
    assert SameButUsers(ns2[|ns|], ns1[|ns|]);
  }

  // The nodes 1 and V << 1, not used yet.
  method CreateShift(F: Graph, n: nat, ghost rank: seq<nat>) returns (shl: nat, ghost ns1: Nodes)
    requires Ready(F.nodes, rank, n) && F.nodes[n].kind.Add? && Lhs(F.nodes, n) == Rhs(F.nodes, n)
    modifies F
    ensures var ns := old(F.nodes);
      && shl == |ns| + 1 && n < |ns|
      && Created(ns, ns1, Constant(1), ns[n].ty, [])
      && Created(ns1, F.nodes, Shl, ns[n].ty, [Some(Lhs(ns, n)), Some(|ns|)])
      && CanReplace(F.nodes, rank + [0] + [rank[n]], n, shl) && Preserves(ns, F.nodes)
    ensures forall env, val :: IsModel(F.nodes, env, val) ==> val[n] == val[shl]
  {
    ghost var ns := F.nodes;
    AddOperands(ns, rank, n);
    hide Good, Preserves, IsModel, CanReplace, Created;
    var a, ty := Lhs(F.nodes, n), F.nodes[n].ty;
    var c1 := F.Create(Constant(1), ty, []);
    ns1 := F.nodes;
    DoubleFirst(ns, rank, ns1, n);
    CreatedIs(ns, ns1, Constant(1), ty, []);
    shl := F.Create(Shl, ty, [Some(a), Some(c1)]);
    CanCreateIsGood(ns1, rank + [0], Shl, ty, [Some(a), Some(c1)], rank[n]);
    DoubleSecond(ns1, rank + [0], F.nodes, n, a, c1);
    PreservesTrans(ns, ns1, F.nodes);
  }

  lemma CanCreateIsGood(ns: Nodes, rank: seq<nat>, kind: Kind, ty: ValueType, ops: seq<Slot>, r: nat)
    requires CanCreate(ns, rank, kind, ty, ops, r)
    ensures Good(ns, rank) && |rank| == |ns|
  {
  }

  method MakeShift(F: Graph, n: nat, ghost rank: seq<nat>) returns (ghost rank': seq<nat>)
    requires Ready(F.nodes, rank, n) && F.nodes[n].kind.Add? && Lhs(F.nodes, n) == Rhs(F.nodes, n)
    modifies F
    ensures Doubled(old(F.nodes), F.nodes, n)
    ensures Good(F.nodes, rank') && Preserves(old(F.nodes), F.nodes)
  {
    hide Good, Preserves, IsModel, CanReplace, Created, Replaced, Doubled, Dual;
    ghost var ns := F.nodes;
    AddOperands(ns, rank, n);
    var shl, ns1 := CreateShift(F, n, rank);
    ghost var ns2 := F.nodes;
    rank' := rank + [0] + [rank[n]];
    ForwardTo(F, n, shl, rank');
    ReplacedPreserves(ns2, rank', F.nodes, n, shl);
    PreservesTrans(ns, ns2, F.nodes);
    DoubleApplied(ns, rank, ns1, ns2, F.nodes, n);
  }

  lemma DoubleApplied(ns: Nodes, rank: seq<nat>, ns1: Nodes, ns2: Nodes, ns3: Nodes, n: nat)
    requires Ready(ns, rank, n) && Created(ns, ns1, Constant(1), ns[n].ty, [])
    requires Created(ns1, ns2, Shl, ns[n].ty, [Some(Lhs(ns, n)), Some(|ns|)]) && Replaced(ns2, ns3, n, |ns| + 1)
    ensures Doubled(ns, ns3, n)
  {
    hide Good, Created, Replaced, ReplacedByNew, TakesPlace, Dual;
    AddOperands(ns, rank, n);
    TwoNewThenReplaced(ns, ns1, ns2, ns3, n, Lhs(ns, n), ns[n].ty);
    assert |ns3| == |ns| + 2 by {
      NewCount(ns, ns3, n, 2);
    }
    NewTakesPlace(ns, ns3, n, 2);
  }

  lemma AddOperands(ns: Nodes, rank: seq<nat>, n: nat)
    requires Ready(ns, rank, n)
    ensures Dual(ns) && |rank| == |ns| && Lhs(ns, n) != n
    ensures Lhs(ns, n) == Rhs(ns, n) ==> ns[n].ops == [Some(Lhs(ns, n)), Some(Lhs(ns, n))]
  {
    OperandsReady(ns, rank, n);
  }

  // ---------------------------------------------------------------- addition

  // n adds a constant to a sum used once, of a node and a constant.
  ghost predicate IsChain(ns: Nodes, n: nat)
    requires n < |ns| && |ns[n].ops| == 2 && ns[n].ops[0].Some? && ns[n].ops[1].Some?
  {
    && Rhs(ns, n) < |ns| && ns[Rhs(ns, n)].kind.Constant?
    && Lhs(ns, n) < |ns| && ns[Lhs(ns, n)].kind.Add? && |ns[Lhs(ns, n)].ops| == 2
    && ns[Lhs(ns, n)].ops[0].Some? && ns[Lhs(ns, n)].ops[1].Some?
    && IsSum(ns, Lhs(ns, n), Lhs(ns, Lhs(ns, n)), Rhs(ns, Lhs(ns, n)))
  }

  // The inner addition of n is used by n only: reorder the constants.
  method Reorder(F: Graph, n: nat, ghost rank: seq<nat>)
    requires Ready(F.nodes, rank, n) && F.nodes[n].kind.Add? && IsChain(F.nodes, n)
    modifies F
    ensures ChainStep(old(F.nodes), F.nodes, n)
    ensures Good(F.nodes, rank) && Preserves(old(F.nodes), F.nodes)
  {
    ghost var ns := F.nodes;
    var nextAdd, curConst := Lhs(F.nodes, n), Rhs(F.nodes, n);
    ReorderSlots(ns, rank, n);
    hide Good, Preserves, IsChain;
    var nonConst := Lhs(F.nodes, nextAdd);
    F.SetOperand(nextAdd, 0, Some(curConst));
    F.SetOperand(n, 1, Some(nonConst));
    ReorderIsStep(ns, rank, F.nodes, n);
    ChainGood(ns, rank, F.nodes, n);
    assert Typed(F.nodes) by {
      GoodIsTyped(F.nodes, rank);
    }
    ChainPreserves(ns, F.nodes, n);
  }

  lemma ReorderSlots(ns: Nodes, rank: seq<nat>, n: nat)
    requires Ready(ns, rank, n) && IsChain(ns, n)
    ensures var a, b := Lhs(ns, n), Rhs(ns, n);
      && Dual(ns) && a != n && a < |ns| && b < |ns| && |ns[a].ops| == 2 && ns[a].ops[0].Some? && Lhs(ns, a) < |ns|
      && var ns1 := WithSlot(ns, a, 0, Some(b));
      && |ns1[n].ops| == 2 && (ns1[n].ops[1].Some? ==> ns1[n].ops[1].value < |ns1|)
  {
    OperandsReady(ns, rank, n);
    OperandsReady(ns, rank, Lhs(ns, n));
    var a, b := Lhs(ns, n), Rhs(ns, n);
    TwoSlots(ns, n, Some(b), a, Some(Lhs(ns, a)));
    hide WithSlot, Acyclic, Typed, LiveComplete;
  }

  lemma ReorderIsStep(ns: Nodes, rank: seq<nat>, ns': Nodes, n: nat)
    requires Ready(ns, rank, n) && IsChain(ns, n) && ns[n].kind.Add?
    requires Lhs(ns, n) != n && |ns[Lhs(ns, n)].ops| == 2 && ns[Lhs(ns, n)].ops[0].Some? && Lhs(ns, Lhs(ns, n)) < |ns|
    requires |WithSlot(ns, Lhs(ns, n), 0, Some(Rhs(ns, n)))[n].ops| == 2
    requires var ns1 := WithSlot(ns, Lhs(ns, n), 0, Some(Rhs(ns, n)));
      && (ns1[n].ops[1].Some? ==> ns1[n].ops[1].value < |ns1|)
      && ns' == WithSlot(ns1, n, 1, Some(Lhs(ns, Lhs(ns, n))))
    ensures ChainStep(ns, ns', n)
  {
    hide WithSlot, Typed, LiveComplete, Dual, OnlyUse;
    var a, b := Lhs(ns, n), Rhs(ns, n);
    OperandsReady(ns, rank, n);
    OperandsReady(ns, rank, a);
    ChainUse(ns, rank, n);
    assert Dual(ns);
    TwoSlots(ns, n, Some(b), a, Some(Lhs(ns, a)));
    assert RankBelow(ns, rank, Lhs(ns, a), a) && RankBelow(ns, rank, a, n);
    hide Acyclic;
  }

  lemma StepExchanges(ns: Nodes, ns': Nodes, n: nat)
    requires ChainStep(ns, ns', n)
    ensures var a := Lhs(ns, n); a < |ns| && Exchanged(ns, ns', n, a, Rhs(ns, n), Lhs(ns, a), Rhs(ns, a))
    ensures ns[Lhs(ns, n)].ops == [Some(Lhs(ns, Lhs(ns, n))), Some(Rhs(ns, Lhs(ns, n)))]
  {
    hide OnlyUse;
  }

  method TryAdd(F: Graph, n: nat, ghost rank: seq<nat>) returns (r: bool, ghost rank': seq<nat>)
    requires Ready(F.nodes, rank, n) && F.nodes[n].kind.Add?
    modifies F
    ensures var ns := old(F.nodes);
      var a, b := ns[n].ops[0].value, ns[n].ops[1].value;
      && AddOutcome(ns, F.nodes, n, a, b)
      && (r <==> ns[b].kind == Constant(0) || a == b || (ns[b].kind.Constant? && exists x: nat, c: nat :: IsSum(ns, a, x, c)))
    ensures Good(F.nodes, rank') && Preserves(old(F.nodes), F.nodes)
  {
    ghost var ns := F.nodes;
    OperandsReady(ns, rank, n);
    hide Preserves, IsModel, ChainStep, TakesPlace, Exchanged;
    rank' := rank;
    var lhs, rhs := Lhs(F.nodes, n), Rhs(F.nodes, n);
    if F.nodes[rhs].kind == Constant(0) {
      ForwardLeft(F, n, rank);
      return true, rank';
    }
    if F.nodes[lhs].kind.Add? && F.nodes[rhs].kind.Constant? {
      if |F.nodes[lhs].users| > 1 {
        PreservesRefl(ns);
        return false, rank';
      }
      if !F.nodes[Lhs(F.nodes, lhs)].kind.Constant? && F.nodes[Rhs(F.nodes, lhs)].kind.Constant? {
        Reorder(F, n, rank);
        StepExchanges(ns, F.nodes, n);
        return true, rank';
      }
    }
    if lhs == rhs {
      rank' := MakeShift(F, n, rank);
      return true, rank';
    }
    PreservesRefl(ns);
    return false, rank';
  }

  // ---------------------------------------------------------------- constants to the right

  // A live addition or exclusive or with one constant operand has it on the right.
  ghost predicate Canonical(ns: Nodes, n: nat)
    requires n < |ns|
  {
    ((ns[n].kind.Add? || ns[n].kind.Xor?) && ns[n].users != multiset{} && |ns[n].ops| == 2
      && ns[n].ops[0].Some? && ns[n].ops[1].Some? && Lhs(ns, n) < |ns| && Rhs(ns, n) < |ns|
      && ns[Lhs(ns, n)].kind.Constant?) ==> ns[Rhs(ns, n)].kind.Constant?
  }

  function Swapped(ns: Nodes, n: nat): Nodes
    requires n < |ns| && |ns[n].ops| == 2
  {
    ns[n := ns[n].(ops := ns[n].ops[0 := ns[n].ops[1]][1 := ns[n].ops[0]])]
  }

  lemma ApplyCommutes(k: Kind, ty: ValueType, u: nat, v: nat, env: Env)
    requires k.Add? || k.Xor?
    ensures Apply(k, ty, [u, v], env) == Apply(k, ty, [v, u], env)
  {
    hide Reduce;
    XorSymmetric(u, v);
    assert u + v == v + u;
  }

  lemma SwappedAcyclic(ns: Nodes, rank: seq<nat>, n: nat)
    requires Acyclic(ns, rank) && n < |ns| && |ns[n].ops| == 2
    ensures Acyclic(Swapped(ns, n), rank)
  {
    var ns' := Swapped(ns, n);
    forall u, i | 0 <= u < |ns'| && Computed(ns'[u].kind) && 0 <= i < |ns'[u].ops| && ns'[u].ops[i].Some?
      ensures ns'[u].ops[i].value < |ns'| && RankBelow(ns', rank, ns'[u].ops[i].value, u)
    {
      var j := if u == n then 1 - i else i;
      assert RankBelow(ns, rank, ns[u].ops[j].value, u);
    }
  }

  lemma SwappedTyped(ns: Nodes, n: nat)
    requires Typed(ns) && n < |ns| && |ns[n].ops| == 2
    ensures Typed(Swapped(ns, n))
  {
    var ns' := Swapped(ns, n);
    assert ns'[n].ops == [ns[n].ops[1], ns[n].ops[0]];
  }

  lemma SwappedGood(ns: Nodes, rank: seq<nat>, n: nat)
    requires Ready(ns, rank, n) && Dual(Swapped(ns, n))
    ensures Good(Swapped(ns, n), rank)
  {
    SwappedAcyclic(ns, rank, n);
    SwappedTyped(ns, n);
    hide Acyclic, Typed, Dual;
  }

  lemma SwappedRoots(ns: Nodes, n: nat, val: seq<nat>)
    requires InRange(ns) && n < |ns| == |val| && |ns[n].ops| == 2 && Rewritten(ns[n].kind)
    ensures RootsKept(ns, val, Swapped(ns, n), val)
  {
  }

  lemma SwappedMeaning(ns: Nodes, n: nat, env: Env, val: seq<nat>, u: nat)
    requires IsModel(ns, env, val) && n < |ns| && u < |ns| && |ns[n].ops| == 2 && Complete(ns[n])
    requires ns[n].kind.Add? || ns[n].kind.Xor?
    requires Typed(Swapped(ns, n))
    ensures Meaning(Swapped(ns, n), env, val, u) == val[u]
  {
    hide Apply, Reduce;
    var ns' := Swapped(ns, n);
    assert val[u] == Meaning(ns, env, val, u);
    if u == n {
      var a, b := Lhs(ns, n), Rhs(ns, n);
      assert Args(ns[n], val) == [val[a], val[b]];
      assert Args(ns'[n], val) == [val[b], val[a]];
      ApplyCommutes(ns[n].kind, ns[n].ty, val[a], val[b], env);
    }
  }

  lemma SwappedModel(ns: Nodes, n: nat, env: Env, val: seq<nat>)
    requires IsModel(ns, env, val) && n < |ns| && |ns[n].ops| == 2 && Complete(ns[n])
    requires ns[n].kind.Add? || ns[n].kind.Xor?
    requires Typed(Swapped(ns, n))
    ensures IsModel(Swapped(ns, n), env, val) && |val| == |ns| && RootsKept(ns, val, Swapped(ns, n), val)
  {
    hide Meaning, RootsKept;
    var ns' := Swapped(ns, n);
    forall u | 0 <= u < |ns| ensures val[u] == Meaning(ns', env, val, u) {
      SwappedMeaning(ns, n, env, val, u);
    }
    SwappedRoots(ns, n, val);
  }

  lemma SwappedExtends(ns: Nodes, n: nat)
    requires n < |ns| && |ns[n].ops| == 2
    ensures Extends(ns, Swapped(ns, n))
  {
  }

  lemma SwappedPreserves(ns: Nodes, rank: seq<nat>, n: nat)
    requires Ready(ns, rank, n) && Typed(Swapped(ns, n)) && (ns[n].kind.Add? || ns[n].kind.Xor?)
    ensures Preserves(ns, Swapped(ns, n))
  {
    assert Complete(ns[n]);
    hide IsModel, Good, RootsKept, Typed, Swapped, Extends, Complete;
    var ns' := Swapped(ns, n);
    SwappedExtends(ns, n);
    forall env, val | IsModel(ns, env, val)
      ensures exists val' :: IsModel(ns', env, val') && RootsKept(ns, val, ns', val')
    {
      SwappedModel(ns, n, env, val);
      assert IsModel(ns', env, val) && RootsKept(ns, val, ns', val);
    }
  }

  lemma SwappedCanonical(ns: Nodes, n: nat, u: nat)
    requires n < |ns| && u < |ns| && |ns[n].ops| == 2 && ns[n].ops[0].Some? && ns[n].ops[1].Some?
    requires u == n || Canonical(ns, u)
    requires Lhs(ns, n) < |ns| && Rhs(ns, n) < |ns| && !ns[Rhs(ns, n)].kind.Constant?
    ensures Canonical(Swapped(ns, n), u)
  {
    var ns' := Swapped(ns, n);
    assert u == n ==> Lhs(ns', n) == Rhs(ns, n);
  }

  // A used addition or exclusive or with its only constant on the left.
  ghost predicate LeftConstant(ns: Nodes, n: nat) {
    && n < |ns| && (ns[n].kind.Add? || ns[n].kind.Xor?) && ns[n].users != multiset{} && |ns[n].ops| == 2
    && ns[n].ops[0].Some? && ns[n].ops[1].Some? && Lhs(ns, n) < |ns| && Rhs(ns, n) < |ns|
    && ns[Lhs(ns, n)].kind.Constant? && !ns[Rhs(ns, n)].kind.Constant?
  }

  // Exactly the nodes with a left constant, among the first k, have been swapped.
  ghost predicate Canonicalized(ns: Nodes, ns': Nodes, k: nat) {
    && |ns'| == |ns|
    && forall n: nat :: n < |ns| ==> ns'[n] == if n < k && LeftConstant(ns, n) then Swapped(ns, n)[n] else ns[n]
  }

  // n is a used addition or exclusive or of the constant a and of b, which is none.
  ghost predicate ConstantFirst(ns: Nodes, n: nat, a: nat, b: nat) {
    && n < |ns| && (ns[n].kind.Add? || ns[n].kind.Xor?) && ns[n].users != multiset{} && ns[n].ops == [Some(a), Some(b)]
    && a < |ns| && ns[a].kind.Constant? && b < |ns| && !ns[b].kind.Constant?
  }

  // Those operands are exchanged, and nothing else changes.
  ghost predicate ConstantsMoved(ns: Nodes, ns': Nodes) {
    && |ns'| == |ns|
    && (forall n: nat, a: nat, b: nat :: ConstantFirst(ns, n, a, b) ==> ns'[n] == ns[n].(ops := [Some(b), Some(a)]))
    && forall n: nat :: n < |ns| && (forall a: nat, b: nat :: !ConstantFirst(ns, n, a, b)) ==> ns'[n] == ns[n]
  }

  lemma CanonicalizedMoves(ns: Nodes, ns': Nodes)
    requires Canonicalized(ns, ns', |ns|)
    ensures ConstantsMoved(ns, ns')
  {
    forall n: nat, a: nat, b: nat | ConstantFirst(ns, n, a, b) ensures ns'[n] == ns[n].(ops := [Some(b), Some(a)]) {
      assert LeftConstant(ns, n) && ns[n].ops[0 := ns[n].ops[1]][1 := ns[n].ops[0]] == [Some(b), Some(a)];
    }
    forall n: nat | n < |ns| && (forall a: nat, b: nat :: !ConstantFirst(ns, n, a, b)) ensures ns'[n] == ns[n] {
      if LeftConstant(ns, n) {
        OperandsShown(ns, n);
      }
    }
  }

  lemma OperandsShown(ns: Nodes, n: nat)
    requires LeftConstant(ns, n)
    ensures ConstantFirst(ns, n, Lhs(ns, n), Rhs(ns, n))
  {
    assert ns[n].ops == [Some(Lhs(ns, n)), Some(Rhs(ns, n))];
  }

  lemma CanonicalizedNext(ns: Nodes, cur: Nodes, n: nat)
    requires Canonicalized(ns, cur, n) && n < |ns|
    ensures LeftConstant(cur, n) <==> LeftConstant(ns, n)
    ensures Canonicalized(ns, if LeftConstant(ns, n) then Swapped(cur, n) else cur, n + 1)
  {
    assert cur[n] == ns[n];
    assert forall u: nat :: u < |ns| ==> cur[u].kind == ns[u].kind;
  }

  method Canonicalize(F: Graph, ghost rank: seq<nat>)
    requires Good(F.nodes, rank)
    modifies F
    ensures ConstantsMoved(old(F.nodes), F.nodes)
    ensures Good(F.nodes, rank) && Preserves(old(F.nodes), F.nodes)
    ensures forall n :: 0 <= n < |F.nodes| ==> Canonical(F.nodes, n)
  {
    hide Good, Preserves, LeftConstant, Swapped, ConstantsMoved;
    ghost var ns := F.nodes;
    PreservesRefl(ns);
    for n := 0 to |F.nodes|
      invariant Canonicalized(ns, F.nodes, n) && Good(F.nodes, rank) && Preserves(ns, F.nodes)
      invariant forall u :: 0 <= u < n ==> Canonical(F.nodes, u)
    {
      CanonicalizedNext(ns, F.nodes, n);
      CanonicalizeNode(F, n, ns, rank);
    }
    CanonicalizedMoves(ns, F.nodes);
  }

  method CanonicalizeNode(F: Graph, n: nat, ghost ns: Nodes, ghost rank: seq<nat>)
    requires n < |F.nodes| && Good(F.nodes, rank) && Preserves(ns, F.nodes)
    requires forall u :: 0 <= u < n ==> Canonical(F.nodes, u)
    modifies F
    ensures F.nodes == if LeftConstant(old(F.nodes), n) then Swapped(old(F.nodes), n) else old(F.nodes)
    ensures Good(F.nodes, rank) && Preserves(ns, F.nodes)
    ensures forall u :: 0 <= u <= n ==> Canonical(F.nodes, u)
  {
    hide Preserves, Good;
    ghost var cur := F.nodes;
    if (F.nodes[n].kind.Add? || F.nodes[n].kind.Xor?) && F.nodes[n].users != multiset{} {
      LiveIsReady(cur, rank, n);
      GoodIsTyped(cur, rank);
      if F.nodes[Lhs(F.nodes, n)].kind.Constant? && !F.nodes[Rhs(F.nodes, n)].kind.Constant? {
        F.SwapOperands(n, 0, 1);
        SwappedGood(cur, rank, n);
        GoodIsTyped(F.nodes, rank);
        SwappedPreserves(cur, rank, n);
        PreservesTrans(ns, cur, F.nodes);
        forall u | 0 <= u <= n ensures Canonical(F.nodes, u) {
          SwappedCanonical(cur, n, u);
        }
      }
    }
  }

  // ---------------------------------------------------------------- the pass

  method InitialWorkList(F: Graph) returns (res: seq<nat>)
    ensures Candidates(F.nodes, res)
  {
    res := [];
    for n := 0 to |F.nodes|
      invariant forall u: nat :: u in res <==> u < n && Rewritten(F.nodes[u].kind)
      invariant Below(res, n) && Rising(res)
    {
      if Rewritten(F.nodes[n].kind) {
        res := res + [n];
      }
    }
  }

  ghost predicate Rising(xs: seq<nat>) {
    forall i, j :: 0 <= i < j < |xs| ==> xs[i] < xs[j]
  }

  // Every addition, shift and exclusive or, once, in the order of the nodes.
  ghost predicate Candidates(ns: Nodes, work: seq<nat>) {
    && Rising(work) && Below(work, |ns|)
    && forall n: nat :: n in work <==> n < |ns| && Rewritten(ns[n].kind)
  }

  // One node taken from the worklist: an unused node is left alone.
  ghost predicate Step(ns: Nodes, ns': Nodes, n: nat) {
    && n < |ns| && Dual(ns')
    && (ns[n].users == multiset{} ==> ns' == ns)
    && (ns[n].users != multiset{} ==> exists a: nat, b: nat ::
      && a < |ns| && b < |ns| && ns[n].ops == [Some(a), Some(b)]
      && (ns[n].kind.Add? ==> AddOutcome(ns, ns', n, a, b))
      && (ns[n].kind.Shl? ==> ShlOutcome(ns, ns', n, a, b))
      && (ns[n].kind.Xor? ==> XorOutcome(ns, ns', n, a, b)))
  }

  // The nodes of work are taken from the last to the first.
  ghost predicate Steps(work: seq<nat>, trace: seq<Nodes>, k: nat) {
    && |trace| == k + 1 && k <= |work|
    && forall i, j :: 0 <= i < j < |trace| && j == i + 1 ==> Step(trace[i], trace[j], work[|work| - j])
  }

  // trace lists the graphs after canonicalization and after each node.
  method Run(F: Graph, ghost rank: seq<nat>) returns (ghost rank': seq<nat>, ghost work: seq<nat>,
          ghost trace: seq<Nodes>)
    requires Good(F.nodes, rank)
    modifies F
    ensures Candidates(old(F.nodes), work) && Steps(work, trace, |work|)
    ensures ConstantsMoved(old(F.nodes), trace[0]) && F.nodes == trace[|work|]
    ensures Good(F.nodes, rank') && Preserves(old(F.nodes), F.nodes)
  {
    hide Preserves, Good, Step, ConstantsMoved, Candidates;
    ghost var ns := F.nodes;
    Canonicalize(F, rank);
    MovedKinds(ns, F.nodes);
    rank' := rank;
    var workStack := InitialWorkList(F);
    SameCandidates(ns, F.nodes, workStack);
    work := workStack;
    trace := [F.nodes];
    while workStack != []
      invariant Good(F.nodes, rank') && Preserves(ns, F.nodes)
      invariant |workStack| <= |work| && workStack == work[..|workStack|] && Candidates(ns, work)
      invariant Steps(work, trace, |work| - |workStack|) && F.nodes == trace[|work| - |workStack|]
      invariant ConstantsMoved(ns, trace[0])
      decreases |workStack|
    {
      var n := workStack[|workStack| - 1];
      workStack := workStack[..|workStack| - 1];
      KindKept(ns, F.nodes, work, |workStack|);
      rank' := Rewrite(F, n, ns, rank');
      trace := trace + [F.nodes];
    }
  }

  lemma MovedKinds(ns: Nodes, ns': Nodes)
    requires ConstantsMoved(ns, ns')
    ensures |ns'| == |ns| && forall n :: 0 <= n < |ns| ==> ns'[n].kind == ns[n].kind
  {
  }

  lemma SameCandidates(ns: Nodes, ns': Nodes, work: seq<nat>)
    requires |ns'| == |ns| && forall n :: 0 <= n < |ns| ==> ns'[n].kind == ns[n].kind
    requires Candidates(ns', work)
    ensures Candidates(ns, work)
  {
  }

  lemma KindKept(ns: Nodes, cur: Nodes, work: seq<nat>, k: nat)
    requires Preserves(ns, cur) && Candidates(ns, work) && k < |work|
    ensures work[k] < |ns| <= |cur| && Rewritten(cur[work[k]].kind)
  {
    assert work[k] in work;
    hide IsModel, RootsKept;
  }

  method Rewrite(F: Graph, n: nat, ghost ns: Nodes, ghost rank: seq<nat>) returns (ghost rank': seq<nat>)
    requires n < |F.nodes| && Good(F.nodes, rank) && Preserves(ns, F.nodes) && Rewritten(F.nodes[n].kind)
    modifies F
    ensures Step(old(F.nodes), F.nodes, n)
    ensures Good(F.nodes, rank') && Preserves(ns, F.nodes) && |old(F.nodes)| <= |F.nodes|
  {
    hide Preserves, AddOutcome, XorOutcome, ShlOutcome, Acyclic, Typed, LiveComplete;
    ghost var cur := F.nodes;
    rank' := rank;
    if F.nodes[n].users == multiset{} {
      return;
    }
    LiveIsReady(cur, rank, n);
    assert cur[n].ops == [Some(Lhs(cur, n)), Some(Rhs(cur, n))];
    var r: bool;
    if F.nodes[n].kind.Add? {
      r, rank' := TryAdd(F, n, rank);
    } else if F.nodes[n].kind.Shl? {
      r := TryShl(F, n, rank);
    } else {
      r, rank' := TryXor(F, n, rank);
    }
    PreservesTrans(ns, cur, F.nodes);
    PreservesGrows(cur, F.nodes);
  }

  lemma PreservesGrows(ns: Nodes, ns': Nodes)
    requires Preserves(ns, ns')
    ensures |ns| <= |ns'|
  {
  }
}
