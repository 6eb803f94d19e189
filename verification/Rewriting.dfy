// Steps shared by the rewriting passes: reading the operands of a live node and
// replacing a node by an equal one.
module Rewriting {
  import opened SeqUtil
  import opened Bits
  import opened UseDef
  import opened Values

  // A rewritten node with both operands in place.
  ghost predicate Ready(ns: Nodes, rank: seq<nat>, n: nat) {
    && Good(ns, rank) && n < |ns| && Rewritten(ns[n].kind)
    && |ns[n].ops| == 2 && ns[n].ops[0].Some? && ns[n].ops[1].Some?
    && Lhs(ns, n) < |ns| && Rhs(ns, n) < |ns|
  }

  function Lhs(ns: Nodes, n: nat): nat
    requires n < |ns| && |ns[n].ops| == 2 && ns[n].ops[0].Some?
  {
    ns[n].ops[0].value
  }

  function Rhs(ns: Nodes, n: nat): nat
    requires n < |ns| && |ns[n].ops| == 2 && ns[n].ops[1].Some?
  {
    ns[n].ops[1].value
  }

  lemma OperandsReady(ns: Nodes, rank: seq<nat>, n: nat)
    requires Ready(ns, rank, n)
    ensures Lhs(ns, n) != n && Rhs(ns, n) != n
    ensures ns[Lhs(ns, n)].ty == ns[n].ty && ns[Rhs(ns, n)].ty == ns[n].ty
    ensures RankBelow(ns, rank, Lhs(ns, n), n) && RankBelow(ns, rank, Rhs(ns, n), n)
    ensures forall m :: (m == Lhs(ns, n) || m == Rhs(ns, n)) && Rewritten(ns[m].kind) ==> Ready(ns, rank, m)
  {
    SlotHasUser(ns, n, 0, Lhs(ns, n));
    SlotHasUser(ns, n, 1, Rhs(ns, n));
  }

  lemma LiveIsReady(ns: Nodes, rank: seq<nat>, n: nat)
    requires Good(ns, rank) && n < |ns| && Rewritten(ns[n].kind) && ns[n].users != multiset{}
    ensures Ready(ns, rank, n)
  {
  }

  // n gives way to a fresh node; k nodes were added.
  ghost predicate ReplacedByNew(ns: Nodes, ns': Nodes, n: nat, k: nat)
  {
    && |ns'| == |ns| + k && n < |ns| && k > 0 && Dual(ns')
    && forall u :: 0 <= u < |ns| ==>
      && ns'[u].kind == ns[u].kind && ns'[u].ty == ns[u].ty
      && ns'[u].ops == if u == n then Empty(|ns[n].ops|) else SubstSlots(ns[u].ops, n, Some(|ns| + k - 1))
  }

  // Every slot that held n holds m; n holds nothing and nothing holds it. All other
  // slots, the kinds and the types are as they were.
  ghost predicate TakesPlace(ns: Nodes, ns': Nodes, n: nat, m: nat) {
    && n < |ns| <= |ns'| && m < |ns'|
    && ns'[n].users == multiset{} && (forall i :: 0 <= i < |ns'[n].ops| ==> ns'[n].ops[i] == None)
    && (forall u :: 0 <= u < |ns| ==>
      ns'[u].kind == ns[u].kind && ns'[u].ty == ns[u].ty && |ns'[u].ops| == |ns[u].ops|)
    && forall u, i :: 0 <= u < |ns| && u != n && 0 <= i < |ns[u].ops| ==>
      ns'[u].ops[i] == if ns[u].ops[i] == Some(n) then Some(m) else ns[u].ops[i]
  }

  // No user is left once no slot holds the node.
  lemma NoSlotNoUser(ns: Nodes, n: nat)
    requires Dual(ns) && n < |ns|
    requires forall u, i :: 0 <= u < |ns| && 0 <= i < |ns[u].ops| ==> ns[u].ops[i] != Some(n)
    ensures ns[n].users == multiset{}
  {
    forall u: nat ensures ns[n].users[u] == 0 {
      assert u < |ns| ==> Some(n) !in ns[u].ops;
      assert ns[n].users[u] == Uses(ns, u, n);
    }
  }

  lemma ReplacedTakesPlace(ns: Nodes, ns': Nodes, n: nat, m: nat)
    requires Replaced(ns, ns', n, m) && m < |ns| && m != n
    ensures TakesPlace(ns, ns', n, m)
  {
    hide Uses;
    NoSlotNoUser(ns', n);
  }

  lemma NewCount(ns: Nodes, ns': Nodes, n: nat, k: nat)
    requires ReplacedByNew(ns, ns', n, k)
    ensures |ns'| == |ns| + k && n < |ns|
  {
  }

  lemma NewTakesPlace(ns: Nodes, ns': Nodes, n: nat, k: nat)
    requires ReplacedByNew(ns, ns', n, k)
    requires forall u, i :: |ns| <= u < |ns'| && 0 <= i < |ns'[u].ops| ==> ns'[u].ops[i] != Some(n)
    ensures TakesPlace(ns, ns', n, |ns| + k - 1)
  {
    hide Uses;
    NoSlotNoUser(ns', n);
  }

  // The equation that defines a rewritten node.
  lemma NodeEquation(ns: Nodes, n: nat, env: Env, val: seq<nat>)
    requires IsModel(ns, env, val) && n < |ns| && Rewritten(ns[n].kind)
    requires |ns[n].ops| == 2 && Complete(ns[n])
    ensures Lhs(ns, n) < |val| && Rhs(ns, n) < |val|
    ensures val[n] == Apply(ns[n].kind, ns[n].ty, [val[Lhs(ns, n)], val[Rhs(ns, n)]], env)
    ensures val[Lhs(ns, n)] < Mod(ns[n].ty)
  {
    hide Apply, Mod;
    assert val[n] == Meaning(ns, env, val, n);
    assert Args(ns[n], val) == [val[Lhs(ns, n)], val[Rhs(ns, n)]];
    ValueBelow(ns, env, val, Lhs(ns, n));
  }

  // What a rewritten node reads as, with w-bit arithmetic written out: a sum, the first
  // operand doubled as often as the second says, or the bits in which they differ.
  lemma OperatorMeaning(ns: Nodes, n: nat, a: nat, b: nat, env: Env, val: seq<nat>)
    requires IsModel(ns, env, val) && n < |ns| && a < |ns| && b < |ns| && ns[n].ops == [Some(a), Some(b)]
    ensures ns[n].kind.Add? ==> val[n] == (val[a] + val[b]) % Mod(ns[n].ty)
    ensures ns[n].kind.Shl? ==> exists r: nat :: IsDoubled(val[a], val[b], r) && val[n] == r % Mod(ns[n].ty)
    ensures ns[n].kind.Xor? ==> forall i: nat :: BitAt(val[n], i) == if BitAt(val[a], i) != BitAt(val[b], i) then 1 else 0
  {
    hide Mod, Width, IsModel, BitAt;
    if Rewritten(ns[n].kind) {
      NodeEquation(ns, n, env, val);
      ModelLength(ns, env, val);
      DoubledTimes(val[a], val[b], Shifted(val[a], val[b]));
      if ns[n].kind.Xor? {
        ModelTypes(ns, n, env, val);
        XorFits(val[a], val[b], ns[n].ty);
        forall i: nat ensures BitAt(val[n], i) == if BitAt(val[a], i) != BitAt(val[b], i) then 1 else 0 {
          XorBit(val[a], val[b], i);
        }
      }
    }
  }

  lemma ModelTypes(ns: Nodes, n: nat, env: Env, val: seq<nat>)
    requires IsModel(ns, env, val) && n < |ns| && Rewritten(ns[n].kind) && |ns[n].ops| == 2 && Complete(ns[n])
    ensures Lhs(ns, n) < |val| && Rhs(ns, n) < |val|
    ensures val[Lhs(ns, n)] < Mod(ns[n].ty) && val[Rhs(ns, n)] < Mod(ns[n].ty)
  {
    hide Mod;
    ValueBelow(ns, env, val, Lhs(ns, n));
    ValueBelow(ns, env, val, Rhs(ns, n));
  }

  lemma XorFits(a: nat, b: nat, ty: ValueType)
    requires a < Mod(ty) && b < Mod(ty)
    ensures Reduce(Bits.Xor(a, b), ty) == Bits.Xor(a, b)
  {
    XorMod(a, b, Width(ty));
    hide Width, Bits.Xor;
    ModSmall(a, Mod(ty));
    ModSmall(b, Mod(ty));
  }

  lemma ConstantValue(ns: Nodes, n: nat, env: Env, val: seq<nat>)
    requires IsModel(ns, env, val) && n < |ns| && ns[n].kind.Constant?
    ensures val[n] == Reduce(ns[n].kind.value, ns[n].ty)
  {
    hide Mod;
    assert val[n] == Meaning(ns, env, val, n);
  }

  lemma ModelLength(ns: Nodes, env: Env, val: seq<nat>)
    requires IsModel(ns, env, val)
    ensures |val| == |ns| && Typed(ns) && InRange(ns)
  {
  }

  method ForwardTo(F: Graph, n: nat, m: nat, ghost rank: seq<nat>)
    requires CanReplace(F.nodes, rank, n, m)
    modifies F
    ensures Replaced(old(F.nodes), F.nodes, n, m)
  {
    ghost var ns := F.nodes;
    F.ReplaceWith(n, Some(m));
    ghost var ns1 := F.nodes;
    F.Detach(n);
    SubstitutedThenDetached(ns, ns1, F.nodes, n, m);
  }

  lemma NewThenReplaced(ns: Nodes, ns1: Nodes, ns2: Nodes, n: nat, kind: Kind, ty: ValueType, ops: seq<Slot>)
    requires n < |ns| && Created(ns, ns1, kind, ty, ops) && Replaced(ns1, ns2, n, |ns|)
    requires forall i :: 0 <= i < |ops| ==> ops[i] != Some(n)
    ensures ReplacedByNew(ns, ns2, n, 1)
    ensures ns2[|ns|].kind == kind && ns2[|ns|].ty == ty && ns2[|ns|].ops == ops
  {
    assert forall u :: 0 <= u < |ns| ==> SameButUsers(ns1[u], ns[u]);
  }

  lemma CreatedIs(ns: Nodes, ns': Nodes, kind: Kind, ty: ValueType, ops: seq<Slot>)
    requires Created(ns, ns', kind, ty, ops)
    ensures |ns'| == |ns| + 1 && ns'[|ns|].kind == kind && ns'[|ns|].ty == ty && ns'[|ns|].ops == ops
  {
  }

  lemma GoodIsTyped(ns: Nodes, rank: seq<nat>)
    requires Good(ns, rank)
    ensures Typed(ns) && Dual(ns)
  {
  }
}
