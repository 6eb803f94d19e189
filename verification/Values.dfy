// What data nodes compute. A node of a w-bit type holds a value modulo 2^w.
// Arguments, phis, calls and control nodes are leaves with arbitrary values;
// operators that no pass rewrites are uninterpreted.
module Values {
  import opened SeqUtil
  import opened Bits
  import opened UseDef

  function Width(ty: ValueType): nat {
    match ty
    case Void => 0
    case Int1 => 1
    case Int8 => 8
    case Int32 => 32
    case Int64 => 64
    case Ptr => 64
  }

  function Mod(ty: ValueType): (m: nat)
    ensures m > 0
  {
    Pow2(Width(ty))
  }

  lemma ModDigits(ty: ValueType)
    ensures Mod(ty) == match ty
      case Void => 1
      case Int1 => 2
      case Int8 => 0x100
      case Int32 => 0x1_0000_0000
      case Int64 => 0x1_0000_0000_0000_0000
      case Ptr => 0x1_0000_0000_0000_0000
  {
    Powers();
    hide Pow2;
  }

  function Reduce(a: nat, ty: ValueType): (r: nat)
    ensures r < Mod(ty)
  {
    a % Mod(ty)
  }

  datatype Env = Env(leaf: nat -> nat, op: (nat, ValueType, seq<nat>) -> nat)

  predicate Rewritten(k: Kind) {
    k.Add? || k.Xor? || k.Shl?
  }

  predicate Computed(k: Kind) {
    Rewritten(k) || k.Other?
  }

  // A node whose operand slots are all filled. Dead nodes have empty slots.
  predicate Complete(node: Node) {
    forall i :: 0 <= i < |node.ops| ==> node.ops[i].Some?
  }

  predicate Vacant(node: Node) {
    forall i :: 0 <= i < |node.ops| ==> node.ops[i].None?
  }

  // Add, Xor and Shl have two operands of their own type (BinOpNode's constructor),
  // or none once detached.
  ghost predicate Typed(ns: Nodes) {
    && InRange(ns)
    && forall n :: 0 <= n < |ns| && Rewritten(ns[n].kind) ==>
      && |ns[n].ops| == 2
      && (Vacant(ns[n]) || (Complete(ns[n]) && ns[ns[n].ops[0].value].ty == ns[n].ty && ns[ns[n].ops[1].value].ty == ns[n].ty))
  }

  // Data edges run to leaves or to nodes of smaller rank.
  ghost predicate Acyclic(ns: Nodes, rank: seq<nat>) {
    && |rank| == |ns|
    && (forall n, i :: 0 <= n < |ns| && Computed(ns[n].kind) && 0 <= i < |ns[n].ops| && ns[n].ops[i].Some? ==>
      ns[n].ops[i].value < |ns| && RankBelow(ns, rank, ns[n].ops[i].value, n))
  }

  ghost predicate RankBelow(ns: Nodes, rank: seq<nat>, m: nat, n: nat)
    requires |rank| == |ns| && m < |ns| && n < |ns|
  {
    !Computed(ns[m].kind) || rank[m] < rank[n]
  }

  function Args(node: Node, val: seq<nat>): seq<nat>
    requires Complete(node) && forall i :: 0 <= i < |node.ops| ==> node.ops[i].value < |val|
  {
    seq(|node.ops|, i requires 0 <= i < |node.ops| => val[node.ops[i].value])
  }

  function Shifted(v: nat, k: nat): nat {
    v * Pow2(k)
  }

  // The value of a complete computed node, given the values of its operands.
  function Apply(kind: Kind, ty: ValueType, args: seq<nat>, env: Env): nat
    requires Computed(kind) && (Rewritten(kind) ==> |args| == 2)
  {
    match kind
    case Add => Reduce(args[0] + args[1], ty)
    case Xor => Reduce(Bits.Xor(args[0], args[1]), ty)
    case Shl => Reduce(Shifted(args[0], args[1]), ty)
    case Other(o) => Reduce(env.op(o, ty, args), ty)
  }

  // The value that node n must have.
  function Meaning(ns: Nodes, env: Env, val: seq<nat>, n: nat): nat
    requires n < |ns| == |val| && InRange(ns) && (Rewritten(ns[n].kind) ==> |ns[n].ops| == 2)
  {
    var node := ns[n];
    if node.kind.Constant? then Reduce(node.kind.value, node.ty)
    else if !Computed(node.kind) then Reduce(env.leaf(n), node.ty)
    else if !Complete(node) then 0
    else Apply(node.kind, node.ty, Args(node, val), env)
  }

  ghost predicate IsModel(ns: Nodes, env: Env, val: seq<nat>) {
    && Typed(ns) && |val| == |ns|
    && forall n :: 0 <= n < |ns| ==> val[n] == Meaning(ns, env, val, n)
  }

  // ---------------------------------------------------------------- every graph has one meaning

  ghost function Eval(ns: Nodes, rank: seq<nat>, env: Env, n: nat): nat
    requires Typed(ns) && Acyclic(ns, rank) && n < |ns|
    decreases if Computed(ns[n].kind) then 1 + rank[n] else 0
  {
    var node := ns[n];
    if node.kind.Constant? then Reduce(node.kind.value, node.ty)
    else if !Computed(node.kind) then Reduce(env.leaf(n), node.ty)
    else if !Complete(node) then 0
    else Apply(node.kind, node.ty,
      seq(|node.ops|, i requires 0 <= i < |node.ops| =>
        assert RankBelow(ns, rank, node.ops[i].value, n);
        Eval(ns, rank, env, node.ops[i].value)), env)
  }

  lemma ModelExists(ns: Nodes, rank: seq<nat>, env: Env) returns (val: seq<nat>)
    requires Typed(ns) && Acyclic(ns, rank)
    ensures IsModel(ns, env, val)
  {
    val := seq(|ns|, n requires 0 <= n < |ns| => Eval(ns, rank, env, n));
    forall n | 0 <= n < |ns| ensures val[n] == Meaning(ns, env, val, n) {
      if Computed(ns[n].kind) && Complete(ns[n]) {
        assert Args(ns[n], val) == seq(|ns[n].ops|, i requires 0 <= i < |ns[n].ops| =>
          assert RankBelow(ns, rank, ns[n].ops[i].value, n);
          Eval(ns, rank, env, ns[n].ops[i].value));
      }
    }
  }

  lemma {:induction false} ModelUnique(ns: Nodes, rank: seq<nat>, env: Env, v1: seq<nat>, v2: seq<nat>, n: nat)
    requires IsModel(ns, env, v1) && IsModel(ns, env, v2) && Acyclic(ns, rank) && n < |ns|
    ensures v1[n] == v2[n]
    decreases if Computed(ns[n].kind) then 1 + rank[n] else 0
  {
    assert v1[n] == Meaning(ns, env, v1, n) && v2[n] == Meaning(ns, env, v2, n);
    if Computed(ns[n].kind) && Complete(ns[n]) {
      forall i | 0 <= i < |ns[n].ops| ensures v1[ns[n].ops[i].value] == v2[ns[n].ops[i].value] {
        assert RankBelow(ns, rank, ns[n].ops[i].value, n);
        ModelUnique(ns, rank, env, v1, v2, ns[n].ops[i].value);
      }
      assert Args(ns[n], v1) == Args(ns[n], v2);
    }
  }

  // ---------------------------------------------------------------- what a pass must keep

  // Nodes whose operands are observed: phis, returns, branches, calls and checks.
  predicate Root(k: Kind) {
    !Rewritten(k) && !k.Other?
  }

  // The operand slot keeps its value; an operand that is not rewritten stays itself.
  ghost predicate SlotKept(ns: Nodes, val: seq<nat>, val': seq<nat>, s: Slot, s': Slot)
    requires |val| == |ns|
  {
    match s
    case None => s' == None
    case Some(m) =>
      && s'.Some? && m < |val| && s'.value < |val'|
      && val'[s'.value] == val[m]
      && (!Rewritten(ns[m].kind) ==> s' == s)
  }

  ghost predicate RootsKept(ns: Nodes, val: seq<nat>, ns': Nodes, val': seq<nat>)
    requires |val| == |ns| <= |ns'|
  {
    forall r :: 0 <= r < |ns| && Root(ns[r].kind) ==>
      && |ns'[r].ops| == |ns[r].ops|
      && forall i :: 0 <= i < |ns[r].ops| ==> SlotKept(ns, val, val', ns[r].ops[i], ns'[r].ops[i])
  }

  // ns' extends ns: kinds and types stay, and new nodes are constants or rewritten.
  ghost predicate Extends(ns: Nodes, ns': Nodes) {
    && |ns| <= |ns'|
    && (forall n :: 0 <= n < |ns| ==> ns'[n].kind == ns[n].kind && ns'[n].ty == ns[n].ty)
    && forall n :: |ns| <= n < |ns'| ==> ns'[n].kind.Constant? || Rewritten(ns'[n].kind)
  }

  // Every meaning of ns carries over to ns' with all observed operands unchanged.
  ghost predicate Preserves(ns: Nodes, ns': Nodes) {
    && Extends(ns, ns')
    && forall env, val :: IsModel(ns, env, val) ==>
      exists val' :: IsModel(ns', env, val') && RootsKept(ns, val, ns', val')
  }

  lemma PreservesRefl(ns: Nodes)
    ensures Preserves(ns, ns)
  {
    forall env, val | IsModel(ns, env, val)
      ensures exists val' :: IsModel(ns, env, val') && RootsKept(ns, val, ns, val')
    {
      assert RootsKept(ns, val, ns, val);
    }
  }

  lemma RootsKeptTrans(a: Nodes, va: seq<nat>, b: Nodes, vb: seq<nat>, c: Nodes, vc: seq<nat>)
    requires |va| == |a| <= |b| == |vb| <= |c|
    requires Extends(a, b) && RootsKept(a, va, b, vb) && RootsKept(b, vb, c, vc)
    ensures RootsKept(a, va, c, vc)
  {
    forall r | 0 <= r < |a| && Root(a[r].kind)
      ensures |c[r].ops| == |a[r].ops|
      ensures forall i :: 0 <= i < |a[r].ops| ==> SlotKept(a, va, vc, a[r].ops[i], c[r].ops[i])
    {
      assert Root(b[r].kind);
      forall i | 0 <= i < |a[r].ops| ensures SlotKept(a, va, vc, a[r].ops[i], c[r].ops[i]) {
        assert SlotKept(a, va, vb, a[r].ops[i], b[r].ops[i]);
        assert SlotKept(b, vb, vc, b[r].ops[i], c[r].ops[i]);
      }
    }
  }

  lemma PreservesTrans(a: Nodes, b: Nodes, c: Nodes)
    requires Preserves(a, b) && Preserves(b, c)
    ensures Preserves(a, c)
  {
    forall env, va | IsModel(a, env, va)
      ensures exists vc :: IsModel(c, env, vc) && RootsKept(a, va, c, vc)
    {
      var vb :| IsModel(b, env, vb) && RootsKept(a, va, b, vb);
      var vc :| IsModel(c, env, vc) && RootsKept(b, vb, c, vc);
      RootsKeptTrans(a, va, b, vb, c, vc);
    }
  }

  // For acyclic graphs: the one meaning of ns and the one meaning of ns' agree on
  // every observed operand.
  lemma PreservesMeaning(ns: Nodes, rank: seq<nat>, ns': Nodes, rank': seq<nat>, env: Env, val: seq<nat>,
          val': seq<nat>)
    requires Preserves(ns, ns') && Acyclic(ns, rank) && Acyclic(ns', rank')
    requires IsModel(ns, env, val) && IsModel(ns', env, val')
    ensures RootsKept(ns, val, ns', val')
  {
    var v :| IsModel(ns', env, v) && RootsKept(ns, val, ns', v);
    forall n | 0 <= n < |ns'| ensures v[n] == val'[n] {
      ModelUnique(ns', rank', env, v, val', n);
    }
    assert v == val';
  }

  // ---------------------------------------------------------------- the state every pass works on

  // Rewritten nodes in use have both operands; detached ones have no users.
  ghost predicate LiveComplete(ns: Nodes) {
    forall n :: 0 <= n < |ns| && Rewritten(ns[n].kind) && ns[n].users != multiset{} ==> Complete(ns[n])
  }

  ghost predicate Good(ns: Nodes, rank: seq<nat>) {
    Dual(ns) && Typed(ns) && Acyclic(ns, rank) && LiveComplete(ns)
  }

  lemma ValueBelow(ns: Nodes, env: Env, val: seq<nat>, n: nat)
    requires IsModel(ns, env, val) && n < |ns|
    ensures val[n] < Mod(ns[n].ty)
  {
    assert val[n] == Meaning(ns, env, val, n);
  }

  // ---------------------------------------------------------------- replacing a node by an equal one

  // n gives way to m and is then detached.
  ghost predicate Replaced(ns: Nodes, ns': Nodes, n: nat, m: nat) {
    && |ns'| == |ns| && n < |ns| && Dual(ns')
    && forall u :: 0 <= u < |ns| ==>
      && ns'[u].kind == ns[u].kind && ns'[u].ty == ns[u].ty
      && ns'[u].ops == if u == n then Empty(|ns[n].ops|) else SubstSlots(ns[u].ops, n, Some(m))
  }

  lemma SubstitutedThenDetached(ns: Nodes, ns1: Nodes, ns2: Nodes, n: nat, m: nat)
    requires n < |ns| && m != n && Substituted(ns, ns1, n, Some(m)) && Detached(ns1, ns2, n)
    ensures Replaced(ns, ns2, n, m)
  {
    forall u | 0 <= u < |ns| && u != n ensures ns2[u].ops == SubstSlots(ns[u].ops, n, Some(m)) {
      assert ns2[u].ops == SubstSlots(ns1[u].ops, n, None);
    }
  }

  // n may be replaced by m: same type, and m below whatever used n.
  ghost predicate CanReplace(ns: Nodes, rank: seq<nat>, n: nat, m: nat) {
    && Good(ns, rank) && n < |ns| && m < |ns| && n != m
    && Rewritten(ns[n].kind) && Complete(ns[n]) && ns[m].ty == ns[n].ty
    && (Computed(ns[m].kind) ==> rank[m] <= rank[n])
    && (Rewritten(ns[m].kind) ==> Complete(ns[m]))
  }

  lemma ReplacedTypedAt(ns: Nodes, ns': Nodes, n: nat, m: nat, u: nat)
    requires Typed(ns) && n < |ns| && m < |ns| && n != m && ns[m].ty == ns[n].ty && Replaced(ns, ns', n, m)
    requires u < |ns'| && Rewritten(ns'[u].kind)
    ensures |ns'[u].ops| == 2
    ensures Vacant(ns'[u]) || (Complete(ns'[u]) && ns'[ns'[u].ops[0].value].ty == ns'[u].ty && ns'[ns'[u].ops[1].value].ty == ns'[u].ty)
  {
    hide Uses;
    assert |ns[u].ops| == 2 && ns'[u].kind == ns[u].kind && ns'[u].ty == ns[u].ty;
    if u != n {
      assert ns'[u].ops == SubstSlots(ns[u].ops, n, Some(m));
      if Vacant(ns[u]) {
        assert ns'[u].ops[0] == None && ns'[u].ops[1] == None;
      } else {
        assert ns'[u].ops[0].Some? && ns'[u].ops[1].Some?;
      }
    }
  }

  lemma ReplacedTyped(ns: Nodes, rank: seq<nat>, ns': Nodes, n: nat, m: nat)
    requires CanReplace(ns, rank, n, m) && Replaced(ns, ns', n, m)
    ensures Typed(ns')
  {
    hide Acyclic, LiveComplete, Uses;
    forall u | 0 <= u < |ns'| && Rewritten(ns'[u].kind)
      ensures |ns'[u].ops| == 2
      ensures Vacant(ns'[u]) || (Complete(ns'[u]) && ns'[ns'[u].ops[0].value].ty == ns'[u].ty && ns'[ns'[u].ops[1].value].ty == ns'[u].ty)
    {
      ReplacedTypedAt(ns, ns', n, m, u);
    }
  }

  lemma ReplacedAcyclic(ns: Nodes, rank: seq<nat>, ns': Nodes, n: nat, m: nat)
    requires CanReplace(ns, rank, n, m) && Replaced(ns, ns', n, m)
    ensures Acyclic(ns', rank)
  {
    forall u, i | 0 <= u < |ns'| && Computed(ns'[u].kind) && 0 <= i < |ns'[u].ops| && ns'[u].ops[i].Some?
      ensures ns'[u].ops[i].value < |ns'| && RankBelow(ns', rank, ns'[u].ops[i].value, u)
    {
      assert ns[u].ops[i].Some? && RankBelow(ns, rank, ns[u].ops[i].value, u);
    }
  }

  // A node used after the replacement was used before, or is m.
  lemma UsedBefore(ns: Nodes, ns': Nodes, n: nat, m: nat, u: nat)
    requires Dual(ns) && n < |ns| && Replaced(ns, ns', n, m) && u < |ns| && ns'[u].users != multiset{} && u != m
    ensures u != n && ns[u].users != multiset{}
  {
    var w :| w in ns'[u].users;
    var i := UserHasSlot(ns', u, w);
    hide Dual;
    assert w != n && ns[w].ops[i] == Some(u) && u != n;
    SlotHasUser(ns, w, i, u);
  }

  lemma ReplacedLive(ns: Nodes, rank: seq<nat>, ns': Nodes, n: nat, m: nat)
    requires CanReplace(ns, rank, n, m) && Replaced(ns, ns', n, m)
    ensures LiveComplete(ns')
  {
    hide Dual, Typed, Acyclic;
    forall u | 0 <= u < |ns'| && Rewritten(ns'[u].kind) && ns'[u].users != multiset{} ensures Complete(ns'[u]) {
      if u != m {
        UsedBefore(ns, ns', n, m, u);
        assert Complete(ns[u]);
      }
    }
  }

  // The values of the other nodes stay; n, now dead, reads as zero.
  lemma ReplacedMeaning(ns: Nodes, rank: seq<nat>, ns': Nodes, n: nat, m: nat, env: Env, val: seq<nat>, u: nat)
    requires CanReplace(ns, rank, n, m) && Replaced(ns, ns', n, m) && Typed(ns') && u < |ns|
    requires IsModel(ns, env, val) && val[n] == val[m]
    ensures Meaning(ns', env, val[n := 0], u) == val[n := 0][u]
  {
    assert val[u] == Meaning(ns, env, val, u);
    if u == n {
      assert |ns[n].ops| == 2 && ns'[n].ops[0] == None;
    } else if Computed(ns[u].kind) && Complete(ns[u]) {
      assert Complete(ns'[u]);
      assert Args(ns'[u], val[n := 0]) == Args(ns[u], val);
    } else if Computed(ns[u].kind) {
      var i :| 0 <= i < |ns[u].ops| && ns[u].ops[i].None?;
      assert ns'[u].ops[i].None?;
    }
  }

  lemma ReplacedPreserves(ns: Nodes, rank: seq<nat>, ns': Nodes, n: nat, m: nat)
    requires CanReplace(ns, rank, n, m) && Replaced(ns, ns', n, m)
    requires forall env, val :: IsModel(ns, env, val) ==> val[n] == val[m]
    ensures Good(ns', rank) && Preserves(ns, ns')
  {
    ReplacedTyped(ns, rank, ns', n, m);
    ReplacedAcyclic(ns, rank, ns', n, m);
    ReplacedLive(ns, rank, ns', n, m);
    forall env, val | IsModel(ns, env, val)
      ensures exists val' :: IsModel(ns', env, val') && RootsKept(ns, val, ns', val')
    {
      var val' := val[n := 0];
      forall u | 0 <= u < |ns| ensures Meaning(ns', env, val', u) == val'[u] {
        ReplacedMeaning(ns, rank, ns', n, m, env, val, u);
      }
      assert IsModel(ns', env, val');
      ReplacedRoots(ns, rank, ns', n, m, val);
    }
  }

  lemma ReplacedRoots(ns: Nodes, rank: seq<nat>, ns': Nodes, n: nat, m: nat, val: seq<nat>)
    requires CanReplace(ns, rank, n, m) && Replaced(ns, ns', n, m) && |val| == |ns| && val[n] == val[m]
    ensures RootsKept(ns, val, ns', val[n := 0])
  {
    forall r | 0 <= r < |ns| && Root(ns[r].kind)
      ensures |ns'[r].ops| == |ns[r].ops|
      ensures forall i :: 0 <= i < |ns[r].ops| ==> SlotKept(ns, val, val[n := 0], ns[r].ops[i], ns'[r].ops[i])
    {
    }
  }

  // ---------------------------------------------------------------- adding a node

  ghost predicate CanCreate(ns: Nodes, rank: seq<nat>, kind: Kind, ty: ValueType, ops: seq<Slot>, r: nat) {
    && Good(ns, rank)
    && (forall i :: 0 <= i < |ops| ==> ops[i].Some? && ops[i].value < |ns|)
    && (kind.Constant? || (Rewritten(kind) && |ops| == 2))
    && (forall i :: 0 <= i < |ops| && Rewritten(ns[ops[i].value].kind) ==> Complete(ns[ops[i].value]))
    && (Rewritten(kind) ==> forall i :: 0 <= i < |ops| ==>
      && ns[ops[i].value].ty == ty
      && (Computed(ns[ops[i].value].kind) ==> rank[ops[i].value] < r))
  }

  lemma CreatedAcyclic(ns: Nodes, rank: seq<nat>, ns': Nodes, kind: Kind, ty: ValueType, ops: seq<Slot>, r: nat)
    requires CanCreate(ns, rank, kind, ty, ops, r) && Created(ns, ns', kind, ty, ops)
    ensures Acyclic(ns', rank + [r])
  {
    var rank' := rank + [r];
    forall u, i | 0 <= u < |ns'| && Computed(ns'[u].kind) && 0 <= i < |ns'[u].ops| && ns'[u].ops[i].Some?
      ensures ns'[u].ops[i].value < |ns'| && RankBelow(ns', rank', ns'[u].ops[i].value, u)
    {
      if u < |ns| {
        assert SameButUsers(ns'[u], ns[u]);
        var m := ns[u].ops[i].value;
        assert RankBelow(ns, rank, m, u) && SameButUsers(ns'[m], ns[m]);
      } else {
        assert SameButUsers(ns'[ops[i].value], ns[ops[i].value]);
      }
    }
  }

  lemma CreatedTyped(ns: Nodes, rank: seq<nat>, ns': Nodes, kind: Kind, ty: ValueType, ops: seq<Slot>, r: nat)
    requires CanCreate(ns, rank, kind, ty, ops, r) && Created(ns, ns', kind, ty, ops)
    ensures Typed(ns')
  {
    hide Dual, Acyclic, LiveComplete;
    forall u | 0 <= u < |ns'| && Rewritten(ns'[u].kind)
      ensures |ns'[u].ops| == 2
      ensures Vacant(ns'[u]) || (Complete(ns'[u]) && ns'[ns'[u].ops[0].value].ty == ns'[u].ty && ns'[ns'[u].ops[1].value].ty == ns'[u].ty)
    {
      if u < |ns| {
        assert SameButUsers(ns'[u], ns[u]);
      }
    }
  }

  lemma CreatedGood(ns: Nodes, rank: seq<nat>, ns': Nodes, kind: Kind, ty: ValueType, ops: seq<Slot>, r: nat)
    requires CanCreate(ns, rank, kind, ty, ops, r) && Created(ns, ns', kind, ty, ops)
    ensures Good(ns', rank + [r])
  {
    CreatedAcyclic(ns, rank, ns', kind, ty, ops, r);
    CreatedLive(ns, rank, ns', kind, ty, ops, r);
    assert Typed(ns') by {
      CreatedTyped(ns, rank, ns', kind, ty, ops, r);
    }
    hide Acyclic, LiveComplete, Typed, CanCreate;
  }

  lemma CreatedLive(ns: Nodes, rank: seq<nat>, ns': Nodes, kind: Kind, ty: ValueType, ops: seq<Slot>, r: nat)
    requires CanCreate(ns, rank, kind, ty, ops, r) && Created(ns, ns', kind, ty, ops)
    ensures LiveComplete(ns')
  {
    forall u | 0 <= u < |ns'| && Rewritten(ns'[u].kind) && ns'[u].users != multiset{} ensures Complete(ns'[u]) {
      if u < |ns| {
        assert SameButUsers(ns'[u], ns[u]);
        var w :| w in ns'[u].users;
        var i := UserHasSlot(ns', u, w);
        if w < |ns| {
          assert SameButUsers(ns'[w], ns[w]);
          SlotHasUser(ns, w, i, u);
        }
      }
    }
  }

  lemma CreatedPreserves(ns: Nodes, rank: seq<nat>, ns': Nodes, kind: Kind, ty: ValueType, ops: seq<Slot>, r: nat)
    requires CanCreate(ns, rank, kind, ty, ops, r) && Created(ns, ns', kind, ty, ops) && Good(ns', rank + [r])
    ensures Preserves(ns, ns')
  {
    forall env, val | IsModel(ns, env, val)
      ensures exists val' :: IsModel(ns', env, val') && RootsKept(ns, val, ns', val')
    {
      var val' := ExtendedModel(ns, rank, ns', kind, ty, ops, r, env, val);
      assert RootsKept(ns, val, ns', val') by {
        assert forall u :: 0 <= u < |ns| ==> SameButUsers(ns'[u], ns[u]);
      }
    }
  }

  lemma ExtendedModel(ns: Nodes, rank: seq<nat>, ns': Nodes, kind: Kind, ty: ValueType, ops: seq<Slot>, r: nat,
          env: Env, val: seq<nat>)
    returns (val': seq<nat>)
    requires CanCreate(ns, rank, kind, ty, ops, r) && Created(ns, ns', kind, ty, ops) && Good(ns', rank + [r])
    requires IsModel(ns, env, val)
    ensures IsModel(ns', env, val') && |val'| == |ns'| && val'[..|ns|] == val
  {
    hide Dual, Acyclic, LiveComplete, Apply;
    var n := |ns|;
    val' := val + [Meaning(ns', env, val + [0], n)];
    forall u | 0 <= u < |ns'| ensures val'[u] == Meaning(ns', env, val', u) {
      if u < n {
        assert SameButUsers(ns'[u], ns[u]);
        assert val[u] == Meaning(ns, env, val, u);
        if Computed(ns[u].kind) && Complete(ns[u]) {
          assert Args(ns'[u], val') == Args(ns[u], val);
        }
      } else if Computed(kind) {
        assert Args(ns'[n], val') == Args(ns'[n], val + [0]);
      }
    }
  }
}
