// The node graph: every node has operand slots and the multiset of its users
// (Node in src/Node.hpp). Nodes are named by their position in the node table;
// a region node carries the number of its region in the control-flow graph.
module UseDef {
  import opened SeqUtil

  datatype ValueType = Void | Int1 | Int8 | Int32 | Int64 | Ptr

  datatype Kind =
    | Constant(value: nat)
    | FunctionArg(idx: nat)
    | Phi
    | Add
    | Xor
    | Shl
    | Other(opcode: nat)
    | Start(region: nat)
    | End(region: nat)
    | Region(region: nat)
    | If
    | IfTrue
    | IfFalse
    | Jmp
    | Ret
    | Call(callee: nat)
    | NullCheck
    | BoundsCheck
  {
    // RegionNodeBase: the start and the end of a function are regions, but not RegionNodes.
    predicate IsRegion() {
      Start? || End? || Region?
    }

    // CFNode and its subclasses.
    predicate IsControl() {
      IsRegion() || If? || IfTrue? || IfFalse? || Jmp? || Ret? || Call? || NullCheck? || BoundsCheck?
    }
  }

  type Slot = Option<nat>

  datatype Node = Node(kind: Kind, ty: ValueType, ops: seq<Slot>, users: multiset<nat>)

  type Nodes = seq<Node>

  // ---------------------------------------------------------------- duality

  ghost predicate InRange(ns: Nodes) {
    forall u, i :: 0 <= u < |ns| && 0 <= i < |ns[u].ops| && ns[u].ops[i].Some? ==> ns[u].ops[i].value < |ns|
  }

  // How many operand slots of u hold n.
  function Uses(ns: Nodes, u: nat, n: nat): nat {
    if u < |ns| then multiset(ns[u].ops)[Some(n)] else 0
  }

  // u is a user of n as often as slots of u hold n.
  ghost predicate Dual(ns: Nodes) {
    && InRange(ns)
    && forall n, u: nat :: 0 <= n < |ns| ==> ns[n].users[u] == Uses(ns, u, n)
  }

  // A user really has a slot holding the node.
  lemma UserHasSlot(ns: Nodes, n: nat, u: nat) returns (i: nat)
    requires Dual(ns) && n < |ns| && u in ns[n].users
    ensures u < |ns| && i < |ns[u].ops| && ns[u].ops[i] == Some(n)
  {
    assert Uses(ns, u, n) > 0;
    assert Some(n) in multiset(ns[u].ops);
    i :| 0 <= i < |ns[u].ops| && ns[u].ops[i] == Some(n);
  }

  lemma SlotHasUser(ns: Nodes, u: nat, i: nat, n: nat)
    requires Dual(ns) && u < |ns| && i < |ns[u].ops| && ns[u].ops[i] == Some(n)
    ensures n < |ns| && u in ns[n].users
  {
    assert Some(n) in multiset(ns[u].ops);
  }

  // How often a list of different nodes holds n.
  lemma TwoSlots(a: nat, b: nat, n: nat)
    requires a != b
    ensures multiset([Some(a), Some(b)])[Some(n)] == if n == a || n == b then 1 else 0
  {
  }

  lemma ThreeSlots(a: nat, b: nat, c: nat, n: nat)
    requires a != b && a != c && b != c
    ensures multiset([Some(a), Some(b), Some(c)])[Some(n)] == if n == a || n == b || n == c then 1 else 0
  {
  }

  // The operand slots determine the users.
  lemma DualUnique(ns: Nodes, ns': Nodes)
    requires Dual(ns) && Dual(ns') && |ns| == |ns'|
    requires forall u :: 0 <= u < |ns| ==> ns'[u].kind == ns[u].kind && ns'[u].ty == ns[u].ty && ns'[u].ops == ns[u].ops
    ensures ns == ns'
  {
    forall n | 0 <= n < |ns| ensures ns[n] == ns'[n] {
      forall u: nat ensures ns[n].users[u] == ns'[n].users[u] {
        assert Uses(ns, u, n) == Uses(ns', u, n);
      }
      assert ns[n].users == ns'[n].users;
    }
  }

  // The region a slot holds, if it holds one.
  function RegionAt(ns: Nodes, s: Slot): Option<nat> {
    if s.Some? && s.value < |ns| && ns[s.value].kind.IsRegion() then Some(ns[s.value].kind.region) else None
  }

  function SlotOr(ops: seq<Slot>, i: int): Slot {
    if 0 <= i < |ops| then ops[i] else None
  }

  // ---------------------------------------------------------------- specification of the updates

  function DropUser(ns: Nodes, s: Slot, u: nat): (ns': Nodes)
    requires s.Some? ==> s.value < |ns|
    ensures |ns'| == |ns|
  {
    if s.None? then ns else ns[s.value := ns[s.value].(users := ns[s.value].users - multiset{u})]
  }

  function AddUser(ns: Nodes, s: Slot, u: nat): (ns': Nodes)
    requires s.Some? ==> s.value < |ns|
    ensures |ns'| == |ns|
  {
    if s.None? then ns else ns[s.value := ns[s.value].(users := ns[s.value].users + multiset{u})]
  }

  function WithSlot(ns: Nodes, u: nat, i: nat, s: Slot): (ns': Nodes)
    requires u < |ns| && i < |ns[u].ops|
    requires ns[u].ops[i].Some? ==> ns[u].ops[i].value < |ns|
    requires s.Some? ==> s.value < |ns|
    ensures |ns'| == |ns|
  {
    var ns' := AddUser(DropUser(ns, ns[u].ops[i], u), s, u);
    ns'[u := ns'[u].(ops := ns[u].ops[i := s])]
  }

  // Kinds, types and slots, without the users.
  ghost predicate SameButUsers(a: Node, b: Node) {
    a.kind == b.kind && a.ty == b.ty && a.ops == b.ops
  }

  function SubstSlots(ops: seq<Slot>, n: nat, m: Slot): seq<Slot> {
    seq(|ops|, i requires 0 <= i < |ops| => if ops[i] == Some(n) then m else ops[i])
  }

  // Every slot holding n holds m instead; nothing else changes but the users.
  ghost predicate Substituted(ns: Nodes, ns': Nodes, n: nat, m: Slot) {
    && |ns'| == |ns| && Dual(ns')
    && forall u :: 0 <= u < |ns| ==>
      ns'[u].kind == ns[u].kind && ns'[u].ty == ns[u].ty && ns'[u].ops == SubstSlots(ns[u].ops, n, m)
  }

  lemma WithSlotShape(ns: Nodes, u: nat, i: nat, s: Slot)
    requires InRange(ns) && u < |ns| && i < |ns[u].ops| && (s.Some? ==> s.value < |ns|)
    ensures var ns' := WithSlot(ns, u, i, s);
      && |ns'| == |ns| && InRange(ns')
      && (forall v :: 0 <= v < |ns| && v != u ==> SameButUsers(ns'[v], ns[v]))
      && ns'[u].kind == ns[u].kind && ns'[u].ty == ns[u].ty && ns'[u].ops == ns[u].ops[i := s]
  {
    var ns1 := DropUser(ns, ns[u].ops[i], u);
    assert forall v :: 0 <= v < |ns| ==> SameButUsers(ns1[v], ns[v]);
    var ns2 := AddUser(ns1, s, u);
    assert forall v :: 0 <= v < |ns| ==> SameButUsers(ns2[v], ns1[v]);
  }

  lemma SlotUpdateCount(ops: seq<Slot>, i: nat, s: Slot, n: nat)
    requires i < |ops|
    ensures multiset(ops[i := s])[Some(n)] ==
      multiset(ops)[Some(n)] - (if ops[i] == Some(n) then 1 else 0) + (if s == Some(n) then 1 else 0)
    ensures ops[i] == Some(n) ==> multiset(ops)[Some(n)] >= 1
  {
    assert ops == ops[..i] + [ops[i]] + ops[i + 1..];
    assert ops[i := s] == ops[..i] + [s] + ops[i + 1..];
  }

  lemma DropUserCount(ns: Nodes, s: Slot, u: nat, n: nat, v: nat)
    requires (s.Some? ==> s.value < |ns| && ns[s.value].users[u] > 0) && n < |ns|
    ensures DropUser(ns, s, u)[n].users[v] == ns[n].users[v] - (if v == u && s == Some(n) then 1 else 0)
  {
  }

  lemma AddUserCount(ns: Nodes, s: Slot, u: nat, n: nat, v: nat)
    requires (s.Some? ==> s.value < |ns|) && n < |ns|
    ensures AddUser(ns, s, u)[n].users[v] == ns[n].users[v] + (if v == u && s == Some(n) then 1 else 0)
  {
  }

  lemma HeldIsUsed(ns: Nodes, u: nat, i: nat)
    requires Dual(ns) && u < |ns| && i < |ns[u].ops| && ns[u].ops[i].Some?
    ensures ns[u].ops[i].value < |ns| && ns[ns[u].ops[i].value].users[u] > 0
  {
    var n: nat := ns[u].ops[i].value;
    SlotHasUser(ns, u, i, n);
  }

  lemma WithSlotUsers(ns: Nodes, u: nat, i: nat, s: Slot, n: nat, v: nat)
    requires Dual(ns) && u < |ns| && i < |ns[u].ops| && (s.Some? ==> s.value < |ns|) && n < |ns|
    ensures WithSlot(ns, u, i, s)[n].users[v] ==
      ns[n].users[v]
      - (if v == u && ns[u].ops[i] == Some(n) then 1 else 0)
      + (if v == u && s == Some(n) then 1 else 0)
  {
    hide Dual, DropUser, AddUser;
    var was := ns[u].ops[i];
    if was.Some? {
      HeldIsUsed(ns, u, i);
    }
    DropUserCount(ns, was, u, n, v);
    AddUserCount(DropUser(ns, was, u), s, u, n, v);
  }

  lemma WithSlotDual(ns: Nodes, u: nat, i: nat, s: Slot)
    requires Dual(ns) && u < |ns| && i < |ns[u].ops| && (s.Some? ==> s.value < |ns|)
    ensures Dual(WithSlot(ns, u, i, s))
  {
    var ns' := WithSlot(ns, u, i, s);
    WithSlotShape(ns, u, i, s);
    forall n, v: nat | 0 <= n < |ns| ensures ns'[n].users[v] == Uses(ns', v, n) {
      WithSlotUsers(ns, u, i, s, n, v);
      SlotUpdateCount(ns[u].ops, i, s, n);
      assert ns[n].users[v] == Uses(ns, v, n);
    }
  }

  // Some slots that held n hold m; the rest is as it was.
  ghost predicate PartlySubstituted(ns: Nodes, ns': Nodes, n: nat, m: Slot) {
    && |ns'| == |ns| && Dual(ns')
    && forall u :: 0 <= u < |ns| ==>
      && ns'[u].kind == ns[u].kind && ns'[u].ty == ns[u].ty && |ns'[u].ops| == |ns[u].ops|
      && forall i :: 0 <= i < |ns[u].ops| ==> Moved(ns[u].ops[i], ns'[u].ops[i], n, m)
  }

  ghost predicate Moved(s: Slot, s': Slot, n: nat, m: Slot) {
    s' == s || (s == Some(n) && s' == m)
  }

  lemma MoveOneSlot(ns: Nodes, cur: Nodes, n: nat, m: Slot, u: nat, i: nat)
    requires PartlySubstituted(ns, cur, n, m) && n < |ns| && (m.Some? ==> m.value < |ns|) && m != Some(n)
    requires u < |ns| && i < |cur[u].ops| && cur[u].ops[i] == Some(n)
    ensures PartlySubstituted(ns, WithSlot(cur, u, i, m), n, m)
    ensures |WithSlot(cur, u, i, m)[n].users| < |cur[n].users|
  {
    hide WithSlot, InRange, Uses;
    WithSlotShape(cur, u, i, m);
    WithSlotDual(cur, u, i, m);
    var cur' := WithSlot(cur, u, i, m);
    forall v | 0 <= v < |ns|
      ensures cur'[v].kind == ns[v].kind && cur'[v].ty == ns[v].ty && |cur'[v].ops| == |ns[v].ops|
      ensures forall k :: 0 <= k < |ns[v].ops| ==> Moved(ns[v].ops[k], cur'[v].ops[k], n, m)
    {
      assert forall k :: 0 <= k < |ns[v].ops| ==> Moved(ns[v].ops[k], cur[v].ops[k], n, m);
    }
    FewerUsers(cur, u, i, m, n);
  }

  lemma FewerUsers(cur: Nodes, u: nat, i: nat, m: Slot, n: nat)
    requires Dual(cur) && u < |cur| && i < |cur[u].ops| && (m.Some? ==> m.value < |cur|) && m != Some(n)
    requires n < |cur| && cur[u].ops[i] == Some(n)
    ensures |WithSlot(cur, u, i, m)[n].users| < |cur[n].users|
  {
    hide WithSlot, Dual;
    HeldIsUsed(cur, u, i);
    forall v: nat ensures WithSlot(cur, u, i, m)[n].users[v] == (cur[n].users - multiset{u})[v] {
      WithSlotUsers(cur, u, i, m, n, v);
    }
    assert WithSlot(cur, u, i, m)[n].users == cur[n].users - multiset{u};
  }

  lemma FullySubstituted(ns: Nodes, cur: Nodes, n: nat, m: Slot)
    requires PartlySubstituted(ns, cur, n, m) && n < |ns| && cur[n].users == multiset{} && m != Some(n)
    ensures Substituted(ns, cur, n, m)
  {
    forall u | 0 <= u < |ns| ensures cur[u].ops == SubstSlots(ns[u].ops, n, m) {
      forall i | 0 <= i < |ns[u].ops| ensures cur[u].ops[i] == SubstSlots(ns[u].ops, n, m)[i] {
        assert Moved(ns[u].ops[i], cur[u].ops[i], n, m);
        if cur[u].ops[i] == Some(n) {
          SlotHasUser(cur, u, i, n);
        }
      }
    }
  }

  // n holds nothing and nothing holds n.
  ghost predicate Detached(ns: Nodes, ns': Nodes, n: nat) {
    && |ns'| == |ns| && n < |ns| && Dual(ns')
    && forall u :: 0 <= u < |ns| ==>
      && ns'[u].kind == ns[u].kind && ns'[u].ty == ns[u].ty
      && ns'[u].ops == if u == n then Empty(|ns[n].ops|) else SubstSlots(ns[u].ops, n, None)
  }

  function Empty(k: nat): (e: seq<Slot>)
    ensures |e| == k && forall i :: 0 <= i < k ==> e[i] == None
  {
    seq(k, _ => None)
  }

  // A new node at the end of the table, with these operands and no user.
  ghost predicate Created(ns: Nodes, ns': Nodes, kind: Kind, ty: ValueType, ops: seq<Slot>) {
    && |ns'| == |ns| + 1 && Dual(ns')
    && (forall u :: 0 <= u < |ns| ==> SameButUsers(ns'[u], ns[u]))
    && ns'[|ns|].kind == kind && ns'[|ns|].ty == ty && ns'[|ns|].ops == ops
  }

  lemma NewNodeUnused(ns: Nodes, ns': Nodes, kind: Kind, ty: ValueType, ops: seq<Slot>)
    requires Dual(ns) && Created(ns, ns', kind, ty, ops)
    requires forall i :: 0 <= i < |ops| && ops[i].Some? ==> ops[i].value < |ns|
    ensures ns'[|ns|].users == multiset{}
  {
    var n := |ns|;
    forall u: nat ensures ns'[n].users[u] == 0 {
      assert ns'[n].users[u] == Uses(ns', u, n);
      if u < |ns'| {
        forall i | 0 <= i < |ns'[u].ops| ensures ns'[u].ops[i] != Some(n) {
          assert u < n ==> ns'[u].ops == ns[u].ops;
        }
        assert Some(n) !in multiset(ns'[u].ops);
      }
    }
  }

  lemma AppendEmpty(ns: Nodes, kind: Kind, ty: ValueType, k: nat)
    requires Dual(ns)
    ensures Created(ns, ns + [Node(kind, ty, Empty(k), multiset{})], kind, ty, Empty(k))
  {
    var ns' := ns + [Node(kind, ty, Empty(k), multiset{})];
    forall n, u: nat | 0 <= n < |ns'| ensures ns'[n].users[u] == Uses(ns', u, n) {
      if u == |ns| {
        assert Some(n) !in Empty(k);
      }
      if n < |ns| {
        assert ns[n].users[u] == Uses(ns, u, n);
        if u == |ns| {
          assert Uses(ns, u, n) == 0;
        }
      } else if u < |ns| {
        assert Some(n) !in ns[u].ops;
      }
    }
  }

  // ---------------------------------------------------------------- the graph

  class Graph {
    var nodes: Nodes

    constructor ()
      ensures nodes == [] && Dual(nodes)
    {
      nodes := [];
    }

    method SetOperand(u: nat, i: nat, s: Slot)
      requires Dual(nodes) && u < |nodes| && i < |nodes[u].ops| && (s.Some? ==> s.value < |nodes|)
      modifies this
      ensures nodes == WithSlot(old(nodes), u, i, s) && Dual(nodes)
      ensures |nodes| == |old(nodes)|
      ensures forall v :: 0 <= v < |nodes| && v != u ==> SameButUsers(nodes[v], old(nodes)[v])
      ensures nodes[u].kind == old(nodes)[u].kind && nodes[u].ty == old(nodes)[u].ty
      ensures nodes[u].ops == old(nodes)[u].ops[i := s]
    {
      WithSlotDual(nodes, u, i, s);
      WithSlotShape(nodes, u, i, s);
      var place := nodes[u].ops[i];
      nodes := DropUser(nodes, place, u);
      nodes := AddUser(nodes, s, u);
      nodes := nodes[u := nodes[u].(ops := nodes[u].ops[i := s])];
    }

    method SwapOperands(u: nat, i: nat, j: nat)
      requires Dual(nodes) && u < |nodes| && i < |nodes[u].ops| && j < |nodes[u].ops|
      modifies this
      ensures Dual(nodes)
      ensures var ops := old(nodes)[u].ops;
        nodes == old(nodes)[u := old(nodes)[u].(ops := ops[i := ops[j]][j := ops[i]])]
    {
      var ops := nodes[u].ops;
      SwapKeepsDual(nodes, u, i, j);
      nodes := nodes[u := nodes[u].(ops := ops[i := ops[j]][j := ops[i]])];
    }

    method AddOperand(u: nat, s: Slot) returns (i: nat)
      requires Dual(nodes) && u < |nodes| && (s.Some? ==> s.value < |nodes|)
      modifies this
      ensures Dual(nodes) && |nodes| == |old(nodes)| && i == |old(nodes)[u].ops|
      ensures forall v :: 0 <= v < |nodes| && v != u ==> SameButUsers(nodes[v], old(nodes)[v])
      ensures nodes[u].kind == old(nodes)[u].kind && nodes[u].ty == old(nodes)[u].ty
      ensures nodes[u].ops == old(nodes)[u].ops + [s]
    {
      i := |nodes[u].ops|;
      NewSlotDual(nodes, u, s);
      NewSlotShape(nodes, u, s);
      nodes := nodes[u := nodes[u].(ops := nodes[u].ops + [s])];
      nodes := AddUser(nodes, s, u);
    }

    // Some user of n, and its first slot that holds n.
    method FirstUse(n: nat) returns (u: nat, i: nat)
      requires Dual(nodes) && n < |nodes| && nodes[n].users != multiset{}
      ensures u < |nodes| && i < |nodes[u].ops| && nodes[u].ops[i] == Some(n)
      ensures u in nodes[n].users && forall k :: 0 <= k < i ==> nodes[u].ops[k] != Some(n)
    {
      u :| u in nodes[n].users;
      ghost var w := UserHasSlot(nodes, n, u);
      i := 0;
      while nodes[u].ops[i] != Some(n)
        invariant i <= w && forall k :: 0 <= k < i ==> nodes[u].ops[k] != Some(n)
        decreases w - i
      {
        i := i + 1;
      }
    }

    method ReplaceWith(n: nat, m: Slot)
      requires Dual(nodes) && n < |nodes| && m != Some(n) && (m.Some? ==> m.value < |nodes|)
      modifies this
      ensures Substituted(old(nodes), nodes, n, m)
      ensures nodes[n].users == multiset{}
    {
      ghost var before := nodes;
      while nodes[n].users != multiset{}
        invariant PartlySubstituted(before, nodes, n, m)
        decreases |nodes[n].users|
      {
        var u, i := FirstUse(n);
        MoveOneSlot(before, nodes, n, m, u, i);
        SetOperand(u, i, m);
      }
      FullySubstituted(before, nodes, n, m);
    }

    method Detach(n: nat)
      requires Dual(nodes) && n < |nodes|
      modifies this
      ensures Detached(old(nodes), nodes, n)
      ensures nodes[n].users == multiset{}
    {
      ghost var before := nodes;
      for i := 0 to |nodes[n].ops|
        invariant Dual(nodes) && |nodes| == |before| && |nodes[n].ops| == |before[n].ops|
        invariant forall v :: 0 <= v < |nodes| && v != n ==> SameButUsers(nodes[v], before[v])
        invariant nodes[n].kind == before[n].kind && nodes[n].ty == before[n].ty
        invariant forall k :: 0 <= k < i ==> nodes[n].ops[k] == None
      {
        SetOperand(n, i, None);
      }
      assert nodes[n].ops == Empty(|before[n].ops|);
      ReplaceWith(n, None);
      assert nodes[n].ops == Empty(|before[n].ops|);
    }

    method Create(kind: Kind, ty: ValueType, ops: seq<Slot>) returns (n: nat)
      requires Dual(nodes) && forall i :: 0 <= i < |ops| && ops[i].Some? ==> ops[i].value < |nodes|
      modifies this
      ensures n == |old(nodes)| && Created(old(nodes), nodes, kind, ty, ops)
      ensures nodes[n].users == multiset{}
    {
      n := |nodes|;
      ghost var before := nodes;
      AppendEmpty(nodes, kind, ty, |ops|);
      nodes := nodes + [Node(kind, ty, Empty(|ops|), multiset{})];
      for i := 0 to |ops|
        invariant |nodes| == n + 1 && |nodes[n].ops| == |ops|
        invariant Created(before, nodes, kind, ty, nodes[n].ops)
        invariant forall k :: 0 <= k < i ==> nodes[n].ops[k] == ops[k]
      {
        SetOperand(n, i, ops[i]);
      }
      assert nodes[n].ops == ops;
      NewNodeUnused(before, nodes, kind, ty, ops);
    }
  }

  lemma SwapKeepsDual(ns: Nodes, u: nat, i: nat, j: nat)
    requires Dual(ns) && u < |ns| && i < |ns[u].ops| && j < |ns[u].ops|
    ensures Dual(ns[u := ns[u].(ops := ns[u].ops[i := ns[u].ops[j]][j := ns[u].ops[i]])])
  {
    var ops' := ns[u].ops[i := ns[u].ops[j]][j := ns[u].ops[i]];
    var ns' := ns[u := ns[u].(ops := ops')];
    SwapMultiset(ns[u].ops, i, j);
    forall n, v: nat | 0 <= n < |ns| ensures ns'[n].users[v] == Uses(ns', v, n) {
      assert ns[n].users[v] == Uses(ns, v, n);
    }
    forall v, k | 0 <= v < |ns| && 0 <= k < |ns'[v].ops| && ns'[v].ops[k].Some? ensures ns'[v].ops[k].value < |ns| {
      if v == u {
        assert ns'[v].ops[k] == ns[u].ops[if k == j then i else if k == i then j else k];
      }
    }
  }

  lemma SwapMultiset<T>(xs: seq<T>, i: nat, j: nat)
    requires i < |xs| && j < |xs|
    ensures multiset(xs[i := xs[j]][j := xs[i]]) == multiset(xs)
  {
  }

  function WithNewSlot(ns: Nodes, u: nat, s: Slot): (ns': Nodes)
    requires u < |ns| && (s.Some? ==> s.value < |ns|)
    ensures |ns'| == |ns|
  {
    AddUser(ns[u := ns[u].(ops := ns[u].ops + [s])], s, u)
  }

  lemma NewSlotShape(ns: Nodes, u: nat, s: Slot)
    requires InRange(ns) && u < |ns| && (s.Some? ==> s.value < |ns|)
    ensures InRange(WithNewSlot(ns, u, s))
    ensures forall v :: 0 <= v < |ns| && v != u ==> SameButUsers(WithNewSlot(ns, u, s)[v], ns[v])
    ensures var a := WithNewSlot(ns, u, s)[u]; a.kind == ns[u].kind && a.ty == ns[u].ty && a.ops == ns[u].ops + [s]
  {
    var ns1 := ns[u := ns[u].(ops := ns[u].ops + [s])];
    assert InRange(ns1);
    assert forall v :: 0 <= v < |ns| ==> SameButUsers(AddUser(ns1, s, u)[v], ns1[v]);
  }

  lemma DualAt(ns: Nodes, n: nat, u: nat)
    requires Dual(ns) && n < |ns|
    ensures InRange(ns) && ns[n].users[u] == Uses(ns, u, n)
  {
  }

  lemma NewSlotCount(ops: seq<Slot>, s: Slot, n: nat)
    ensures multiset(ops + [s])[Some(n)] == multiset(ops)[Some(n)] + (if s == Some(n) then 1 else 0)
  {
  }

  lemma NewSlotUsers(ns: Nodes, u: nat, s: Slot, n: nat, v: nat)
    requires Dual(ns) && u < |ns| && (s.Some? ==> s.value < |ns|) && n < |ns|
    ensures WithNewSlot(ns, u, s)[n].users[v] == Uses(WithNewSlot(ns, u, s), v, n)
  {
    hide Dual, InRange, AddUser;
    DualAt(ns, n, v);
    NewSlotShape(ns, u, s);
    NewSlotCount(ns[u].ops, s, n);
    AddUserCount(ns[u := ns[u].(ops := ns[u].ops + [s])], s, u, n, v);
    assert v < |ns| && v != u ==> SameButUsers(WithNewSlot(ns, u, s)[v], ns[v]);
  }

  lemma NewSlotDual(ns: Nodes, u: nat, s: Slot)
    requires Dual(ns) && u < |ns| && (s.Some? ==> s.value < |ns|)
    ensures Dual(WithNewSlot(ns, u, s))
  {
    NewSlotShape(ns, u, s);
    hide InRange, WithNewSlot, Uses;
    forall n, v: nat | 0 <= n < |ns|
      ensures WithNewSlot(ns, u, s)[n].users[v] == Uses(WithNewSlot(ns, u, s), v, n)
    {
      NewSlotUsers(ns, u, s, n, v);
    }
  }
}
