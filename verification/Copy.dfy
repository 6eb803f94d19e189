// Functions over a shared node table, and Function::copy (src/Function.cpp:284-364).
module FunctionCopy {
  import opened SeqUtil
  import opened UseDef

  // The nodes a function owns: its graph, which holds its arguments, and the
  // start and end regions.
  datatype Fn = Fn(args: seq<nat>, graph: seq<nat>, start: nat, end: nat) {
    ghost predicate Owns(n: nat) {
      n in graph || n == start || n == end
    }
  }

  ghost predicate WellFormed(ns: Nodes, f: Fn) {
    && f.start < |ns| && f.end < |ns| && f.start != f.end && f.start !in f.graph && f.end !in f.graph
    && ns[f.start].kind.Start? && ns[f.end].kind.End?
    && Distinct(f.graph) && (forall n: nat :: n in f.graph ==> n < |ns|)
    && Distinct(f.args) && (forall n: nat :: n in f.args <==> n in f.graph && IsArg(ns, n))
  }

  predicate IsArg(ns: Nodes, n: nat) {
    n < |ns| && ns[n].kind.FunctionArg?
  }

  // No operand is missing, and operands and users stay within the function.
  ghost predicate Sealed(ns: Nodes, f: Fn) {
    forall n: nat :: f.Owns(n) && n < |ns| ==>
      && (forall i :: 0 <= i < |ns[n].ops| ==> ns[n].ops[i].Some? && f.Owns(ns[n].ops[i].value))
      && forall u: nat :: u in ns[n].users ==> f.Owns(u)
  }

  // ---------------------------------------------------------------- renaming

  ghost predicate Injective(vm: map<nat, nat>) {
    forall a: nat, b: nat :: a in vm && b in vm && vm[a] == vm[b] ==> a == b
  }

  function MapSlot(s: Slot, vm: map<nat, nat>): Slot {
    if s.Some? && s.value in vm then Some(vm[s.value]) else s
  }

  function MapSlots(ops: seq<Slot>, vm: map<nat, nat>): (r: seq<Slot>) {
    seq(|ops|, i requires 0 <= i < |ops| => MapSlot(ops[i], vm))
  }

  ghost predicate MappedUsers(users: multiset<nat>, users': multiset<nat>, vm: map<nat, nat>) {
    && (forall u: nat :: u in vm ==> users'[vm[u]] == users[u])
    && forall x: nat :: x in users' ==> Hit(vm, x)
  }

  // Some node is renamed to x.
  ghost predicate Hit(vm: map<nat, nat>, x: nat) {
    exists u: nat :: u in vm && vm[u] == x
  }

  ghost predicate Renamed(a: Node, b: Node, vm: map<nat, nat>) {
    b.kind == a.kind && b.ty == a.ty && b.ops == MapSlots(a.ops, vm) && MappedUsers(a.users, b.users, vm)
  }

  lemma {:induction false} RenamedCount(ops: seq<Slot>, vm: map<nat, nat>, m: nat)
    requires Injective(vm) && m in vm
    requires forall i :: 0 <= i < |ops| ==> ops[i].Some? && ops[i].value in vm
    ensures multiset(MapSlots(ops, vm))[Some(vm[m])] == multiset(ops)[Some(m)]
  {
    if |ops| == 0 {
    } else {
      var n := |ops| - 1;
      RenamedCount(ops[..n], vm, m);
      assert ops == ops[..n] + [ops[n]];
      assert MapSlots(ops, vm) == MapSlots(ops[..n], vm) + [MapSlot(ops[n], vm)];
    }
  }

  // ---------------------------------------------------------------- what a copy is

  // f' is f with every owned node renamed to a new one; the old nodes are as before.
  ghost predicate IsCopy(ns: Nodes, f: Fn, ns': Nodes, f': Fn, vm: map<nat, nat>) {
    && Dual(ns') && |ns| <= |ns'| && ns'[..|ns|] == ns
    && (forall n: nat :: n in vm <==> f.Owns(n)) && Injective(vm)
    && (forall n: nat :: n in vm ==> n < |ns| <= vm[n] < |ns'| && Renamed(ns[n], ns'[vm[n]], vm))
    && (forall x: nat :: |ns| <= x < |ns'| ==> Hit(vm, x))
    && f' == Fn(Renames(f.args, vm), Renames(f.args, vm) + Renames(NoArgs(ns, f.graph), vm), vm[f.start], vm[f.end])
  }

  function Renames(xs: seq<nat>, vm: map<nat, nat>): (r: seq<nat>)
    ensures |r| == |xs|
  {
    seq(|xs|, i requires 0 <= i < |xs| => if xs[i] in vm then vm[xs[i]] else xs[i])
  }

  function NoArgs(ns: Nodes, xs: seq<nat>): seq<nat> {
    if xs == [] then []
    else
      var n := |xs| - 1;
      NoArgs(ns, xs[..n]) + if IsArg(ns, xs[n]) then [] else [xs[n]]
  }

  lemma {:induction false} NoArgsElems(ns: Nodes, xs: seq<nat>)
    ensures forall n: nat :: n in NoArgs(ns, xs) <==> n in xs && !IsArg(ns, n)
    ensures Distinct(xs) ==> Distinct(NoArgs(ns, xs))
  {
    if xs != [] {
      var n := |xs| - 1;
      NoArgsElems(ns, xs[..n]);
      assert xs == xs[..n] + [xs[n]];
    }
  }

  // Slot by slot: what held m holds the copy of m, in the same position.
  lemma CopyHolds(ns: Nodes, f: Fn, ns': Nodes, f': Fn, vm: map<nat, nat>, n: nat, i: nat, m: nat)
    requires IsCopy(ns, f, ns', f', vm) && f.Owns(n) && f.Owns(m) && n < |ns| && i < |ns[n].ops| && ns[n].ops[i] == Some(m)
    ensures n in vm && m in vm && vm[n] < |ns'| && |ns'[vm[n]].ops| == |ns[n].ops| && ns'[vm[n]].ops[i] == Some(vm[m])
    ensures ns'[vm[n]].kind == ns[n].kind && ns'[vm[n]].ty == ns[n].ty
  {
    hide Dual, Injective, Hit, Renames, NoArgs;
    assert n in vm && m in vm;
    assert Renamed(ns[n], ns'[vm[n]], vm);
  }

  lemma {:induction false} NoArgsAt(ns: Nodes, xs: seq<nat>, i: nat)
    requires i < |xs| && !IsArg(ns, xs[i])
    ensures |NoArgs(ns, xs[..i])| < |NoArgs(ns, xs)| && NoArgs(ns, xs)[|NoArgs(ns, xs[..i])|] == xs[i]
    decreases |xs|
  {
    var n := |xs| - 1;
    if i < n {
      assert xs[..n][..i] == xs[..i];
      NoArgsAt(ns, xs[..n], i);
    }
  }

  // The copied graph lists the other nodes after the arguments, in their old order.
  lemma CopyKeepsOrder(ns: Nodes, f: Fn, ns': Nodes, f': Fn, vm: map<nat, nat>, i: nat, j: nat)
    requires IsCopy(ns, f, ns', f', vm) && i < j < |f.graph|
    requires !IsArg(ns, f.graph[i]) && !IsArg(ns, f.graph[j])
    ensures f.graph[i] in vm && f.graph[j] in vm && exists a, b ::
      |f.args| <= a < b < |f'.graph| && f'.graph[a] == vm[f.graph[i]] && f'.graph[b] == vm[f.graph[j]]
  {
    hide Dual, Injective, Hit, Renamed, NoArgs, IsArg;
    var p, q := |NoArgs(ns, f.graph[..i])|, |NoArgs(ns, f.graph[..j])|;
    NoArgsAt(ns, f.graph, i);
    NoArgsAt(ns, f.graph, j);
    assert f.graph[..j][..i] == f.graph[..i] && f.graph[..j][i] == f.graph[i];
    NoArgsAt(ns, f.graph[..j], i);
    assert f.Owns(f.graph[i]) && f.Owns(f.graph[j]);
    assert f'.graph[|f.args| + p] == vm[f.graph[i]] && f'.graph[|f.args| + q] == vm[f.graph[j]];
  }

  // ---------------------------------------------------------------- first pass: clones

  // The nodes in dom have clones that still hold the old operands and users.
  ghost predicate Cloned(ns: Nodes, cur: Nodes, vm: map<nat, nat>) {
    && |ns| <= |cur| && cur[..|ns|] == ns && Injective(vm)
    && (forall n: nat :: n in vm ==> n < |ns| <= vm[n] < |cur| && cur[vm[n]] == ns[n])
    && forall x: nat :: |ns| <= x < |cur| ==> Hit(vm, x)
  }

  lemma CloneOne(ns: Nodes, cur: Nodes, vm: map<nat, nat>, n: nat)
    requires Cloned(ns, cur, vm) && n < |ns| && n !in vm
    ensures Cloned(ns, cur + [cur[n]], vm[n := |cur|])
  {
    var cur', vm' := cur + [cur[n]], vm[n := |cur|];
    assert cur'[..|ns|] == cur[..|ns|];
    assert cur[n] == ns[n] by {
      assert cur[..|ns|][n] == ns[n];
    }
    forall x: nat | |ns| <= x < |cur'| ensures Hit(vm', x) {
      if x < |cur| {
        assert Hit(vm, x);
        var u: nat :| u in vm && vm[u] == x;
        assert u in vm' && vm'[u] == x;
      } else {
        assert n in vm' && vm'[n] == x;
      }
    }
  }

  lemma RenamesStay(xs: seq<nat>, vm: map<nat, nat>, n: nat, y: nat)
    requires n !in xs
    ensures Renames(xs, vm[n := y]) == Renames(xs, vm)
  {
    forall i | 0 <= i < |xs| ensures Renames(xs, vm[n := y])[i] == Renames(xs, vm)[i] {
      assert xs[i] in xs;
    }
  }

  method CloneNode(W: Graph, n: nat, vm: map<nat, nat>, ghost ns: Nodes) returns (vm': map<nat, nat>)
    requires Cloned(ns, W.nodes, vm) && n < |ns| && n !in vm
    modifies W
    ensures Cloned(ns, W.nodes, vm') && vm' == vm[n := |old(W.nodes)|] && |W.nodes| == |old(W.nodes)| + 1
  {
    CloneOne(ns, W.nodes, vm, n);
    vm' := vm[n := |W.nodes|];
    W.nodes := W.nodes + [W.nodes[n]];
  }

  ghost predicate GraphCloned(ns: Nodes, f: Fn, k: nat, vm: map<nat, nat>, graph: seq<nat>)
    requires k <= |f.graph|
  {
    && (forall n: nat :: n in vm <==> n in f.graph[..k] && !IsArg(ns, n))
    && graph == Renames(NoArgs(ns, f.graph[..k]), vm)
  }

  lemma NoArgsNext(ns: Nodes, xs: seq<nat>, k: nat)
    requires k < |xs|
    ensures NoArgs(ns, xs[..k + 1]) == NoArgs(ns, xs[..k]) + if IsArg(ns, xs[k]) then [] else [xs[k]]
  {
    assert xs[..k + 1][..k] == xs[..k];
  }

  lemma RenamesAppend(xs: seq<nat>, vm: map<nat, nat>, n: nat, y: nat)
    requires n !in xs
    ensures Renames(xs + [n], vm[n := y]) == Renames(xs, vm) + [y]
  {
    RenamesStay(xs, vm, n, y);
    assert Renames(xs + [n], vm[n := y]) == Renames(xs, vm[n := y]) + [y];
  }

  lemma NewInGraph(ns: Nodes, f: Fn, k: nat)
    requires WellFormed(ns, f) && k < |f.graph|
    ensures f.graph[k] !in f.graph[..k] && f.graph[k] < |ns|
  {
    assert f.graph[k] in f.graph;
  }

  lemma GraphNext(ns: Nodes, f: Fn, k: nat, vm: map<nat, nat>, graph: seq<nat>, y: nat)
    requires WellFormed(ns, f) && k < |f.graph| && GraphCloned(ns, f, k, vm, graph)
    ensures f.graph[k] !in vm && f.graph[k] < |ns|
    ensures if IsArg(ns, f.graph[k]) then GraphCloned(ns, f, k + 1, vm, graph)
      else GraphCloned(ns, f, k + 1, vm[f.graph[k] := y], graph + [y])
  {
    hide WellFormed, NoArgs, Renames, IsArg;
    var n := f.graph[k];
    var before := f.graph[..k];
    NewInGraph(ns, f, k);
    assert f.graph[..k + 1] == before + [n];
    NoArgsNext(ns, f.graph, k);
    assert NoArgs(ns, before) + [] == NoArgs(ns, before);
    NoArgsElems(ns, before);
    RenamesAppend(NoArgs(ns, before), vm, n, y);
  }

  // The nodes of the graph other than arguments, the two regions, and k arguments.
  ghost predicate ArgsCloned(ns: Nodes, f: Fn, k: nat, vm: map<nat, nat>, args: seq<nat>, graph: seq<nat>)
    requires k <= |f.args|
  {
    && (forall n: nat :: n in vm <==> (f.Owns(n) && !IsArg(ns, n)) || n in f.args[..k])
    && graph == Renames(NoArgs(ns, f.graph), vm) && args == Renames(f.args[..k], vm)
  }

  lemma ArgsNext(ns: Nodes, f: Fn, k: nat, vm: map<nat, nat>, args: seq<nat>, graph: seq<nat>, y: nat)
    requires WellFormed(ns, f) && k < |f.args| && ArgsCloned(ns, f, k, vm, args, graph)
    ensures f.args[k] !in vm && f.args[k] < |ns|
    ensures ArgsCloned(ns, f, k + 1, vm[f.args[k] := y], args + [y], graph)
  {
    var n := f.args[k];
    var before := f.args[..k];
    assert n in f.args;
    assert f.args[..k + 1] == before + [n];
    assert n !in before;
    NoArgsElems(ns, f.graph);
    RenamesStay(NoArgs(ns, f.graph), vm, n, y);
    RenamesStay(before, vm, n, y);
    assert Renames(before + [n], vm[n := y]) == Renames(before, vm[n := y]) + [y];
  }

  lemma RegionsNext(ns: Nodes, f: Fn, vm: map<nat, nat>, graph: seq<nat>, y: nat, z: nat)
    requires WellFormed(ns, f) && GraphCloned(ns, f, |f.graph|, vm, graph)
    ensures f.start !in vm && f.end !in vm[f.start := y]
    ensures ArgsCloned(ns, f, 0, vm[f.start := y][f.end := z], [], graph)
  {
    assert f.graph[..|f.graph|] == f.graph;
    NoArgsElems(ns, f.graph);
    RenamesStay(NoArgs(ns, f.graph), vm, f.start, y);
    RenamesStay(NoArgs(ns, f.graph), vm[f.start := y], f.end, z);
  }

  method CloneAll(W: Graph, f: Fn) returns (f': Fn, vm: map<nat, nat>)
    requires WellFormed(W.nodes, f)
    modifies W
    ensures Cloned(old(W.nodes), W.nodes, vm) && f.start in vm && f.end in vm && forall n: nat :: n in vm <==> f.Owns(n)
    ensures f' == Fn(Renames(f.args, vm), Renames(f.args, vm) + Renames(NoArgs(old(W.nodes), f.graph), vm), vm[f.start], vm[f.end])
  {
    hide WellFormed, Cloned, GraphCloned, ArgsCloned, Renames, NoArgs;
    ghost var ns := W.nodes;
    var graph: seq<nat>;
    graph, vm := CloneGraph(W, f);
    RegionsNext(ns, f, vm, graph, |W.nodes|, |W.nodes| + 1);
    OwnedRegions(ns, f);
    vm := CloneNode(W, f.start, vm, ns);
    vm := CloneNode(W, f.end, vm, ns);
    var args: seq<nat>;
    args, vm := CloneArgs(W, f, vm, graph, ns);
    AllCloned(ns, f, vm, args, graph);
    f' := Fn(args, args + graph, vm[f.start], vm[f.end]);
  }

  // Clone the nodes of the graph other than arguments.
  method CloneGraph(W: Graph, f: Fn) returns (graph: seq<nat>, vm: map<nat, nat>)
    requires WellFormed(W.nodes, f)
    modifies W
    ensures Cloned(old(W.nodes), W.nodes, vm) && GraphCloned(old(W.nodes), f, |f.graph|, vm, graph)
  {
    hide WellFormed, Cloned, GraphCloned;
    ghost var ns := W.nodes;
    vm := map[];
    graph := [];
    NothingCloned(ns, f);
    for k := 0 to |f.graph|
      invariant Cloned(ns, W.nodes, vm) && GraphCloned(ns, f, k, vm, graph)
    {
      var n := f.graph[k];
      GraphNext(ns, f, k, vm, graph, |W.nodes|);
      OldNode(ns, W.nodes, vm, n);
      if !W.nodes[n].kind.FunctionArg? {
        vm := CloneNode(W, n, vm, ns);
        graph := graph + [vm[n]];
      }
    }
  }

  method CloneArgs(W: Graph, f: Fn, vm: map<nat, nat>, ghost graph: seq<nat>,
          ghost ns: Nodes) returns (args: seq<nat>, vm': map<nat, nat>)
    requires WellFormed(ns, f) && Cloned(ns, W.nodes, vm) && ArgsCloned(ns, f, 0, vm, [], graph)
    modifies W
    ensures Cloned(ns, W.nodes, vm') && ArgsCloned(ns, f, |f.args|, vm', args, graph)
  {
    hide WellFormed, Cloned, ArgsCloned;
    args := [];
    vm' := vm;
    for k := 0 to |f.args|
      invariant Cloned(ns, W.nodes, vm') && ArgsCloned(ns, f, k, vm', args, graph)
    {
      ArgsNext(ns, f, k, vm', args, graph, |W.nodes|);
      vm' := CloneNode(W, f.args[k], vm', ns);
      args := args + [vm'[f.args[k]]];
    }
  }

  lemma NothingCloned(ns: Nodes, f: Fn)
    ensures Cloned(ns, ns, map[]) && GraphCloned(ns, f, 0, map[], [])
  {
  }

  lemma OldNode(ns: Nodes, cur: Nodes, vm: map<nat, nat>, n: nat)
    requires Cloned(ns, cur, vm) && n < |ns|
    ensures n < |cur| && cur[n] == ns[n]
  {
    assert cur[..|ns|][n] == ns[n];
  }

  lemma OwnedRegions(ns: Nodes, f: Fn)
    requires WellFormed(ns, f)
    ensures f.start < |ns| && f.end < |ns| && f.start != f.end && f.start !in f.graph && f.end !in f.graph
  {
  }

  lemma AllCloned(ns: Nodes, f: Fn, vm: map<nat, nat>, args: seq<nat>, graph: seq<nat>)
    requires WellFormed(ns, f) && ArgsCloned(ns, f, |f.args|, vm, args, graph)
    ensures forall n: nat :: n in vm <==> f.Owns(n)
    ensures graph == Renames(NoArgs(ns, f.graph), vm) && args == Renames(f.args, vm)
  {
    assert f.args[..|f.args|] == f.args;
  }

  // ---------------------------------------------------------------- second pass: renaming

  // The clones in done point into the copy, the others still to the original.
  ghost predicate Halfway(ns: Nodes, cur: Nodes, vm: map<nat, nat>, done: set<nat>) {
    && |ns| <= |cur| && cur[..|ns|] == ns
    && (forall n: nat :: n in vm ==> n < |ns| <= vm[n] < |cur|)
    && (forall n: nat :: n in vm ==> if vm[n] in done then Renamed(ns[n], cur[vm[n]], vm) else cur[vm[n]] == ns[n])
    && forall x: nat :: |ns| <= x < |cur| ==> Hit(vm, x)
  }

  lemma HalfwayNext(ns: Nodes, cur: Nodes, vm: map<nat, nat>, done: set<nat>, n: nat, node: Node)
    requires Halfway(ns, cur, vm, done) && Injective(vm) && n in vm && vm[n] !in done && Renamed(ns[n], node, vm)
    ensures Halfway(ns, cur[vm[n] := node], vm, done + {vm[n]})
  {
    hide Renamed, Hit;
    assert cur[vm[n] := node][..|ns|] == cur[..|ns|];
  }

  // Every operand and user of n is renamed.
  ghost predicate Covered(node: Node, vm: map<nat, nat>) {
    && (forall i :: 0 <= i < |node.ops| ==> node.ops[i].Some? && node.ops[i].value in vm)
    && forall u: nat :: u in node.users ==> u in vm
  }

  method RenameNode(W: Graph, x: nat, vm: map<nat, nat>)
    requires x < |W.nodes| && Injective(vm) && Covered(W.nodes[x], vm)
    modifies W
    ensures |W.nodes| == |old(W.nodes)| && W.nodes == old(W.nodes)[x := W.nodes[x]]
    ensures Renamed(old(W.nodes)[x], W.nodes[x], vm)
  {
    var node := W.nodes[x];
    var ops := [];
    for i := 0 to |node.ops|
      invariant ops == MapSlots(node.ops[..i], vm)
    {
      ops := ops + [Some(vm[node.ops[i].value])];
    }
    assert node.ops[..|node.ops|] == node.ops;
    var newUsers := RenameUsers(node.users, vm);
    W.nodes := W.nodes[x := node.(ops := ops, users := newUsers)];
  }

  method RenameUsers(users: multiset<nat>, vm: map<nat, nat>) returns (newUsers: multiset<nat>)
    requires Injective(vm) && forall u: nat :: u in users ==> u in vm
    ensures MappedUsers(users, newUsers, vm)
  {
    newUsers := multiset{};
    var rest := users;
    ghost var done: multiset<nat> := multiset{};
    while rest != multiset{}
      invariant done + rest == users && MappedUsers(done, newUsers, vm)
      decreases |rest|
    {
      var u :| u in rest;
      assert u in users;
      assert Hit(vm, vm[u]);
      newUsers := newUsers + multiset{vm[u]};
      rest := rest - multiset{u};
      done := done + multiset{u};
    }
    assert done == users;
  }

  method Copy(W: Graph, f: Fn) returns (f': Fn, vm: map<nat, nat>)
    requires Dual(W.nodes) && WellFormed(W.nodes, f) && Sealed(W.nodes, f)
    modifies W
    ensures IsCopy(old(W.nodes), f, W.nodes, f', vm)
  {
    hide WellFormed, Sealed, Cloned, NoArgs, Halfway, Renamed, Renames, Covered, Injective, Dual;
    ghost var ns := W.nodes;
    f', vm := CloneAll(W, f);
    StartHalfway(ns, W.nodes, vm);
    CopyGraph(ns, f, W.nodes, vm, f'.graph);
    ghost var done: set<nat> := {};
    for k := 0 to |f'.graph|
      invariant Halfway(ns, W.nodes, vm, done) && forall x: nat :: x in done <==> x in f'.graph[..k]
    {
      done := RenameClone(W, f, vm, f'.graph[k], ns, done);
      assert f'.graph[..k + 1] == f'.graph[..k] + [f'.graph[k]];
    }
    assert f'.graph[..|f'.graph|] == f'.graph;
    done := RenameClone(W, f, vm, f'.start, ns, done);
    done := RenameClone(W, f, vm, f'.end, ns, done);
    EndHalfway(ns, f, W.nodes, f', vm, done);
  }

  method RenameClone(W: Graph, ghost f: Fn, vm: map<nat, nat>, x: nat, ghost ns: Nodes,
          ghost done: set<nat>) returns (ghost done': set<nat>)
    requires Halfway(ns, W.nodes, vm, done) && Injective(vm) && Sealed(ns, f) && forall n: nat :: n in vm <==> f.Owns(n)
    requires Hit(vm, x) && x !in done
    modifies W
    ensures Halfway(ns, W.nodes, vm, done') && done' == done + {x}
  {
    hide Sealed, Renamed, Injective;
    ghost var n: nat :| n in vm && vm[n] == x;
    SealedCovers(ns, f, vm, n);
    hide Covered;
    ghost var before := W.nodes;
    RenameNode(W, x, vm);
    HalfwayNext(ns, before, vm, done, n, W.nodes[x]);
    done' := done + {x};
  }

  lemma SealedCovers(ns: Nodes, f: Fn, vm: map<nat, nat>, n: nat)
    requires Sealed(ns, f) && n < |ns| && f.Owns(n) && forall m: nat :: m in vm <==> f.Owns(m)
    ensures Covered(ns[n], vm)
  {
  }

  lemma StartHalfway(ns: Nodes, cur: Nodes, vm: map<nat, nat>)
    requires Cloned(ns, cur, vm)
    ensures Halfway(ns, cur, vm, {}) && Injective(vm)
  {
  }

  lemma SourceList(ns: Nodes, f: Fn)
    requires WellFormed(ns, f)
    ensures Distinct(f.args + NoArgs(ns, f.graph)) && forall n: nat :: n in f.args + NoArgs(ns, f.graph) <==> n in f.graph
  {
    NoArgsElems(ns, f.graph);
    hide NoArgs;
    DistinctJoin(f.args, NoArgs(ns, f.graph));
  }

  lemma RenamedList(src: seq<nat>, vm: map<nat, nat>)
    requires Distinct(src) && Injective(vm) && forall n: nat :: n in src ==> n in vm
    ensures Distinct(Renames(src, vm))
    ensures forall x: nat :: x in Renames(src, vm) ==> exists n: nat :: n in src && n in vm && vm[n] == x
    ensures forall n: nat :: n in src ==> n in vm && vm[n] in Renames(src, vm)
  {
    var r := Renames(src, vm);
    forall i | 0 <= i < |src| ensures r[i] == vm[src[i]] && src[i] in vm {
      assert src[i] in src;
    }
    forall x: nat | x in r ensures exists n: nat :: n in src && n in vm && vm[n] == x {
      var i :| 0 <= i < |r| && r[i] == x;
      assert src[i] in src;
    }
    forall n: nat | n in src ensures n in vm && vm[n] in r {
      var i :| 0 <= i < |src| && src[i] == n;
      assert r[i] == vm[n];
    }
  }

  // The nodes of the copy are distinct new ones.
  lemma CopyGraph(ns: Nodes, f: Fn, cur: Nodes, vm: map<nat, nat>, graph: seq<nat>)
    requires WellFormed(ns, f) && Injective(vm) && forall n: nat :: n in vm <==> f.Owns(n)
    requires graph == Renames(f.args, vm) + Renames(NoArgs(ns, f.graph), vm)
    ensures f.start in vm && f.end in vm && Hit(vm, vm[f.start]) && Hit(vm, vm[f.end]) && vm[f.start] != vm[f.end]
    ensures Distinct(graph) && vm[f.start] !in graph && vm[f.end] !in graph
    ensures forall x: nat :: x in graph ==> Hit(vm, x)
    ensures forall n: nat :: n in f.graph ==> n in vm && vm[n] in graph
  {
    SourceList(ns, f);
    OwnedRegions(ns, f);
    hide WellFormed, NoArgs;
    var src := f.args + NoArgs(ns, f.graph);
    assert f.Owns(f.start) && f.Owns(f.end);
    assert graph == Renames(src, vm);
    assert forall n: nat :: n in src ==> f.Owns(n);
    hide Renames;
    RenamedList(src, vm);
  }

  lemma CopyInRange(ns: Nodes, cur: Nodes, vm: map<nat, nat>)
    requires InRange(ns) && |ns| <= |cur| && cur[..|ns|] == ns
    requires forall n: nat :: n in vm ==> n < |ns| <= vm[n] < |cur| && Renamed(ns[n], cur[vm[n]], vm) && Covered(ns[n], vm)
    requires forall x: nat :: |ns| <= x < |cur| ==> Hit(vm, x)
    ensures InRange(cur)
  {
    forall u, i | 0 <= u < |cur| && 0 <= i < |cur[u].ops| && cur[u].ops[i].Some? ensures cur[u].ops[i].value < |cur| {
      if u < |ns| {
        assert cur[u] == cur[..|ns|][u] == ns[u];
      } else {
        assert Hit(vm, u);
        var n: nat :| n in vm && vm[n] == u;
        assert cur[u].ops[i] == MapSlots(ns[n].ops, vm)[i] == MapSlot(ns[n].ops[i], vm);
        assert ns[n].ops[i].value in vm;
      }
    }
  }

  // Users of x, old or new, against the slots that hold x.
  lemma CopyUses(ns: Nodes, cur: Nodes, vm: map<nat, nat>, x: nat, u: nat)
    requires Dual(ns) && InRange(cur) && |ns| <= |cur| && cur[..|ns|] == ns && Injective(vm)
    requires forall n: nat :: n in vm ==> n < |ns| <= vm[n] < |cur| && Renamed(ns[n], cur[vm[n]], vm) && Covered(ns[n], vm)
    requires forall y: nat :: |ns| <= y < |cur| ==> Hit(vm, y)
    requires x < |cur|
    ensures cur[x].users[u] == Uses(cur, u, x)
  {
    hide Injective, Dual, Covered, Renamed;
    if x < |ns| {
      OldUses(ns, cur, vm, x, u);
    } else {
      assert Hit(vm, x);
      var n: nat :| n in vm && vm[n] == x;
      NewUses(ns, cur, vm, n, u);
    }
  }

  lemma NoOldSlots(a: Node, b: Node, vm: map<nat, nat>, bound: nat, x: nat)
    requires Renamed(a, b, vm) && Covered(a, vm) && x < bound && forall n: nat :: n in vm ==> bound <= vm[n]
    ensures Some(x) !in multiset(b.ops)
  {
    forall i | 0 <= i < |b.ops| ensures b.ops[i] != Some(x) {
      assert b.ops[i] == MapSlot(a.ops[i], vm);
      assert a.ops[i].value in vm;
    }
  }

  lemma OldUses(ns: Nodes, cur: Nodes, vm: map<nat, nat>, x: nat, u: nat)
    requires Dual(ns) && |ns| <= |cur| && cur[..|ns|] == ns
    requires forall n: nat :: n in vm ==> n < |ns| <= vm[n] < |cur| && Renamed(ns[n], cur[vm[n]], vm) && Covered(ns[n], vm)
    requires forall y: nat :: |ns| <= y < |cur| ==> Hit(vm, y)
    requires x < |ns|
    ensures cur[x].users[u] == Uses(cur, u, x)
  {
    hide Renamed, Covered;
    assert cur[..|ns|][x] == ns[x];
    assert ns[x].users[u] == Uses(ns, u, x);
    if u < |ns| {
      assert cur[..|ns|][u] == ns[u];
    } else if u < |cur| {
      assert Hit(vm, u);
      var n: nat :| n in vm && vm[n] == u;
      NoOldSlots(ns[n], cur[u], vm, |ns|, x);
    }
  }

  lemma NewUses(ns: Nodes, cur: Nodes, vm: map<nat, nat>, m: nat, u: nat)
    requires Dual(ns) && |ns| <= |cur| && cur[..|ns|] == ns && Injective(vm) && m in vm
    requires forall n: nat :: n in vm ==> n < |ns| <= vm[n] < |cur| && Renamed(ns[n], cur[vm[n]], vm) && Covered(ns[n], vm)
    requires forall y: nat :: |ns| <= y < |cur| ==> Hit(vm, y)
    ensures cur[vm[m]].users[u] == Uses(cur, u, vm[m])
  {
    var x := vm[m];
    assert Renamed(ns[m], cur[x], vm);
    if |ns| <= u < |cur| {
      assert Hit(vm, u);
      var n: nat :| n in vm && vm[n] == u;
      assert Covered(ns[n], vm);
      RenamedCount(ns[n].ops, vm, m);
      assert ns[m].users[n] == Uses(ns, n, m);
    } else {
      assert !Hit(vm, u);
      if u < |ns| {
        assert cur[..|ns|][u] == ns[u];
        assert Some(x) !in ns[u].ops by {
          assert InRange(ns);
        }
      }
    }
  }

  lemma EndHalfway(ns: Nodes, f: Fn, cur: Nodes, f': Fn, vm: map<nat, nat>, done: set<nat>)
    requires Dual(ns) && WellFormed(ns, f) && Sealed(ns, f) && Halfway(ns, cur, vm, done) && Injective(vm)
    requires forall n: nat :: n in vm <==> f.Owns(n)
    requires f' == Fn(Renames(f.args, vm), Renames(f.args, vm) + Renames(NoArgs(ns, f.graph), vm), vm[f.start], vm[f.end])
    requires forall n: nat :: n in vm ==> vm[n] in done
    ensures IsCopy(ns, f, cur, f', vm)
  {
    hide WellFormed, Sealed, NoArgs, Renames, Renamed, Injective, Covered, Uses;
    forall n: nat | n in vm ensures Covered(ns[n], vm) {
      SealedCovers(ns, f, vm, n);
    }
    CopyInRange(ns, cur, vm);
    forall x, u: nat | 0 <= x < |cur| ensures cur[x].users[u] == Uses(cur, u, x) {
      CopyUses(ns, cur, vm, x, u);
    }
  }

  // ---------------------------------------------------------------- the copy is a function of its own

  lemma CopyOwns(ns: Nodes, f: Fn, ns': Nodes, f': Fn, vm: map<nat, nat>)
    requires WellFormed(ns, f) && IsCopy(ns, f, ns', f', vm)
    ensures forall n: nat :: f.Owns(n) <==> n in vm
    ensures forall n: nat :: n in vm ==> vm[n] >= |ns| && f'.Owns(vm[n])
    ensures forall x: nat :: f'.Owns(x) <==> Hit(vm, x)
    ensures Distinct(f'.graph) && f'.start != f'.end && f'.start !in f'.graph && f'.end !in f'.graph
  {
    CopyGraph(ns, f, ns', vm, f'.graph);
    hide WellFormed, Injective, Dual, Renamed, Renames, NoArgs;
    assert f'.start == vm[f.start] && f'.end == vm[f.end];
    forall n: nat | n in vm ensures f'.Owns(vm[n]) {
      assert f.Owns(n);
    }
    forall x: nat ensures f'.Owns(x) <==> Hit(vm, x) {
      if Hit(vm, x) {
        var n: nat :| n in vm && vm[n] == x;
      }
    }
  }

  // The copy shares no node with the original, is as closed, and keeps its
  // arguments in their positions.
  lemma CopyIsSeparate(ns: Nodes, f: Fn, ns': Nodes, f': Fn, vm: map<nat, nat>)
    requires WellFormed(ns, f) && Sealed(ns, f) && IsCopy(ns, f, ns', f', vm)
    ensures forall x: nat :: f'.Owns(x) ==> x >= |ns|
    ensures Sealed(ns', f')
    ensures |f'.args| == |f.args| && forall i :: 0 <= i < |f.args| ==> f.args[i] in vm && f'.args[i] == vm[f.args[i]]
  {
    CopySealed(ns, f, ns', f', vm);
    CopyArgs(ns, f, ns', f', vm);
  }

  lemma CopyArgs(ns: Nodes, f: Fn, ns': Nodes, f': Fn, vm: map<nat, nat>)
    requires WellFormed(ns, f) && IsCopy(ns, f, ns', f', vm)
    ensures |f'.args| == |f.args| && forall i :: 0 <= i < |f.args| ==> f.args[i] in vm && f'.args[i] == vm[f.args[i]]
  {
    hide Injective, Dual, Renamed, NoArgs;
    forall i | 0 <= i < |f.args| ensures f.args[i] in vm {
      assert f.args[i] in f.args;
      assert f.Owns(f.args[i]);
    }
  }

  lemma CopySealed(ns: Nodes, f: Fn, ns': Nodes, f': Fn, vm: map<nat, nat>)
    requires WellFormed(ns, f) && Sealed(ns, f) && IsCopy(ns, f, ns', f', vm)
    ensures forall x: nat :: f'.Owns(x) ==> x >= |ns|
    ensures Sealed(ns', f')
  {
    CopyOwns(ns, f, ns', f', vm);
    hide WellFormed, Sealed, Injective, Dual, Renamed, Renames, NoArgs, Fn.Owns;
    forall x: nat | f'.Owns(x) && x < |ns'|
      ensures forall i :: 0 <= i < |ns'[x].ops| ==> ns'[x].ops[i].Some? && f'.Owns(ns'[x].ops[i].value)
      ensures forall u: nat :: u in ns'[x].users ==> f'.Owns(u)
    {
      assert Hit(vm, x);
      var n: nat :| n in vm && vm[n] == x;
      RenamedIsSealed(ns, f, f', ns'[x], vm, n);
    }
    SealedIf(ns', f');
  }

  lemma SealedIf(ns: Nodes, f: Fn)
    requires forall n: nat :: f.Owns(n) && n < |ns| ==>
      && (forall i :: 0 <= i < |ns[n].ops| ==> ns[n].ops[i].Some? && f.Owns(ns[n].ops[i].value))
      && forall u: nat :: u in ns[n].users ==> f.Owns(u)
    ensures Sealed(ns, f)
  {
  }

  lemma RenamedIsSealed(ns: Nodes, f: Fn, f': Fn, b: Node, vm: map<nat, nat>, n: nat)
    requires Sealed(ns, f) && f.Owns(n) && n < |ns| && Renamed(ns[n], b, vm)
    requires forall m: nat :: f.Owns(m) <==> m in vm
    requires forall m: nat :: m in vm ==> f'.Owns(vm[m])
    ensures forall i :: 0 <= i < |b.ops| ==> b.ops[i].Some? && f'.Owns(b.ops[i].value)
    ensures forall u: nat :: u in b.users ==> f'.Owns(u)
  {
    forall i | 0 <= i < |b.ops| ensures b.ops[i].Some? && f'.Owns(b.ops[i].value) {
      assert b.ops[i] == MapSlot(ns[n].ops[i], vm);
      assert f.Owns(ns[n].ops[i].value);
    }
  }
}
