// Inlining of a static call (src/Optimizations/Inlining.hpp:34-90).
module InliningPass {
  import opened SeqUtil
  import opened UseDef
  import opened FunctionCopy

  // ---------------------------------------------------------------- arguments

  // The slot after the first k arguments have been replaced.
  function ArgSlot(s: Slot, args: seq<nat>, to: seq<Slot>, k: nat): Slot
    requires k <= |args| <= |to|
  {
    if k == 0 then s
    else if s == Some(args[k - 1]) then to[k - 1]
    else ArgSlot(s, args, to, k - 1)
  }

  function ArgSlots(ops: seq<Slot>, args: seq<nat>, to: seq<Slot>, k: nat): seq<Slot>
    requires k <= |args| <= |to|
  {
    seq(|ops|, i requires 0 <= i < |ops| => ArgSlot(ops[i], args, to, k))
  }

  // No target is itself replaced.
  ghost predicate Targets(args: seq<nat>, to: seq<Slot>) {
    && Distinct(args) && |args| <= |to|
    && forall i, j :: 0 <= i < |to| && 0 <= j < |args| ==> to[i] != Some(args[j])
  }

  lemma {:induction false} ArgSlotIs(s: Slot, args: seq<nat>, to: seq<Slot>, k: nat)
    requires k <= |args| <= |to| && Distinct(args)
    ensures forall j :: 0 <= j < k && s == Some(args[j]) ==> ArgSlot(s, args, to, k) == to[j]
    ensures (forall j :: 0 <= j < k ==> s != Some(args[j])) ==> ArgSlot(s, args, to, k) == s
  {
    if k > 0 {
      ArgSlotIs(s, args, to, k - 1);
    }
  }

  lemma ArgSlotNext(s: Slot, args: seq<nat>, to: seq<Slot>, k: nat)
    requires k < |args| && Targets(args, to)
    ensures ArgSlot(s, args, to, k + 1) == if ArgSlot(s, args, to, k) == Some(args[k]) then to[k] else ArgSlot(s, args, to, k)
  {
    ArgSlotIs(s, args, to, k);
    if j :| 0 <= j < k && s == Some(args[j]) {
    }
  }

  // The first k arguments have been replaced everywhere.
  ghost predicate ArgsReplaced(ns: Nodes, cur: Nodes, args: seq<nat>, to: seq<Slot>, k: nat)
    requires k <= |args| <= |to|
  {
    && |cur| == |ns| && Dual(cur)
    && forall u :: 0 <= u < |ns| ==> cur[u].kind == ns[u].kind && cur[u].ty == ns[u].ty && cur[u].ops == ArgSlots(ns[u].ops, args, to, k)
  }

  lemma ArgsReplacedNext(ns: Nodes, cur: Nodes, cur': Nodes, args: seq<nat>, to: seq<Slot>, k: nat)
    requires k < |args| <= |to| && Targets(args, to) && ArgsReplaced(ns, cur, args, to, k)
      && Substituted(cur, cur', args[k], to[k])
    ensures ArgsReplaced(ns, cur', args, to, k + 1)
  {
    hide Dual, Targets;
    forall u | 0 <= u < |ns| ensures cur'[u].ops == ArgSlots(ns[u].ops, args, to, k + 1) {
      forall i | 0 <= i < |ns[u].ops| ensures cur'[u].ops[i] == ArgSlots(ns[u].ops, args, to, k + 1)[i] {
        ArgSlotNext(ns[u].ops[i], args, to, k);
      }
    }
  }

  method ReplaceArgs(W: Graph, args: seq<nat>, to: seq<Slot>)
    requires Dual(W.nodes) && Targets(args, to)
    requires forall i :: 0 <= i < |args| ==> args[i] < |W.nodes|
    requires forall i :: 0 <= i < |to| && to[i].Some? ==> to[i].value < |W.nodes|
    modifies W
    ensures ArgsReplaced(old(W.nodes), W.nodes, args, to, |args|)
  {
    hide Substituted, ArgSlots, ArgSlot;
    ghost var ns := W.nodes;
    NoArgsReplaced(ns, args, to);
    for k := 0 to |args|
      invariant ArgsReplaced(ns, W.nodes, args, to, k)
    {
      ghost var before := W.nodes;
      W.ReplaceWith(args[k], to[k]);
      ArgsReplacedNext(ns, before, W.nodes, args, to, k);
    }
  }

  lemma NoArgsReplaced(ns: Nodes, args: seq<nat>, to: seq<Slot>)
    requires Dual(ns) && |args| <= |to|
    ensures ArgsReplaced(ns, ns, args, to, 0)
  {
    assert forall u :: 0 <= u < |ns| ==> ArgSlots(ns[u].ops, args, to, 0) == ns[u].ops;
  }

  // ---------------------------------------------------------------- returns

  // Slots that hold one of the first k returns are empty.
  function DropSlots(ops: seq<Slot>, rets: seq<nat>): seq<Slot> {
    seq(|ops|, i requires 0 <= i < |ops| => if ops[i].Some? && ops[i].value in rets then None else ops[i])
  }

  // A two-operand return: its region and its value, neither of which is a return of the list.
  ghost predicate IsReturn(ns: Nodes, rets: seq<nat>, r: nat) {
    && r < |ns| && ns[r].kind.Ret? && |ns[r].ops| == 2
    && forall i :: 0 <= i < 2 ==> ns[r].ops[i].Some? && ns[r].ops[i].value !in rets && ns[r].ops[i].value < |ns|
  }

  ghost predicate Dropped(a: Node, b: Node, rets: seq<nat>, own: bool) {
    b.kind == a.kind && b.ty == a.ty && b.ops == if own then Empty(2) else DropSlots(a.ops, rets)
  }

  // The first k returns have become jumps into region rr and values of phi rr + 1.
  ghost predicate Joined(ns: Nodes, cur: Nodes, rets: seq<nat>, k: nat, num: nat, ty: ValueType)
    requires k <= |rets|
  {
    var rr := |ns|;
    && |cur| == rr + 2 + k && Dual(cur)
    && (forall u :: 0 <= u < rr ==> Dropped(ns[u], cur[u], rets[..k], u in rets[..k]))
    && cur[rr].kind == Region(num) && |cur[rr].ops| == k
    && cur[rr + 1].kind == Phi && cur[rr + 1].ty == ty && |cur[rr + 1].ops| == |rets| + 1 && cur[rr + 1].ops[0] == Some(rr)
    && forall j :: 0 <= j < k ==> JoinedAt(ns, cur, rets, rr, j)
  }

  // The j-th return, its jump and its value.
  ghost predicate JoinedAt(ns: Nodes, cur: Nodes, rets: seq<nat>, rr: nat, j: nat) {
    && j < |rets| && rets[j] < |ns| && |ns[rets[j]].ops| == 2
    && rr + 2 + j < |cur| && j < |cur[rr].ops| && j + 1 < |cur[rr + 1].ops|
    && cur[rr].ops[j] == Some(rr + 2 + j)
    && cur[rr + 2 + j].kind == Jmp && cur[rr + 2 + j].ops == [ns[rets[j]].ops[0]]
    && cur[rr + 1].ops[j + 1] == ns[rets[j]].ops[1]
  }

  // The state before the k-th return is detached.
  ghost predicate Joining(ns: Nodes, cur: Nodes, rets: seq<nat>, k: nat, num: nat, ty: ValueType)
    requires k < |rets|
  {
    var rr := |ns|;
    && |cur| == rr + 3 + k && Dual(cur)
    && (forall u :: 0 <= u < rr ==> Dropped(ns[u], cur[u], rets[..k], u in rets[..k]))
    && cur[rr].kind == Region(num) && |cur[rr].ops| == k + 1
    && cur[rr + 1].kind == Phi && cur[rr + 1].ty == ty && |cur[rr + 1].ops| == |rets| + 1 && cur[rr + 1].ops[0] == Some(rr)
    && forall j :: 0 <= j <= k ==> JoinedAt(ns, cur, rets, rr, j)
  }

  lemma ReturnSlots(ns: Nodes, cur: Nodes, rets: seq<nat>, k: nat, num: nat, ty: ValueType)
    requires Distinct(rets) && k < |rets| && forall j :: 0 <= j < |rets| ==> IsReturn(ns, rets, rets[j])
    requires Joined(ns, cur, rets, k, num, ty)
    ensures rets[k] < |ns| && cur[rets[k]].ops == ns[rets[k]].ops
  {
    hide Dual, JoinedAt;
    var r := rets[k];
    assert IsReturn(ns, rets, r);
    assert r !in rets[..k];
    forall i | 0 <= i < 2 ensures cur[r].ops[i] == ns[r].ops[i] {
      assert ns[r].ops[i].value !in rets[..k];
    }
  }

  lemma JoinedStays(ns: Nodes, cur: Nodes, cur': Nodes, rets: seq<nat>, rr: nat, j: nat, k: nat, phi: seq<Slot>,
          phi': seq<Slot>)
    requires JoinedAt(ns, cur, rets, rr, j)
    requires j < k < |rets| && rr + 1 < |cur| <= |cur'|
    requires forall v :: 0 <= v < |cur| && v != rr && v != rr + 1 ==> SameButUsers(cur'[v], cur[v])
    requires cur[rr].ops <= cur'[rr].ops && phi == cur[rr + 1].ops && phi' == cur'[rr + 1].ops
    requires |phi'| == |phi| && forall i :: 0 <= i < |phi| && i != k + 1 ==> phi'[i] == phi[i]
    ensures JoinedAt(ns, cur', rets, rr, j)
  {
  }

  lemma JoinNode(ns: Nodes, cur: Nodes, cur1: Nodes, cur2: Nodes, cur3: Nodes, rets: seq<nat>, k: nat, num: nat,
          ty: ValueType)
    requires Distinct(rets) && k < |rets| && forall j :: 0 <= j < |rets| ==> IsReturn(ns, rets, rets[j])
    requires Joined(ns, cur, rets, k, num, ty) && rets[k] < |ns| && |ns[rets[k]].ops| == 2
    requires |cur1| == |cur| && forall v :: 0 <= v < |cur| && v != |ns| + 1 ==> SameButUsers(cur1[v], cur[v])
    requires cur1[|ns| + 1].kind == Phi && cur1[|ns| + 1].ty == ty
      && cur1[|ns| + 1].ops == cur[|ns| + 1].ops[k + 1 := ns[rets[k]].ops[1]]
    requires Created(cur1, cur2, Jmp, Void, [ns[rets[k]].ops[0]])
    requires |cur3| == |cur2| && Dual(cur3) && forall v :: 0 <= v < |cur2| && v != |ns| ==> SameButUsers(cur3[v], cur2[v])
    requires cur3[|ns|].kind == Region(num) && cur3[|ns|].ops == cur2[|ns|].ops + [Some(|cur|)]
    ensures Joining(ns, cur3, rets, k, num, ty)
  {
    hide Dual, IsReturn, DropSlots;
    var rr := |ns|;
    forall j | 0 <= j < k ensures JoinedAt(ns, cur3, rets, rr, j) {
      assert JoinedAt(ns, cur, rets, rr, j);
      JoinedStays(ns, cur, cur3, rets, rr, j, k, cur[rr + 1].ops, cur3[rr + 1].ops);
    }
    assert IsReturn(ns, rets, rets[k]);
    JoinReturnShape(ns, rets, k);
    assert JoinedAt(ns, cur3, rets, rr, k);
  }

  lemma JoinReturnShape(ns: Nodes, rets: seq<nat>, j: nat)
    requires j < |rets| && IsReturn(ns, rets, rets[j])
    ensures rets[j] < |ns| && |ns[rets[j]].ops| == 2
  {
  }

  lemma DetachReturn(ns: Nodes, cur: Nodes, cur': Nodes, rets: seq<nat>, k: nat, num: nat, ty: ValueType)
    requires Distinct(rets) && k < |rets| && forall j :: 0 <= j < |rets| ==> IsReturn(ns, rets, rets[j])
    requires Joining(ns, cur, rets, k, num, ty) && Detached(cur, cur', rets[k])
    ensures Joined(ns, cur', rets, k + 1, num, ty)
  {
    hide Dual, JoinedAt, IsReturn;
    assert rets[..k + 1] == rets[..k] + [rets[k]];
    assert IsReturn(ns, rets, rets[k]);
    JoinReturnShape(ns, rets, k);
    forall u | 0 <= u < |ns| ensures Dropped(ns[u], cur'[u], rets[..k + 1], u in rets[..k + 1]) {
      DetachedSlots(ns, cur, cur', rets, k, u);
    }
    forall j | 0 <= j < k + 1 ensures JoinedAt(ns, cur', rets, |ns|, j) {
      assert IsReturn(ns, rets, rets[j]);
      JoinReturnShape(ns, rets, j);
      DetachedJoin(ns, cur, cur', rets, k, j);
    }
    PhiHead(cur, cur', rets[k], |ns|, |rets|);
  }

  lemma PhiHead(cur: Nodes, cur': Nodes, r: nat, rr: nat, n: nat)
    requires Detached(cur, cur', r) && r < rr && rr + 1 < |cur| && |cur[rr + 1].ops| == n + 1
      && cur[rr + 1].ops[0] == Some(rr)
    ensures |cur'[rr + 1].ops| == n + 1 && cur'[rr + 1].ops[0] == Some(rr)
  {
  }

  lemma DroppedNext(a: Node, b: Node, b': Node, rets: seq<nat>, k: nat, own: bool)
    requires k < |rets| && Dropped(a, b, rets[..k], own)
    requires b'.kind == b.kind && b'.ty == b.ty && b'.ops == SubstSlots(b.ops, rets[k], None)
    ensures Dropped(a, b', rets[..k + 1], own)
  {
    assert rets[..k + 1] == rets[..k] + [rets[k]];
    if own {
      assert SubstSlots(Empty(2), rets[k], None) == Empty(2);
    } else {
      assert SubstSlots(DropSlots(a.ops, rets[..k]), rets[k], None) == DropSlots(a.ops, rets[..k + 1]);
    }
  }

  lemma DetachedSlots(ns: Nodes, cur: Nodes, cur': Nodes, rets: seq<nat>, k: nat, u: nat)
    requires k < |rets| && rets[k] < |ns| && u < |ns| <= |cur| && Detached(cur, cur', rets[k]) && |ns[rets[k]].ops| == 2
    requires Distinct(rets) && Dropped(ns[u], cur[u], rets[..k], u in rets[..k])
    ensures Dropped(ns[u], cur'[u], rets[..k + 1], u in rets[..k + 1])
  {
    hide Dual;
    assert rets[..k + 1] == rets[..k] + [rets[k]];
    if u == rets[k] {
      assert |cur[u].ops| == 2;
    } else {
      DroppedNext(ns[u], cur[u], cur'[u], rets, k, u in rets[..k]);
    }
  }

  lemma DetachedJoin(ns: Nodes, cur: Nodes, cur': Nodes, rets: seq<nat>, k: nat, j: nat)
    requires j < |rets| && k < |rets| && IsReturn(ns, rets, rets[j]) && rets[k] < |ns|
    requires |ns| < |cur| && JoinedAt(ns, cur, rets, |ns|, j) && Detached(cur, cur', rets[k])
    ensures JoinedAt(ns, cur', rets, |ns|, j)
  {
    hide Dual;
    var rr, r, jmp := |ns|, rets[k], |ns| + 2 + j;
    assert r in rets;
    assert cur'[rr].ops == SubstSlots(cur[rr].ops, r, None);
    assert cur'[rr + 1].ops == SubstSlots(cur[rr + 1].ops, r, None);
    assert cur'[jmp].ops == SubstSlots(cur[jmp].ops, r, None);
    assert ns[rets[j]].ops[0] != Some(r) && ns[rets[j]].ops[1] != Some(r);
  }

  // The region and the phi that collect the returns, and one jump for each.
  method JoinReturns(W: Graph, rets: seq<nat>, num: nat, ty: ValueType) returns (retRegion: nat, retValue: nat)
    requires Dual(W.nodes) && Distinct(rets) && forall j :: 0 <= j < |rets| ==> IsReturn(W.nodes, rets, rets[j])
    modifies W
    ensures retRegion == |old(W.nodes)| && retValue == retRegion + 1
    ensures Joined(old(W.nodes), W.nodes, rets, |rets|, num, ty)
  {
    hide Dual, Joined, Joining, IsReturn;
    ghost var ns := W.nodes;
    retRegion := W.Create(Region(num), Void, []);
    ghost var ns1 := W.nodes;
    retValue := W.Create(Phi, ty, [Some(retRegion)] + Empty(|rets|));
    JoinedNone(ns, ns1, W.nodes, rets, num, ty);
    for i := 0 to |rets|
      invariant Joined(ns, W.nodes, rets, i, num, ty)
    {
      JoinReturn(W, rets, i, num, ty, retRegion, retValue, ns);
    }
  }

  lemma JoinedNone(ns: Nodes, ns1: Nodes, cur: Nodes, rets: seq<nat>, num: nat, ty: ValueType)
    requires Dual(ns) && Created(ns, ns1, Region(num), Void, [])
    requires Created(ns1, cur, Phi, ty, [Some(|ns|)] + Empty(|rets|))
    requires forall j :: 0 <= j < |rets| ==> IsReturn(ns, rets, rets[j])
    ensures Joined(ns, cur, rets, 0, num, ty)
  {
    hide Dual, IsReturn, JoinedAt;
    forall u | 0 <= u < |ns| ensures DropSlots(ns[u].ops, rets[..0]) == ns[u].ops {
    }
  }

  method JoinReturn(W: Graph, rets: seq<nat>, i: nat, num: nat, ty: ValueType, retRegion: nat, retValue: nat,
          ghost ns: Nodes)
    requires Distinct(rets) && i < |rets| && forall j :: 0 <= j < |rets| ==> IsReturn(ns, rets, rets[j])
    requires Joined(ns, W.nodes, rets, i, num, ty) && retRegion == |ns| && retValue == |ns| + 1
    modifies W
    ensures Joined(ns, W.nodes, rets, i + 1, num, ty)
  {
    hide Dual, Joining, IsReturn, JoinedAt, DropSlots;
    var curRet := rets[i];
    ReturnSlots(ns, W.nodes, rets, i, num, ty);
    ReturnRange(ns, rets, i);
    ghost var cur := W.nodes;
    var curVal := W.nodes[curRet].ops[1];
    W.SetOperand(retValue, i + 1, curVal);
    ghost var cur1 := W.nodes;
    var curJmp := W.Create(Jmp, Void, [W.nodes[curRet].ops[0]]);
    ghost var cur2 := W.nodes;
    var idx := W.AddOperand(retRegion, Some(curJmp));
    JoinNode(ns, cur, cur1, cur2, W.nodes, rets, i, num, ty);
    ghost var cur3 := W.nodes;
    W.Detach(curRet);
    hide Joined;
    DetachReturn(ns, cur3, W.nodes, rets, i, num, ty);
  }

  lemma ReturnRange(ns: Nodes, rets: seq<nat>, i: nat)
    requires i < |rets| && IsReturn(ns, rets, rets[i])
    ensures rets[i] < |ns| && |ns[rets[i]].ops| == 2
    ensures forall k :: 0 <= k < 2 ==> ns[rets[i]].ops[k].Some? && ns[rets[i]].ops[k].value < |ns|
  {
  }

  // ---------------------------------------------------------------- the call itself

  // The one region that follows the call, and its slot.
  ghost predicate Follows(ns: Nodes, cn: nat, next: nat, at: nat) {
    && next < |ns| && at < |ns[next].ops| && NextSlot(ns, cn, next, at)
    && forall u: nat, i: nat :: NextSlot(ns, cn, u, i) ==> u == next && i == at
  }

  predicate NextSlot(ns: Nodes, cn: nat, u: nat, i: nat) {
    u < |ns| && ns[u].kind.Region? && i < |ns[u].ops| && ns[u].ops[i] == Some(cn)
  }

  // Only the slot of the following region has changed.
  ghost predicate Redirected(ns: Nodes, cur: Nodes, next: nat, at: nat, s: Slot) {
    && |cur| == |ns| && Dual(cur) && next < |ns| && at < |ns[next].ops|
    && (forall u :: 0 <= u < |ns| && u != next ==> SameButUsers(cur[u], ns[u]))
    && cur[next].kind == ns[next].kind && cur[next].ty == ns[next].ty && cur[next].ops == ns[next].ops[at := s]
  }

  lemma NotRedirected(ns: Nodes, cn: nat, next: nat, at: nat)
    requires Dual(ns) && Follows(ns, cn, next, at)
    ensures Redirected(ns, ns, next, at, Some(cn)) && cn < |ns| && next in ns[cn].users
  {
    SlotHasUser(ns, next, at, cn);
  }

  // The call is replaced by the final jump where control continues.
  method Redirect(W: Graph, cn: nat, finalJmp: nat, ghost next: nat, ghost at: nat) returns (done: bool)
    requires Dual(W.nodes) && Follows(W.nodes, cn, next, at) && finalJmp < |W.nodes| && finalJmp != cn && cn < |W.nodes|
    modifies W
    ensures done && Redirected(old(W.nodes), W.nodes, next, at, Some(finalJmp))
  {
    hide Dual, SameButUsers;
    ghost var ns := W.nodes;
    NotRedirected(ns, cn, next, at);
    var users := W.nodes[cn].users;
    done := false;
    while users != multiset{}
      invariant Redirected(ns, W.nodes, next, at, if done then Some(finalJmp) else Some(cn))
      invariant done || next in users
      decreases |users|
    {
      var u :| u in users;
      users := users - multiset{u};
      if u < |W.nodes| && W.nodes[u].kind.Region? {
        var i := SlotOf(W, u, cn);
        if i < |W.nodes[u].ops| {
          OnlyNext(ns, W.nodes, cn, next, at, if done then Some(finalJmp) else Some(cn), u, i);
          ghost var before := W.nodes;
          W.SetOperand(u, i, Some(finalJmp));
          RedirectStep(ns, before, W.nodes, next, at, Some(cn), Some(finalJmp));
          done := true;
        }
      }
    }
  }

  lemma RedirectStep(ns: Nodes, cur: Nodes, cur': Nodes, next: nat, at: nat, s: Slot, s': Slot)
    requires Redirected(ns, cur, next, at, s) && |cur'| == |cur| && Dual(cur')
    requires forall v :: 0 <= v < |cur| && v != next ==> SameButUsers(cur'[v], cur[v])
    requires cur'[next].kind == cur[next].kind && cur'[next].ty == cur[next].ty
      && cur'[next].ops == cur[next].ops[at := s']
    ensures Redirected(ns, cur', next, at, s')
  {
    hide Dual;
  }

  // The first slot of u that holds n, or the number of slots.
  method SlotOf(W: Graph, u: nat, n: nat) returns (i: nat)
    requires u < |W.nodes|
    ensures i <= |W.nodes[u].ops| && (i < |W.nodes[u].ops| ==> W.nodes[u].ops[i] == Some(n))
    ensures i == |W.nodes[u].ops| ==> Some(n) !in W.nodes[u].ops
  {
    for k := 0 to |W.nodes[u].ops|
      invariant forall j :: 0 <= j < k ==> W.nodes[u].ops[j] != Some(n)
    {
      if W.nodes[u].ops[k] == Some(n) {
        return k;
      }
    }
    return |W.nodes[u].ops|;
  }

  lemma OnlyNext(ns: Nodes, cur: Nodes, cn: nat, next: nat, at: nat, s: Slot, u: nat, i: nat)
    requires Follows(ns, cn, next, at) && Redirected(ns, cur, next, at, s) && NextSlot(cur, cn, u, i)
    ensures u == next && i == at && s == Some(cn)
  {
    hide Dual;
    assert u != next || i != at ==> NextSlot(ns, cn, u, i);
  }

  // ---------------------------------------------------------------- the nodes after inlining

  // args and rets are the arguments and returns of the callee's copy, start its
  // start region; to lists the operands of the call cn, the last one its region.
  // next and at name the slot of the region that follows the call.
  datatype Site = Site(args: seq<nat>, to: seq<Slot>, rets: seq<nat>, start: nat, cn: nat, next: nat, at: nat)
  {
    function Region(): Slot
      requires to != []
    {
      to[|to| - 1]
    }
  }

  ghost predicate TargetOk(ns: Nodes, d: Site, s: Slot) {
    s.Some? && s.value < |ns| && s.value !in d.rets && s.value != d.cn && s.value != d.start
  }

  ghost predicate SiteOk(ns: Nodes, d: Site) {
    && Targets(d.args, d.to) && |d.to| == |d.args| + 1
    && (forall i :: 0 <= i < |d.args| ==> d.args[i] < |ns|)
    && (forall i :: 0 <= i < |d.to| ==> TargetOk(ns, d, d.to[i]))
    && Distinct(d.rets) && (forall j :: 0 <= j < |d.rets| ==> IsReturn(ns, d.rets, d.rets[j]))
    && d.start < |ns| && d.cn < |ns| && d.start != d.cn && d.start !in d.args && d.cn !in d.args
    && d.start !in d.rets && d.cn !in d.rets && ns[d.cn].ops == d.to
    && Follows(ns, d.cn, d.next, d.at) && d.next !in d.rets && d.next != d.cn
  }

  // What a slot holds in the end.
  function FinalSlot(s: Slot, d: Site, phi: nat): Slot
    requires |d.to| == |d.args| + 1
  {
    var a := ArgSlot(s, d.args, d.to, |d.args|);
    if a.Some? && a.value in d.rets then None
    else if a == Some(d.cn) then Some(phi)
    else if a == Some(d.start) then d.Region()
    else a
  }

  function FinalSlots(ops: seq<Slot>, d: Site, phi: nat): seq<Slot>
    requires |d.to| == |d.args| + 1
  {
    seq(|ops|, i requires 0 <= i < |ops| => FinalSlot(ops[i], d, phi))
  }

  // ns are the nodes once the callee is copied, cur those at the end. The new
  // nodes are region rr, phi rr + 1, a jump for each return, and the final jump.
  ghost predicate Inlined(ns: Nodes, cur: Nodes, d: Site, num: nat, ty: ValueType)
    requires |d.to| == |d.args| + 1
  {
    var rr, n := |ns|, |d.rets|;
    && |cur| == rr + 3 + n && Dual(cur)
    && (forall u :: 0 <= u < rr ==> InlinedNode(ns[u], cur[u], u, d, rr))
    && cur[rr].kind == Region(num) && |cur[rr].ops| == n
    && cur[rr + 1].kind == Phi && cur[rr + 1].ty == ty && |cur[rr + 1].ops| == n + 1 && cur[rr + 1].ops[0] == Some(rr)
    && (forall j :: 0 <= j < n ==> ReturnJoined(ns, cur, d, rr, j))
    && cur[rr + 2 + n].kind == Jmp && cur[rr + 2 + n].ops == [Some(rr)]
  }

  ghost predicate InlinedNode(a: Node, b: Node, u: nat, d: Site, rr: nat)
    requires |d.to| == |d.args| + 1
  {
    && b.kind == a.kind && b.ty == a.ty
    && b.ops ==
      if u == d.cn || u in d.rets then Empty(|a.ops|)
      else if u == d.next && d.at < |a.ops| then FinalSlots(a.ops, d, rr + 1)[d.at := Some(rr + 2 + |d.rets|)]
      else FinalSlots(a.ops, d, rr + 1)
  }

  // The j-th value of the phi is that of the j-th return, and its j-th
  // predecessor is the region of that return.
  ghost predicate ReturnJoined(ns: Nodes, cur: Nodes, d: Site, rr: nat, j: nat)
    requires |d.to| == |d.args| + 1
  {
    && j < |d.rets| && d.rets[j] < |ns| && |ns[d.rets[j]].ops| == 2
    && rr + 2 + j < |cur| && j < |cur[rr].ops| && j + 1 < |cur[rr + 1].ops|
    && cur[rr].ops[j] == Some(rr + 2 + j)
    && cur[rr + 2 + j].kind == Jmp && cur[rr + 2 + j].ops == [FinalSlot(ns[d.rets[j]].ops[0], d, rr + 1)]
    && cur[rr + 1].ops[j + 1] == FinalSlot(ns[d.rets[j]].ops[1], d, rr + 1)
  }

  // ---------------------------------------------------------------- putting the steps together

  // Replace the call by the phi, the start by the call's region, then drop the call.
  function Last(ops: seq<Slot>, d: Site, phi: nat): seq<Slot>
    requires d.to != []
  {
    SubstSlots(SubstSlots(SubstSlots(ops, d.cn, Some(phi)), d.start, d.Region()), d.cn, None)
  }

  lemma LastIs(ops: seq<Slot>, d: Site, phi: nat, i: nat)
    requires d.to != [] && i < |ops| && d.Region() != Some(d.cn) && phi != d.cn && phi != d.start
    ensures |Last(ops, d, phi)| == |ops|
    ensures Last(ops, d, phi)[i] == if ops[i] == Some(d.cn) then Some(phi) else if ops[i] == Some(d.start) then d.Region() else ops[i]
  {
  }

  // A slot that survived the arguments and returns ends as FinalSlot says.
  lemma LastFinal(ops: seq<Slot>, d: Site, phi: nat)
    requires |d.to| == |d.args| + 1 && d.Region() != Some(d.cn) && phi != d.cn && phi != d.start
    ensures Last(DropSlots(ArgSlots(ops, d.args, d.to, |d.args|), d.rets), d, phi) == FinalSlots(ops, d, phi)
  {
    var mid := DropSlots(ArgSlots(ops, d.args, d.to, |d.args|), d.rets);
    forall i | 0 <= i < |ops| ensures Last(mid, d, phi)[i] == FinalSlots(ops, d, phi)[i] {
      LastIs(mid, d, phi, i);
    }
  }

  lemma ReturnsStay(ns: Nodes, s1: Nodes, d: Site, j: nat)
    requires SiteOk(ns, d) && ArgsReplaced(ns, s1, d.args, d.to, |d.args|) && j < |d.rets|
    ensures IsReturn(s1, d.rets, d.rets[j])
  {
    hide Dual, Follows;
    var r := d.rets[j];
    assert IsReturn(ns, d.rets, r);
    forall i | 0 <= i < 2 ensures s1[r].ops[i].Some? && s1[r].ops[i].value !in d.rets && s1[r].ops[i].value < |s1| {
      ArgSlotCases(ns[r].ops[i], d);
      if k :| 0 <= k < |d.args| && s1[r].ops[i] == d.to[k] {
        assert TargetOk(ns, d, d.to[k]);
      }
    }
  }

  lemma ArgSlotCases(s: Slot, d: Site)
    requires Targets(d.args, d.to) && |d.to| == |d.args| + 1
    ensures ArgSlot(s, d.args, d.to, |d.args|) == s || exists k :: 0 <= k < |d.args| && ArgSlot(s, d.args, d.to, |d.args|) == d.to[k]
  {
    ArgSlotIs(s, d.args, d.to, |d.args|);
    if j :| 0 <= j < |d.args| && s == Some(d.args[j]) {
    }
  }

  // Neither arguments nor returns touch the slots that hold the call.
  lemma CallSlot(ns: Nodes, d: Site, s: Slot)
    requires SiteOk(ns, d)
    ensures var a := ArgSlot(s, d.args, d.to, |d.args|);
      ((if a.Some? && a.value in d.rets then None else a) == Some(d.cn)) <==> s == Some(d.cn)
  {
    hide Follows;
    ArgSlotIs(s, d.args, d.to, |d.args|);
    ArgSlotCases(s, d);
    if k :| 0 <= k < |d.args| && ArgSlot(s, d.args, d.to, |d.args|) == d.to[k] {
      assert TargetOk(ns, d, d.to[k]);
    }
    assert s == Some(d.cn) ==> forall j :: 0 <= j < |d.args| ==> s != Some(d.args[j]);
  }

  lemma FollowsStill(ns: Nodes, s1: Nodes, s2: Nodes, d: Site, num: nat, ty: ValueType)
    requires SiteOk(ns, d) && ArgsReplaced(ns, s1, d.args, d.to, |d.args|) && Joined(s1, s2, d.rets, |d.rets|, num, ty)
    ensures Follows(s2, d.cn, d.next, d.at)
  {
    hide Dual, Targets, ArgSlot, IsReturn, TargetOk;
    forall u: nat, i: nat ensures NextSlot(s2, d.cn, u, i) <==> NextSlot(ns, d.cn, u, i) {
      NextStill(ns, s1, s2, d, num, ty, u, i);
    }
  }

  lemma NextStill(ns: Nodes, s1: Nodes, s2: Nodes, d: Site, num: nat, ty: ValueType, u: nat, i: nat)
    requires SiteOk(ns, d) && ArgsReplaced(ns, s1, d.args, d.to, |d.args|) && Joined(s1, s2, d.rets, |d.rets|, num, ty)
    ensures NextSlot(s2, d.cn, u, i) <==> NextSlot(ns, d.cn, u, i)
  {
    hide Dual, Targets, ArgSlot, TargetOk, Follows;
    assert d.rets[..|d.rets|] == d.rets;
    if u < |ns| {
      assert Dropped(s1[u], s2[u], d.rets, u in d.rets);
      if u in d.rets {
        assert IsReturn(ns, d.rets, u);
      } else if i < |ns[u].ops| {
        CallSlot(ns, d, ns[u].ops[i]);
      }
    } else if u >= |ns| + 2 {
      assert u < |s2| ==> JoinedAt(s1, s2, d.rets, |ns|, u - |ns| - 2);
    } else if u == |ns| && i < |s2[u].ops| {
      assert JoinedAt(s1, s2, d.rets, |ns|, i);
    }
  }

  // Replacing the call, replacing the start and dropping the call, node by node.
  lemma Tail(s4: Nodes, s5: Nodes, s6: Nodes, s7: Nodes, d: Site, phi: nat, u: nat)
    requires d.to != [] && u < |s4| && d.cn < |s4|
    requires Substituted(s4, s5, d.cn, Some(phi)) && Substituted(s5, s6, d.start, d.Region()) && Detached(s6, s7, d.cn)
    ensures u < |s7| && s7[u].kind == s4[u].kind && s7[u].ty == s4[u].ty
    ensures s7[u].ops == if u == d.cn then Empty(|s4[u].ops|) else Last(s4[u].ops, d, phi)
  {
    hide Dual;
  }

  lemma OldNodeInlined(a: Node, b1: Node, b2: Node, b4: Node, b7: Node, u: nat, d: Site, rr: nat)
    requires |d.to| == |d.args| + 1 && d.Region() != Some(d.cn) && rr + 1 != d.cn && rr + 1 != d.start
    requires b1.kind == a.kind && b1.ty == a.ty && b1.ops == ArgSlots(a.ops, d.args, d.to, |d.args|)
    requires Dropped(b1, b2, d.rets, u in d.rets) && (u in d.rets ==> |a.ops| == 2 && u != d.next)
    requires b4.kind == b2.kind && b4.ty == b2.ty && b4.ops == if u == d.next && d.at < |b2.ops| then b2.ops[d.at := Some(rr + 2 + |d.rets|)] else b2.ops
    requires d.cn < rr && d.start < rr
    requires b7.kind == b4.kind && b7.ty == b4.ty && b7.ops == if u == d.cn then Empty(|b4.ops|) else Last(b4.ops, d, rr + 1)
    ensures InlinedNode(a, b7, u, d, rr)
  {
    hide ArgSlot;
    if u == d.cn {
    } else if u in d.rets {
      EmptyLast(2, d, rr + 1);
    } else {
      var fj := Some(rr + 2 + |d.rets|);
      LastFinal(a.ops, d, rr + 1);
      if u == d.next && d.at < |a.ops| {
        LastUpdate(b2.ops, d, rr + 1, d.at, fj);
      }
    }
  }

  lemma EmptyLast(k: nat, d: Site, phi: nat)
    requires d.to != []
    ensures Last(Empty(k), d, phi) == Empty(k)
  {
  }

  lemma LastUpdate(ops: seq<Slot>, d: Site, phi: nat, at: nat, s: Slot)
    requires d.to != [] && at < |ops| && s != Some(d.cn) && s != Some(d.start)
    requires d.Region() != Some(d.cn) && phi != d.cn && phi != d.start
    ensures Last(ops[at := s], d, phi) == Last(ops, d, phi)[at := s]
  {
    var left, right := Last(ops[at := s], d, phi), Last(ops, d, phi)[at := s];
    forall i | 0 <= i < |ops| ensures left[i] == right[i] {
      LastIs(ops[at := s], d, phi, i);
      LastIs(ops, d, phi, i);
    }
  }

  // The states of the pass: ns at the start, then arguments replaced, returns
  // joined, final jump created, successor redirected, call replaced, start
  // replaced, call dropped.
  datatype Trace = Trace(ns: Nodes, s1: Nodes, s2: Nodes, s3: Nodes, s4: Nodes, s5: Nodes, s6: Nodes, s7: Nodes,
                         d: Site, num: nat, ty: ValueType)

  ghost predicate Steps(t: Trace) {
    && SiteOk(t.ns, t.d)
    && ArgsReplaced(t.ns, t.s1, t.d.args, t.d.to, |t.d.args|)
    && Joined(t.s1, t.s2, t.d.rets, |t.d.rets|, t.num, t.ty)
    && Created(t.s2, t.s3, Jmp, Void, [Some(|t.ns|)])
    && Redirected(t.s3, t.s4, t.d.next, t.d.at, Some(|t.s2|))
    && Substituted(t.s4, t.s5, t.d.cn, Some(|t.ns| + 1))
    && Substituted(t.s5, t.s6, t.d.start, t.d.Region())
    && Detached(t.s6, t.s7, t.d.cn)
  }

  lemma SiteFacts(ns: Nodes, d: Site)
    requires SiteOk(ns, d)
    ensures |d.to| == |d.args| + 1 && d.Region() != Some(d.cn) && d.cn < |ns| && d.start < |ns| && d.next < |ns|
      && d.next != d.cn
    ensures forall j :: 0 <= j < |d.rets| ==> d.rets[j] < |ns| && |ns[d.rets[j]].ops| == 2 && d.rets[j] != d.next
    ensures forall u :: u in d.rets ==> |ns[u].ops| == 2
  {
    hide Targets;
    assert TargetOk(ns, d, d.to[|d.to| - 1]);
    forall j | 0 <= j < |d.rets| ensures d.rets[j] < |ns| && |ns[d.rets[j]].ops| == 2 && d.rets[j] != d.next {
      assert IsReturn(ns, d.rets, d.rets[j]);
      assert d.rets[j] in d.rets;
    }
  }

  lemma OldNodeSteps(t: Trace, u: nat)
    requires Steps(t) && u < |t.ns|
    ensures u < |t.s1| && u < |t.s2| && u < |t.s4| && |t.d.to| == |t.d.args| + 1
    ensures t.s1[u].kind == t.ns[u].kind && t.s1[u].ty == t.ns[u].ty
      && t.s1[u].ops == ArgSlots(t.ns[u].ops, t.d.args, t.d.to, |t.d.args|)
    ensures Dropped(t.s1[u], t.s2[u], t.d.rets, u in t.d.rets)
    ensures t.s4[u].kind == t.s2[u].kind && t.s4[u].ty == t.s2[u].ty
    ensures t.s4[u].ops == if u == t.d.next && t.d.at < |t.s2[u].ops| then t.s2[u].ops[t.d.at := Some(|t.s2|)] else t.s2[u].ops
    ensures |t.s2| == |t.ns| + 2 + |t.d.rets|
  {
    hide Dual, SiteOk, ArgSlots, Detached, Substituted, Dropped, JoinedAt;
    SiteFacts(t.ns, t.d);
    assert t.d.rets[..|t.d.rets|] == t.d.rets;
    assert Dropped(t.s1[u], t.s2[u], t.d.rets[..|t.d.rets|], u in t.d.rets[..|t.d.rets|]);
    assert SameButUsers(t.s3[u], t.s2[u]);
    assert u != t.d.next ==> SameButUsers(t.s4[u], t.s3[u]);
  }

  lemma StepSizes(t: Trace)
    requires Steps(t)
    ensures |t.s1| == |t.ns| && |t.s2| == |t.ns| + 2 + |t.d.rets| && |t.s3| == |t.s2| + 1 && |t.s4| == |t.s3|
      && |t.s7| == |t.s3| && t.d.cn < |t.ns|
  {
    hide Dual, SiteOk, Dropped, JoinedAt, ArgSlots, SameButUsers, SubstSlots;
    SiteFacts(t.ns, t.d);
  }

  lemma StepNew(t: Trace)
    requires Steps(t)
    ensures Joined(t.s1, t.s2, t.d.rets, |t.d.rets|, t.num, t.ty) && |t.s3| == |t.s2| + 1
    ensures forall u :: 0 <= u < |t.s2| ==> SameButUsers(t.s3[u], t.s2[u])
    ensures t.s3[|t.s2|].kind == Jmp && t.s3[|t.s2|].ops == [Some(|t.ns|)]
  {
    hide Dual, SiteOk, Joined, ArgsReplaced, Redirected, Substituted, Detached;
  }

  lemma TailSteps(t: Trace, u: nat)
    requires Steps(t) && u < |t.s4|
    ensures t.d.to != [] && u < |t.s7| && t.s7[u].kind == t.s4[u].kind && t.s7[u].ty == t.s4[u].ty
    ensures t.s7[u].ops == if u == t.d.cn then Empty(|t.s4[u].ops|) else Last(t.s4[u].ops, t.d, |t.ns| + 1)
  {
    hide Dual, SiteOk, ArgsReplaced, Joined, Detached, Substituted;
    SiteFacts(t.ns, t.d);
    StepSizes(t);
    Tail(t.s4, t.s5, t.s6, t.s7, t.d, |t.ns| + 1, u);
  }

  lemma OldNodes(t: Trace, u: nat)
    requires Steps(t) && u < |t.ns|
    ensures |t.d.to| == |t.d.args| + 1 && u < |t.s7| && InlinedNode(t.ns[u], t.s7[u], u, t.d, |t.ns|)
  {
    hide Steps, Last, Dropped, InlinedNode, ArgSlots;
    OldNodeSteps(t, u);
    TailSteps(t, u);
    StepSite(t);
    OldNodeInlined(t.ns[u], t.s1[u], t.s2[u], t.s4[u], t.s7[u], u, t.d, |t.ns|);
  }

  lemma StepSite(t: Trace)
    requires Steps(t)
    ensures SiteOk(t.ns, t.d) && Dual(t.s7) && |t.d.to| == |t.d.args| + 1 && t.d.Region() != Some(t.d.cn)
      && t.d.cn < |t.ns| && t.d.start < |t.ns|
    ensures forall u :: u in t.d.rets ==> u < |t.ns| && |t.ns[u].ops| == 2 && u != t.d.next
  {
    hide Dual, SiteOk, ArgsReplaced, Joined, Substituted, Redirected, Created;
    SiteFacts(t.ns, t.d);
  }

  lemma LastNothing(ops: seq<Slot>, d: Site, phi: nat)
    requires d.to != [] && forall i :: 0 <= i < |ops| ==> ops[i] != Some(d.cn) && ops[i] != Some(d.start)
    requires phi != d.cn && phi != d.start && d.Region() != Some(d.cn)
    ensures Last(ops, d, phi) == ops
  {
    forall i | 0 <= i < |ops| ensures Last(ops, d, phi)[i] == ops[i] {
      LastIs(ops, d, phi, i);
    }
  }

  // A return slot after the arguments, and at the end.
  lemma ReturnSlotFinal(ns: Nodes, s1: Nodes, d: Site, j: nat, i: nat)
    requires SiteOk(ns, d) && ArgsReplaced(ns, s1, d.args, d.to, |d.args|) && j < |d.rets| && i < 2
    ensures d.rets[j] < |ns| && |ns[d.rets[j]].ops| == 2 && |s1[d.rets[j]].ops| == 2
    ensures Last([s1[d.rets[j]].ops[i]], d, |ns| + 1) == [FinalSlot(ns[d.rets[j]].ops[i], d, |ns| + 1)]
  {
    SiteFacts(ns, d);
    ReturnsStay(ns, s1, d, j);
    hide Dual, SiteOk, ArgSlot;
    var s := s1[d.rets[j]].ops[i];
    assert s == ArgSlot(ns[d.rets[j]].ops[i], d.args, d.to, |d.args|);
    LastIs([s], d, |ns| + 1, 0);
  }

  lemma NewNodes(t: Trace, u: nat)
    requires Steps(t) && |t.ns| <= u < |t.s3|
    ensures t.d.to != [] && u < |t.s7| && t.s7[u].kind == t.s3[u].kind && t.s7[u].ty == t.s3[u].ty
      && t.s7[u].ops == Last(t.s3[u].ops, t.d, |t.ns| + 1)
  {
    hide Dual, SiteOk, ArgsReplaced, Joined, Detached, Substituted, Created;
    SiteFacts(t.ns, t.d);
    StepSizes(t);
    TailSteps(t, u);
    assert SameButUsers(t.s4[u], t.s3[u]);
  }

  // The region that collects the jumps.
  lemma JoinRegion(s1: Nodes, s2: Nodes, rets: seq<nat>, num: nat, ty: ValueType)
    requires Joined(s1, s2, rets, |rets|, num, ty)
    ensures |s1| + 1 < |s2| && s2[|s1|].kind == Region(num) && |s2[|s1|].ops| == |rets|
    ensures forall j :: 0 <= j < |rets| ==> s2[|s1|].ops[j] == Some(|s1| + 2 + j)
    ensures s2[|s1| + 1].kind == Phi && s2[|s1| + 1].ty == ty && |s2[|s1| + 1].ops| == |rets| + 1
      && s2[|s1| + 1].ops[0] == Some(|s1|)
  {
    hide Dual, Dropped;
    forall j | 0 <= j < |rets| ensures s2[|s1|].ops[j] == Some(|s1| + 2 + j) {
      assert JoinedAt(s1, s2, rets, |s1|, j);
    }
  }

  lemma RegionInlined(t: Trace)
    requires Steps(t)
    ensures var rr, n := |t.ns|, |t.d.rets|;
      && |t.s7| == rr + 3 + n && |t.s2| == rr + 2 + n && t.s7[rr].kind == Region(t.num) && t.s7[rr].ops == t.s2[rr].ops && |t.s7[rr].ops| == n
      && t.s7[rr + 2 + n].kind == Jmp && t.s7[rr + 2 + n].ops == [Some(rr)]
  {
    hide Steps, SiteOk, Joined, Last;
    StepSite(t);
    StepSizes(t);
    StepNew(t);
    JoinRegion(t.s1, t.s2, t.d.rets, t.num, t.ty);
    NewNodes(t, |t.ns|);
    NewNodes(t, |t.s2|);
    assert SameButUsers(t.s3[|t.ns|], t.s2[|t.ns|]);
    LastNothing(t.s2[|t.ns|].ops, t.d, |t.ns| + 1);
    LastNothing([Some(|t.ns|)], t.d, |t.ns| + 1);
  }

  lemma PhiInlined(t: Trace)
    requires Steps(t)
    ensures t.d.to != [] && |t.ns| + 1 < |t.s7| && |t.ns| + 1 < |t.s2| && t.s7[|t.ns| + 1].kind == Phi
      && t.s7[|t.ns| + 1].ty == t.ty
    ensures t.s7[|t.ns| + 1].ops == Last(t.s2[|t.ns| + 1].ops, t.d, |t.ns| + 1)
    ensures |t.s7[|t.ns| + 1].ops| == |t.d.rets| + 1 && t.s7[|t.ns| + 1].ops[0] == Some(|t.ns|)
  {
    hide Steps, SiteOk, Joined, Last;
    StepSite(t);
    StepSizes(t);
    StepNew(t);
    JoinRegion(t.s1, t.s2, t.d.rets, t.num, t.ty);
    NewNodes(t, |t.ns| + 1);
    assert SameButUsers(t.s3[|t.ns| + 1], t.s2[|t.ns| + 1]);
    LastIs(t.s2[|t.ns| + 1].ops, t.d, |t.ns| + 1, 0);
  }

  lemma JumpInlined(t: Trace, j: nat)
    requires Steps(t) && j < |t.d.rets|
    ensures JoinedAt(t.s1, t.s2, t.d.rets, |t.ns|, j)
    ensures |t.ns| + 2 + j < |t.s7| && t.s7[|t.ns| + 2 + j].kind == Jmp
    ensures t.d.to != [] && t.s7[|t.ns| + 2 + j].ops == Last(t.s2[|t.ns| + 2 + j].ops, t.d, |t.ns| + 1)
  {
    hide Steps, SiteOk, Last, Dual, Dropped;
    StepSite(t);
    StepSizes(t);
    StepNew(t);
    NewNodes(t, |t.ns| + 2 + j);
    assert JoinedAt(t.s1, t.s2, t.d.rets, |t.s1|, j);
    assert SameButUsers(t.s3[|t.ns| + 2 + j], t.s2[|t.ns| + 2 + j]);
  }

  lemma ReturnInlined(t: Trace, j: nat)
    requires Steps(t) && j < |t.d.rets|
    ensures |t.d.to| == |t.d.args| + 1 && ReturnJoined(t.ns, t.s7, t.d, |t.ns|, j)
  {
    hide Steps, Last, FinalSlot, SiteOk, ArgsReplaced, Dual;
    StepSite(t);
    StepArgs(t);
    RegionInlined(t);
    PhiInlined(t);
    JumpInlined(t, j);
    ReturnSlotFinal(t.ns, t.s1, t.d, j, 0);
    ReturnSlotFinal(t.ns, t.s1, t.d, j, 1);
    LastPointwise(t.s2[|t.ns| + 1].ops, t.d, |t.ns| + 1, j + 1);
  }

  lemma StepArgs(t: Trace)
    requires Steps(t)
    ensures |t.d.to| == |t.d.args| + 1 && ArgsReplaced(t.ns, t.s1, t.d.args, t.d.to, |t.d.args|) && |t.s1| == |t.ns|
  {
    hide Dual, SiteOk, Joined, Substituted, Redirected, Created;
    SiteFacts(t.ns, t.d);
  }

  lemma LastPointwise(ops: seq<Slot>, d: Site, phi: nat, i: nat)
    requires d.to != [] && i < |ops|
    ensures |Last(ops, d, phi)| == |ops| && [Last(ops, d, phi)[i]] == Last([ops[i]], d, phi)
  {
  }

  lemma AllInlined(t: Trace)
    requires Steps(t)
    ensures |t.d.to| == |t.d.args| + 1 && Inlined(t.ns, t.s7, t.d, t.num, t.ty)
  {
    hide Steps, InlinedNode, ReturnJoined, Last, Dual, SiteOk;
    StepSite(t);
    RegionInlined(t);
    PhiInlined(t);
    forall u | 0 <= u < |t.ns| ensures InlinedNode(t.ns[u], t.s7[u], u, t.d, |t.ns|) {
      OldNodes(t, u);
    }
    forall j | 0 <= j < |t.d.rets| ensures ReturnJoined(t.ns, t.s7, t.d, |t.ns|, j) {
      ReturnInlined(t, j);
    }
  }

  // ---------------------------------------------------------------- calls that can be inlined

  // The operands and users of the nodes of f are nodes of f.
  ghost predicate Closed(ns: Nodes, f: Fn) {
    && (forall n: nat, i: nat :: f.Owns(n) && n < |ns| && i < |ns[n].ops| && ns[n].ops[i].Some? ==> f.Owns(ns[n].ops[i].value))
    && (forall n: nat, u: nat :: f.Owns(n) && n < |ns| && u in ns[n].users ==> f.Owns(u))
  }

  // A return of the callee: a region and a value, used by the end region alone.
  ghost predicate CalleeReturn(ns: Nodes, callee: Fn, s: Slot) {
    && s.Some? && s.value in callee.graph && s.value < |ns| && ns[s.value].kind.Ret?
    && |ns[s.value].ops| == 2 && ns[s.value].users == multiset{callee.end}
  }

  // Nothing enters the start or leaves the end; the inputs of the end are all the
  // returns, each once.
  ghost predicate CalleeOk(ns: Nodes, callee: Fn) {
    && WellFormed(ns, callee) && Sealed(ns, callee)
    && ns[callee.start].ops == [] && ns[callee.end].users == multiset{}
    && (forall a: nat :: a in callee.args && a < |ns| ==> ns[a].ops == [])
    && Distinct(ns[callee.end].ops)
    && (forall j :: 0 <= j < |ns[callee.end].ops| ==> CalleeReturn(ns, callee, ns[callee.end].ops[j]))
    && (forall r: nat :: r in callee.graph && r < |ns| && ns[r].kind.Ret? ==> Some(r) in ns[callee.end].ops)
  }

  // The call has one following region, and none of its operands is missing or the call itself.
  ghost predicate CallOk(ns: Nodes, f: Fn, cn: nat, callee: Fn, next: nat, at: nat) {
    && WellFormed(ns, f) && Closed(ns, f)
    && cn in f.graph && cn < |ns| && ns[cn].kind.Call? && |ns[cn].ops| == |callee.args| + 1
    && (forall i :: 0 <= i < |ns[cn].ops| ==> ns[cn].ops[i].Some? && ns[cn].ops[i] != Some(cn))
    && Follows(ns, cn, next, at)
  }

  function Values(ops: seq<Slot>): (r: seq<nat>)
    requires forall i :: 0 <= i < |ops| ==> ops[i].Some?
    ensures |r| == |ops|
  {
    seq(|ops|, i requires 0 <= i < |ops| => ops[i].value)
  }

  // The place of the call once the callee is copied.
  function SiteOf(ns: Nodes, c: Fn, cn: nat, rets: seq<nat>, next: nat, at: nat): Site
    requires cn < |ns|
  {
    Site(c.args, ns[cn].ops, rets, c.start, cn, next, at)
  }

  // ---------------------------------------------------------------- the copy of the callee

  // The facts about the copy that the pass relies on.
  ghost predicate Copied(ns: Nodes, callee: Fn, ns1: Nodes, c: Fn, vm: map<nat, nat>) {
    CalleeOk(ns, callee) && IsCopy(ns, callee, ns1, c, vm)
  }

  lemma CopiedNode(ns: Nodes, callee: Fn, ns1: Nodes, c: Fn, vm: map<nat, nat>, n: nat)
    requires Copied(ns, callee, ns1, c, vm) && callee.Owns(n)
    ensures n in vm && n < |ns| <= vm[n] < |ns1| && c.Owns(vm[n])
    ensures ns1[vm[n]].kind == ns[n].kind && |ns1[vm[n]].ops| == |ns[n].ops|
    ensures forall i :: 0 <= i < |ns[n].ops| ==> SlotCopied(ns[n].ops[i], ns1[vm[n]].ops[i], callee, vm)
  {
    CopyOwns(ns, callee, ns1, c, vm);
    hide Injective, Dual, Renames, NoArgs;
    assert Renamed(ns[n], ns1[vm[n]], vm);
    forall i | 0 <= i < |ns[n].ops| ensures ns[n].ops[i].Some? && callee.Owns(ns[n].ops[i].value) {
    }
  }

  ghost predicate SlotCopied(s: Slot, s': Slot, callee: Fn, vm: map<nat, nat>) {
    s.Some? && callee.Owns(s.value) && s.value in vm && s' == Some(vm[s.value])
  }

  lemma OldNodeKept(ns: Nodes, callee: Fn, ns1: Nodes, c: Fn, vm: map<nat, nat>, n: nat)
    requires IsCopy(ns, callee, ns1, c, vm) && n < |ns|
    ensures n < |ns1| && ns1[n] == ns[n]
  {
    assert ns1[..|ns|][n] == ns[n];
  }

  // x is a return of the callee.
  ghost predicate ReturnOf(ns: Nodes, callee: Fn, x: nat) {
    x in callee.graph && x < |ns| && ns[x].kind.Ret?
  }

  // The inputs of the copied end are the copies of the returns.
  ghost predicate RetsAre(ns: Nodes, callee: Fn, ns1: Nodes, c: Fn, vm: map<nat, nat>, rets: seq<nat>) {
    && callee.end < |ns| && c.end < |ns1| && |ns1[c.end].ops| == |rets| == |ns[callee.end].ops|
    && (forall j :: 0 <= j < |rets| ==> RetCopied(ns[callee.end].ops[j], ns1[c.end].ops[j], rets[j], vm))
    && Distinct(rets)
    && forall x: nat :: x in vm && callee.Owns(x) ==> (vm[x] in rets <==> ReturnOf(ns, callee, x))
  }

  ghost predicate RetCopied(s: Slot, s': Slot, r: nat, vm: map<nat, nat>) {
    s.Some? && s.value in vm && s' == Some(r) && r == vm[s.value]
  }

  lemma CopiedReturns(ns: Nodes, callee: Fn, ns1: Nodes, c: Fn, vm: map<nat, nat>, rets: seq<nat>)
    requires Copied(ns, callee, ns1, c, vm) && c.end < |ns1|
    requires forall i :: 0 <= i < |ns1[c.end].ops| ==> ns1[c.end].ops[i].Some?
    requires rets == Values(ns1[c.end].ops)
    ensures RetsAre(ns, callee, ns1, c, vm, rets)
  {
    hide Copied, RetCopied, ReturnOf;
    EndsCorrespond(ns, callee, ns1, c, vm, rets);
    forall x: nat | x in vm && callee.Owns(x) ensures vm[x] in rets <==> ReturnOf(ns, callee, x) {
      RetsHold(ns, callee, ns1, c, vm, rets, x);
    }
    EndsDistinct(ns, callee, ns1, c, vm, rets);
  }

  lemma EndsCorrespond(ns: Nodes, callee: Fn, ns1: Nodes, c: Fn, vm: map<nat, nat>, rets: seq<nat>)
    requires Copied(ns, callee, ns1, c, vm) && c.end < |ns1|
    requires forall i :: 0 <= i < |ns1[c.end].ops| ==> ns1[c.end].ops[i].Some?
    requires rets == Values(ns1[c.end].ops)
    ensures callee.end < |ns| && |rets| == |ns1[c.end].ops| == |ns[callee.end].ops|
    ensures forall j :: 0 <= j < |rets| ==> RetCopied(ns[callee.end].ops[j], ns1[c.end].ops[j], rets[j], vm)
  {
    CopiedNode(ns, callee, ns1, c, vm, callee.end);
    CopiedArgs(ns, callee, ns1, c, vm);
    hide Copied;
    forall j | 0 <= j < |rets| ensures RetCopied(ns[callee.end].ops[j], ns1[c.end].ops[j], rets[j], vm) {
      assert SlotCopied(ns[callee.end].ops[j], ns1[c.end].ops[j], callee, vm);
    }
  }

  lemma RetsHold(ns: Nodes, callee: Fn, ns1: Nodes, c: Fn, vm: map<nat, nat>, rets: seq<nat>, x: nat)
    requires Copied(ns, callee, ns1, c, vm) && c.end < |ns1| && callee.end < |ns|
      && |rets| == |ns1[c.end].ops| == |ns[callee.end].ops|
    requires forall j :: 0 <= j < |rets| ==> RetCopied(ns[callee.end].ops[j], ns1[c.end].ops[j], rets[j], vm)
    requires x in vm
    ensures vm[x] in rets <==> ReturnOf(ns, callee, x)
  {
    hide Dual, Renamed, Renames, NoArgs, Sealed, WellFormed;
    var ops := ns[callee.end].ops;
    if vm[x] in rets {
      var j :| 0 <= j < |rets| && rets[j] == vm[x];
      assert RetCopied(ops[j], ns1[c.end].ops[j], rets[j], vm);
      assert CalleeReturn(ns, callee, ops[j]);
    }
    if ReturnOf(ns, callee, x) {
      assert Some(x) in ops;
      var j :| 0 <= j < |ops| && ops[j] == Some(x);
      assert RetCopied(ops[j], ns1[c.end].ops[j], rets[j], vm);
    }
  }

  lemma EndsDistinct(ns: Nodes, callee: Fn, ns1: Nodes, c: Fn, vm: map<nat, nat>, rets: seq<nat>)
    requires Copied(ns, callee, ns1, c, vm) && c.end < |ns1| && callee.end < |ns|
      && |rets| == |ns1[c.end].ops| == |ns[callee.end].ops|
    requires forall j :: 0 <= j < |rets| ==> RetCopied(ns[callee.end].ops[j], ns1[c.end].ops[j], rets[j], vm)
    ensures Distinct(rets)
  {
    hide Dual, Renamed, Renames, NoArgs, Sealed, WellFormed, CalleeReturn;
    var ops := ns[callee.end].ops;
    forall i, j | 0 <= i < j < |rets| ensures rets[i] != rets[j] {
      assert RetCopied(ops[i], ns1[c.end].ops[i], rets[i], vm) && RetCopied(ops[j], ns1[c.end].ops[j], rets[j], vm);
      assert ops[i] != ops[j];
    }
  }

  // Only the end region holds a return, and nothing holds the end region.
  lemma HeldSlots(ns: Nodes, callee: Fn, n: nat, i: nat)
    requires Dual(ns) && CalleeOk(ns, callee) && callee.Owns(n) && n < |ns| && i < |ns[n].ops|
    ensures ns[n].ops[i].Some? && callee.Owns(ns[n].ops[i].value) && ns[n].ops[i].value != callee.end
    ensures n != callee.end ==> !ReturnOf(ns, callee, ns[n].ops[i].value)
  {
    hide WellFormed;
    var x: nat := ns[n].ops[i].value;
    SlotHasUser(ns, n, i, x);
    if ReturnOf(ns, callee, x) {
      assert Some(x) in ns[callee.end].ops;
      var j :| 0 <= j < |ns[callee.end].ops| && ns[callee.end].ops[j] == Some(x);
      assert CalleeReturn(ns, callee, ns[callee.end].ops[j]);
    }
  }

  lemma CopiedIsReturn(ns: Nodes, callee: Fn, ns1: Nodes, c: Fn, vm: map<nat, nat>, rets: seq<nat>, j: nat)
    requires Dual(ns) && Copied(ns, callee, ns1, c, vm) && RetsAre(ns, callee, ns1, c, vm, rets) && j < |rets|
    ensures IsReturn(ns1, rets, rets[j])
  {
    hide Dual, Renamed, Renames, NoArgs, Sealed, Injective;
    var ops := ns[callee.end].ops;
    assert RetCopied(ops[j], ns1[c.end].ops[j], rets[j], vm);
    assert CalleeReturn(ns, callee, ops[j]);
    var r := ops[j].value;
    assert callee.Owns(r) && r != callee.end;
    CopiedNode(ns, callee, ns1, c, vm, r);
    forall i | 0 <= i < 2 ensures ns1[rets[j]].ops[i].Some? && ns1[rets[j]].ops[i].value !in rets && ns1[rets[j]].ops[i].value < |ns1| {
      HeldSlots(ns, callee, r, i);
      assert SlotCopied(ns[r].ops[i], ns1[vm[r]].ops[i], callee, vm);
      CopiedNode(ns, callee, ns1, c, vm, ns[r].ops[i].value);
    }
  }

  // The slots that hold the call are as before: the copy holds only new nodes.
  lemma CopiedFollows(ns: Nodes, callee: Fn, ns1: Nodes, c: Fn, vm: map<nat, nat>, cn: nat, next: nat, at: nat)
    requires Copied(ns, callee, ns1, c, vm) && Follows(ns, cn, next, at) && cn < |ns|
    ensures Follows(ns1, cn, next, at)
  {
    hide Dual, CalleeOk, Renamed, Renames, NoArgs, Injective;
    OldNodeKept(ns, callee, ns1, c, vm, next);
    forall u: nat, i: nat ensures NextSlot(ns1, cn, u, i) <==> NextSlot(ns, cn, u, i) {
      if u < |ns| {
        OldNodeKept(ns, callee, ns1, c, vm, u);
      } else if u < |ns1| && i < |ns1[u].ops| {
        assert Hit(vm, u);
        var n: nat :| n in vm && vm[n] == u;
        CopiedNode(ns, callee, ns1, c, vm, n);
        assert SlotCopied(ns[n].ops[i], ns1[u].ops[i], callee, vm);
        CopiedNode(ns, callee, ns1, c, vm, ns[n].ops[i].value);
      }
    }
  }

  lemma CopiedArgs(ns: Nodes, callee: Fn, ns1: Nodes, c: Fn, vm: map<nat, nat>)
    requires Copied(ns, callee, ns1, c, vm)
    ensures |c.args| == |callee.args| && Distinct(c.args)
    ensures forall i :: 0 <= i < |c.args| ==> callee.args[i] in vm && c.args[i] == vm[callee.args[i]] && |ns| <= c.args[i] < |ns1|
    ensures callee.start in vm && callee.end in vm && c.start == vm[callee.start] && c.end == vm[callee.end]
    ensures |ns| <= c.start < |ns1| && |ns| <= c.end < |ns1| && c.start !in c.args && c.start != c.end
  {
    hide Dual, Renamed, NoArgs, Sealed, Renames;
    CopyArgs(ns, callee, ns1, c, vm);
    assert callee.Owns(callee.start) && callee.Owns(callee.end);
    assert forall i :: 0 <= i < |callee.args| ==> callee.args[i] in callee.args && callee.args[i] in callee.graph;
  }

  lemma SiteIsOk(ns: Nodes, f: Fn, cn: nat, callee: Fn, next: nat, at: nat, ns1: Nodes, c: Fn, vm: map<nat, nat>,
          rets: seq<nat>)
    requires Dual(ns) && CallOk(ns, f, cn, callee, next, at) && Copied(ns, callee, ns1, c, vm)
      && RetsAre(ns, callee, ns1, c, vm, rets)
    ensures SiteOk(ns1, SiteOf(ns, c, cn, rets, next, at))
  {
    hide Copied, RetsAre, Follows, CallOk, IsReturn, Dual;
    CallShape(ns, f, cn, callee, next, at);
    CopiedArgs(ns, callee, ns1, c, vm);
    CopiedFollows(ns, callee, ns1, c, vm, cn, next, at);
    forall j | 0 <= j < |rets| ensures IsReturn(ns1, rets, rets[j]) && rets[j] >= |ns| && rets[j] != c.start {
      CopiedIsReturn(ns, callee, ns1, c, vm, rets, j);
      ReturnIsNew(ns, callee, ns1, c, vm, rets, j);
    }
    KeptNode(ns, callee, ns1, c, vm, cn);
    KeptNode(ns, callee, ns1, c, vm, next);
    RetsDistinct(ns, callee, ns1, c, vm, rets);
    var d := SiteOf(ns, c, cn, rets, next, at);
    forall i | 0 <= i < |d.to| ensures TargetOk(ns1, d, d.to[i]) {
      assert d.to[i].value < |ns|;
    }
  }

  lemma KeptNode(ns: Nodes, callee: Fn, ns1: Nodes, c: Fn, vm: map<nat, nat>, n: nat)
    requires Copied(ns, callee, ns1, c, vm) && n < |ns|
    ensures n < |ns1| && ns1[n] == ns[n]
  {
    hide IsCopy, CalleeOk;
    OldNodeKept(ns, callee, ns1, c, vm, n);
  }

  lemma RetsDistinct(ns: Nodes, callee: Fn, ns1: Nodes, c: Fn, vm: map<nat, nat>, rets: seq<nat>)
    requires RetsAre(ns, callee, ns1, c, vm, rets)
    ensures Distinct(rets)
  {
  }

  lemma CallShape(ns: Nodes, f: Fn, cn: nat, callee: Fn, next: nat, at: nat)
    requires Dual(ns) && CallOk(ns, f, cn, callee, next, at)
    ensures Follows(ns, cn, next, at)
    ensures cn < |ns| && next < |ns| && next != cn && |ns[cn].ops| == |callee.args| + 1
    ensures forall i :: 0 <= i < |ns[cn].ops| ==> ns[cn].ops[i].Some? && ns[cn].ops[i].value < |ns| && ns[cn].ops[i] != Some(cn)
  {
    hide WellFormed, Closed;
    assert NextSlot(ns, cn, next, at);
  }

  lemma ReturnIsNew(ns: Nodes, callee: Fn, ns1: Nodes, c: Fn, vm: map<nat, nat>, rets: seq<nat>, j: nat)
    requires Copied(ns, callee, ns1, c, vm) && RetsAre(ns, callee, ns1, c, vm, rets) && j < |rets|
    ensures |ns| <= rets[j] < |ns1| && rets[j] != c.start && rets[j] != c.end
  {
    hide Dual, Renamed, Renames, NoArgs, Sealed;
    var ops := ns[callee.end].ops;
    assert RetCopied(ops[j], ns1[c.end].ops[j], rets[j], vm);
    assert CalleeReturn(ns, callee, ops[j]);
    assert callee.Owns(ops[j].value);
  }

  // ---------------------------------------------------------------- the pass

  // Everything but the returns and arguments of the copy moves into the caller.
  function MovedNodes(ns: Nodes, xs: seq<nat>): seq<nat> {
    if xs == [] then []
    else
      var n := |xs| - 1;
      MovedNodes(ns, xs[..n]) + if xs[n] < |ns| && (ns[xs[n]].kind.Ret? || ns[xs[n]].kind.FunctionArg?) then [] else [xs[n]]
  }

  lemma {:induction false} MovedElems(ns: Nodes, xs: seq<nat>)
    ensures forall x: nat :: x in MovedNodes(ns, xs) <==> x in xs && !(x < |ns| && (ns[x].kind.Ret? || ns[x].kind.FunctionArg?))
  {
    if xs != [] {
      MovedElems(ns, xs[..|xs| - 1]);
      assert xs == xs[..|xs| - 1] + [xs[|xs| - 1]];
    }
  }

  function Range(from: nat, k: nat): (r: seq<nat>)
    ensures |r| == k && forall i :: 0 <= i < k ==> r[i] == from + i
  {
    seq(k, i => from + i)
  }

  // Steps 1 to 3 on the nodes, once the callee is copied.
  method InlineAt(W: Graph, ghost d: Site, args: seq<nat>, to: seq<Slot>, rets: seq<nat>, start: nat, cn: nat,
          num: nat, ty: ValueType)
    requires Dual(W.nodes) && SiteOk(W.nodes, d) && d.args == args && d.to == to && d.rets == rets
      && d.start == start && d.cn == cn
    modifies W
    ensures |d.to| == |d.args| + 1 && Inlined(old(W.nodes), W.nodes, d, num, ty)
  {
    hide Dual, SiteOk, Joined, Redirected, Substituted, Detached, Targets, Follows, IsReturn, SameButUsers, Inlined, ArgsReplaced, Created;
    ghost var ns := W.nodes;
    SiteCalls(ns, d);
    ReplaceArgs(W, args, to);
    ghost var s1 := W.nodes;
    SameSize(ns, s1, d);
    forall j | 0 <= j < |rets| ensures IsReturn(s1, rets, rets[j]) {
      ReturnsStay(ns, s1, d, j);
    }
    var retRegion, retValue := JoinReturns(W, rets, num, ty);
    ghost var s2 := W.nodes;
    JoinSize(s1, s2, rets, num, ty);
    FollowsStill(ns, s1, s2, d, num, ty);
    var finalJmp := W.Create(Jmp, Void, [Some(retRegion)]);
    ghost var s3 := W.nodes;
    CreatedFollows(s2, s3, d, retRegion);
    var done := Redirect(W, cn, finalJmp, d.next, d.at);
    ghost var s4 := W.nodes;
    RedirectSize(s3, s4, d, finalJmp);
    W.ReplaceWith(cn, Some(retValue));
    ghost var s5 := W.nodes;
    SubstSize(s4, s5, cn, Some(retValue));
    W.ReplaceWith(start, to[|to| - 1]);
    ghost var s6 := W.nodes;
    SubstSize(s5, s6, start, to[|to| - 1]);
    W.Detach(cn);
    ghost var t := Trace(ns, s1, s2, s3, s4, s5, s6, W.nodes, d, num, ty);
    assert Steps(t);
    AllInlined(t);
  }

  lemma SiteCalls(ns: Nodes, d: Site)
    requires SiteOk(ns, d)
    ensures Targets(d.args, d.to) && |d.to| == |d.args| + 1 && Distinct(d.rets) && d.Region() != Some(d.cn)
      && d.Region() != Some(d.start)
    ensures forall i :: 0 <= i < |d.args| ==> d.args[i] < |ns|
    ensures forall i :: 0 <= i < |d.to| ==> d.to[i].Some? && d.to[i].value < |ns|
    ensures d.start < |ns| && d.cn < |ns|
  {
    assert TargetOk(ns, d, d.to[|d.to| - 1]);
    forall i | 0 <= i < |d.to| ensures d.to[i].Some? && d.to[i].value < |ns| {
      assert TargetOk(ns, d, d.to[i]);
    }
  }

  lemma SameSize(ns: Nodes, s1: Nodes, d: Site)
    requires |d.args| <= |d.to| && ArgsReplaced(ns, s1, d.args, d.to, |d.args|)
    ensures |s1| == |ns| && Dual(s1)
  {
  }

  lemma JoinSize(s1: Nodes, s2: Nodes, rets: seq<nat>, num: nat, ty: ValueType)
    requires Joined(s1, s2, rets, |rets|, num, ty)
    ensures |s2| == |s1| + 2 + |rets| && Dual(s2)
  {
  }

  lemma CreatedFollows(s2: Nodes, s3: Nodes, d: Site, rr: nat)
    requires Follows(s2, d.cn, d.next, d.at) && Created(s2, s3, Jmp, Void, [Some(rr)])
    ensures Follows(s3, d.cn, d.next, d.at) && |s3| == |s2| + 1 && Dual(s3)
  {
    hide Dual;
    forall u: nat, i: nat ensures NextSlot(s3, d.cn, u, i) <==> NextSlot(s2, d.cn, u, i) {
      if u < |s2| {
        assert SameButUsers(s3[u], s2[u]);
      }
    }
  }

  lemma RedirectSize(s3: Nodes, s4: Nodes, d: Site, fj: nat)
    requires Redirected(s3, s4, d.next, d.at, Some(fj))
    ensures |s4| == |s3| && Dual(s4)
  {
  }

  lemma SubstSize(a: Nodes, b: Nodes, n: nat, s: Slot)
    requires Substituted(a, b, n, s)
    ensures |b| == |a| && Dual(b)
  {
  }

  // ---------------------------------------------------------------- what the slots of the copy become

  // A run of the pass on call cn of f, with nodes ns: the callee was copied as c
  // by vm, giving nodes ns1 and returns rets, and cur are the nodes at the end.
  datatype Run = Run(ns: Nodes, f: Fn, cn: nat, callee: Fn, next: nat, at: nat, ns1: Nodes, c: Fn, vm: map<nat, nat>,
                     rets: seq<nat>, cur: Nodes, num: nat, ty: ValueType)
  {
    function Place(): Site
      requires cn < |ns|
    {
      SiteOf(ns, c, cn, rets, next, at)
    }

    // The caller afterwards: its own nodes, the new ones, and the moved ones.
    function Result(): Fn {
      Fn(f.args, f.graph + Range(|ns1|, 3 + |rets|) + MovedNodes(cur, c.graph), f.start, f.end)
    }
  }

  ghost predicate Ran(run: Run) {
    && Dual(run.ns) && CallOk(run.ns, run.f, run.cn, run.callee, run.next, run.at)
    && Copied(run.ns, run.callee, run.ns1, run.c, run.vm) && RetsAre(run.ns, run.callee, run.ns1, run.c, run.vm, run.rets)
    && |run.ns[run.cn].ops| == |run.c.args| + 1
    && Inlined(run.ns1, run.cur, run.Place(), run.num, run.ty)
  }

  // A parameter becomes the operand of the call, the start becomes the call's
  // region, and any other node its copy.
  ghost predicate Image(ns: Nodes, callee: Fn, cn: nat, vm: map<nat, nat>, x: nat, s: Slot)
    requires cn < |ns| && |ns[cn].ops| == |callee.args| + 1
  {
    && (forall k :: 0 <= k < |callee.args| && callee.args[k] == x ==> s == ns[cn].ops[k])
    && (x == callee.start ==> s == ns[cn].ops[|callee.args|])
    && (x !in callee.args && x != callee.start ==> x in vm && s == Some(vm[x]))
  }

  lemma CopySlotFinal(run: Run, x: nat)
    requires Ran(run)
    requires x in run.vm && run.callee.Owns(x) && !ReturnOf(run.ns, run.callee, x)
    ensures run.cn < |run.ns| && |run.ns[run.cn].ops| == |run.callee.args| + 1
    ensures Image(run.ns, run.callee, run.cn, run.vm, x, FinalSlot(Some(run.vm[x]), run.Place(), |run.ns1| + 1))
  {
    hide Ran, FinalSlot, SiteOk;
    RanSite(run);
    var d := run.Place();
    RanArgs(run, x);
    forall k | 0 <= k < |run.callee.args| && run.callee.args[k] == x ensures FinalSlot(Some(run.vm[x]), d, |run.ns1| + 1) == run.ns[run.cn].ops[k] {
      FinalOfArg(run.ns1, d, k, |run.ns1| + 1);
    }
    if x == run.callee.start {
      FinalOfStart(run.ns1, d, |run.ns1| + 1);
    } else if x !in run.callee.args {
      assert run.vm[x] !in d.args;
      FinalOfOther(run.ns1, d, run.vm[x], |run.ns1| + 1);
    }
  }

  lemma FinalOfArg(ns1: Nodes, d: Site, k: nat, phi: nat)
    requires SiteOk(ns1, d) && k < |d.args|
    ensures |d.to| == |d.args| + 1 && FinalSlot(Some(d.args[k]), d, phi) == d.to[k]
  {
    SiteCalls(ns1, d);
    ArgSlotIs(Some(d.args[k]), d.args, d.to, |d.args|);
    TargetKept(ns1, d, k);
    hide SiteOk, ArgSlot, Targets;
  }

  lemma FinalOfStart(ns1: Nodes, d: Site, phi: nat)
    requires SiteOk(ns1, d)
    ensures |d.to| == |d.args| + 1 && FinalSlot(Some(d.start), d, phi) == d.Region()
  {
    SiteCalls(ns1, d);
    ArgSlotIs(Some(d.start), d.args, d.to, |d.args|);
    hide ArgSlot, Targets;
  }

  // The call itself aside, any other slot that survives the returns stays.
  lemma FinalOfOther(ns1: Nodes, d: Site, x: nat, phi: nat)
    requires SiteOk(ns1, d) && x !in d.args && x != d.start && x !in d.rets && x != d.cn
    ensures |d.to| == |d.args| + 1 && FinalSlot(Some(x), d, phi) == Some(x)
  {
    SiteCalls(ns1, d);
    ArgSlotIs(Some(x), d.args, d.to, |d.args|);
    hide SiteOk, ArgSlot, Targets;
  }

  lemma TargetKept(ns1: Nodes, d: Site, k: nat)
    requires SiteOk(ns1, d) && k < |d.to|
    ensures d.to[k].Some? && d.to[k].value !in d.rets && d.to[k].value != d.cn && d.to[k].value != d.start
  {
    assert TargetOk(ns1, d, d.to[k]);
  }

  lemma RanSite(run: Run)
    requires Ran(run)
    ensures SiteOk(run.ns1, run.Place()) && Dual(run.cur) && run.cn < |run.ns| <= |run.ns1|
      && |run.cur| == |run.ns1| + 3 + |run.rets|
    ensures |run.ns[run.cn].ops| == |run.callee.args| + 1 == |run.c.args| + 1
  {
    hide CallOk, Copied, RetsAre, Dual;
    SiteIsOk(run.ns, run.f, run.cn, run.callee, run.next, run.at, run.ns1, run.c, run.vm, run.rets);
    CopiedArgs(run.ns, run.callee, run.ns1, run.c, run.vm);
    CallShape(run.ns, run.f, run.cn, run.callee, run.next, run.at);
    KeptNode(run.ns, run.callee, run.ns1, run.c, run.vm, |run.ns| - 1);
  }

  // How the copy of x relates to the arguments, the start and the returns.
  lemma RanArgs(run: Run, x: nat)
    requires Ran(run) && x in run.vm && run.callee.Owns(x)
    ensures |run.c.args| == |run.callee.args| && forall k :: 0 <= k < |run.c.args| ==> (run.c.args[k] == run.vm[x] <==> run.callee.args[k] == x)
    ensures run.c.start == run.vm[x] <==> run.callee.start == x
    ensures x == run.callee.start ==> x !in run.callee.args
    ensures run.vm[x] >= |run.ns| && (run.vm[x] in run.rets <==> ReturnOf(run.ns, run.callee, x))
  {
    hide Dual, CallOk, Renamed, Renames, NoArgs, Sealed, CalleeReturn;
    CopiedArgs(run.ns, run.callee, run.ns1, run.c, run.vm);
  }

  // ---------------------------------------------------------------- the caller is closed again

  // m's copy moves into the caller.
  ghost predicate MovesIn(ns: Nodes, callee: Fn, m: nat) {
    m in callee.graph && m < |ns| && !ns[m].kind.Ret? && !ns[m].kind.FunctionArg?
  }

  // x is one of the nodes created by the pass itself.
  ghost predicate IsNew(ns1: Nodes, n: nat, x: nat) {
    |ns1| <= x < |ns1| + 3 + n
  }

  lemma ResultOwns(run: Run)
    requires Ran(run)
    ensures var f' := run.Result();
      && (forall x: nat :: run.f.Owns(x) ==> f'.Owns(x) && x < |run.ns|)
      && (forall x: nat :: IsNew(run.ns1, |run.rets|, x) ==> f'.Owns(x))
      && (forall m: nat :: MovesIn(run.ns, run.callee, m) ==> m in run.vm && f'.Owns(run.vm[m]))
      && forall x: nat :: f'.Owns(x) ==> run.f.Owns(x) || IsNew(run.ns1, |run.rets|, x) || exists m: nat :: MovesIn(run.ns, run.callee, m) && m in run.vm && run.vm[m] == x
  {
    hide Ran, MovedNodes, MovesIn;
    CallerNodes(run);
    MovedAre(run);
    var f' := run.Result();
    forall x: nat ensures x in f'.graph <==> x in run.f.graph || IsNew(run.ns1, |run.rets|, x) || x in MovedNodes(run.cur, run.c.graph) {
      assert IsNew(run.ns1, |run.rets|, x) ==> Range(|run.ns1|, 3 + |run.rets|)[x - |run.ns1|] == x;
    }
  }

  // The moved nodes are the copies of those that move in.
  lemma MovedAre(run: Run)
    requires Ran(run)
    ensures forall m: nat :: MovesIn(run.ns, run.callee, m) ==> m in run.vm && run.vm[m] in MovedNodes(run.cur, run.c.graph)
    ensures forall x: nat :: x in MovedNodes(run.cur, run.c.graph) ==> exists m: nat :: MovesIn(run.ns, run.callee, m) && m in run.vm && run.vm[m] == x
  {
    hide Ran, MovedNodes, MovesIn, Copied;
    RanCopied(run);
    forall m: nat | MovesIn(run.ns, run.callee, m) ensures m in run.vm && run.vm[m] in MovedNodes(run.cur, run.c.graph) {
      MovesInGraph(run.ns, run.callee, m);
      MovedCopy(run, m);
    }
    MovedElems(run.cur, run.c.graph);
    forall x: nat | x in MovedNodes(run.cur, run.c.graph) ensures exists m: nat :: MovesIn(run.ns, run.callee, m) && m in run.vm && run.vm[m] == x {
      var m := GraphPreimage(run.ns, run.callee, run.ns1, run.c, run.vm, x);
      MovedCopy(run, m);
    }
  }

  lemma MovesInGraph(ns: Nodes, callee: Fn, m: nat)
    requires MovesIn(ns, callee, m)
    ensures m in callee.graph
  {
  }

  lemma CallerNodes(run: Run)
    requires Ran(run)
    ensures forall x: nat :: run.f.Owns(x) ==> x < |run.ns|
  {
    hide Dual, Copied, RetsAre, Inlined, Closed, Follows;
  }

  // A node of the copied graph is the copy of a node of the graph.
  lemma GraphPreimage(ns: Nodes, callee: Fn, ns1: Nodes, c: Fn, vm: map<nat, nat>, x: nat) returns (m: nat)
    requires Copied(ns, callee, ns1, c, vm) && x in c.graph
    ensures m in callee.graph && m in vm && vm[m] == x
  {
    hide Dual, Renamed, Sealed, CalleeReturn, NoArgs, Injective, WellFormed;
    SourceList(ns, callee);
    var src := callee.args + NoArgs(ns, callee.graph);
    assert c.graph == Renames(src, vm);
    assert forall n: nat :: n in src ==> callee.Owns(n);
    RenamedList(src, vm);
    hide Renames;
    m :| m in src && m in vm && vm[m] == x;
  }

  lemma RanNode(run: Run, u: nat)
    requires Ran(run) && u < |run.ns1|
    ensures |run.ns[run.cn].ops| == |run.c.args| + 1 && u < |run.cur|
      && InlinedNode(run.ns1[u], run.cur[u], u, run.Place(), |run.ns1|)
  {
    hide Dual, CallOk, Copied, RetsAre, InlinedNode, ReturnJoined;
  }

  lemma MovedCopy(run: Run, m: nat)
    requires Ran(run) && m in run.callee.graph
    ensures m in run.vm && run.vm[m] in run.c.graph && m < |run.ns| && run.vm[m] < |run.ns1| <= |run.cur|
    ensures run.cur[run.vm[m]].kind == run.ns[m].kind
    ensures run.vm[m] in MovedNodes(run.cur, run.c.graph) <==> MovesIn(run.ns, run.callee, m)
  {
    hide Ran, MovedNodes, Copied, FinalSlots;
    RanSite(run);
    RanCopied(run);
    CopiedInGraph(run.ns, run.callee, run.ns1, run.c, run.vm, m);
    CopiedNode(run.ns, run.callee, run.ns1, run.c, run.vm, m);
    MovedElems(run.cur, run.c.graph);
    RanNode(run, run.vm[m]);
  }

  lemma RanCopied(run: Run)
    requires Ran(run)
    ensures Copied(run.ns, run.callee, run.ns1, run.c, run.vm)
  {
    hide Dual, CallOk, Copied, RetsAre, Inlined;
  }

  lemma CopiedInGraph(ns: Nodes, callee: Fn, ns1: Nodes, c: Fn, vm: map<nat, nat>, m: nat)
    requires Copied(ns, callee, ns1, c, vm) && m in callee.graph
    ensures callee.Owns(m) && m in vm && vm[m] in c.graph
  {
    hide Dual, CalleeReturn, Sealed, Renamed, NoArgs, Renames;
    CopyGraph(ns, callee, ns1, vm, c.graph);
  }

  // In the nodes that were there before, the call alone is replaced.
  lemma FinalOld(ns: Nodes, ns1: Nodes, d: Site, s: Slot, phi: nat)
    requires SiteOk(ns1, d) && (s.Some? ==> s.value < |ns|) && |ns| <= d.start
    requires (forall i :: 0 <= i < |d.args| ==> |ns| <= d.args[i]) && forall j :: 0 <= j < |d.rets| ==> |ns| <= d.rets[j]
    ensures |d.to| == |d.args| + 1 && FinalSlot(s, d, phi) == if s == Some(d.cn) then Some(phi) else s
  {
    SiteCalls(ns1, d);
    ArgSlotIs(s, d.args, d.to, |d.args|);
    hide SiteOk, ArgSlot, Targets;
  }

  lemma RanOld(run: Run)
    requires Ran(run)
    ensures var d := run.Place();
      && SiteOk(run.ns1, d) && |run.ns| <= d.start && |d.to| == |d.args| + 1
      && (forall i :: 0 <= i < |d.args| ==> |run.ns| <= d.args[i]) && forall j :: 0 <= j < |d.rets| ==> |run.ns| <= d.rets[j]
    ensures run.next < |run.ns| && run.f.Owns(run.next) && run.f.Owns(run.cn)
  {
    hide Inlined, IsCopy, CalleeOk, RetsAre, Dual;
    RanSite(run);
    CopiedArgs(run.ns, run.callee, run.ns1, run.c, run.vm);
    forall j | 0 <= j < |run.rets| ensures |run.ns| <= run.rets[j] {
      ReturnIsNew(run.ns, run.callee, run.ns1, run.c, run.vm, run.rets, j);
    }
    assert NextSlot(run.ns, run.cn, run.next, run.at);
    SlotHasUser(run.ns, run.next, run.at, run.cn);
  }

  lemma SlotInRange(ns: Nodes, u: nat, i: nat)
    requires InRange(ns) && u < |ns| && i < |ns[u].ops|
    ensures ns[u].ops[i].Some? ==> ns[u].ops[i].value < |ns|
  {
  }

  // Slot by slot, the nodes of the caller.
  lemma OldSlot(run: Run, u: nat, i: nat)
    requires Ran(run) && u < |run.ns| && u < |run.cur| && i < |run.cur[u].ops|
    ensures u < |run.ns1| && run.ns1[u] == run.ns[u] && |run.cur[u].ops| == |run.ns[u].ops|
    ensures run.cur[u].ops[i] == if u == run.cn then None
      else if u == run.next && i == run.at then Some(|run.ns1| + 2 + |run.rets|)
      else if run.ns[u].ops[i] == Some(run.cn) then Some(|run.ns1| + 1) else run.ns[u].ops[i]
  {
    hide Ran, Copied, SiteOk, FinalSlot, InRange, Dual, CallOk, RetsAre, Fn.Owns;
    RanCopied(run);
    RanOld(run);
    RanSite(run);
    KeptNode(run.ns, run.callee, run.ns1, run.c, run.vm, u);
    RanNode(run, u);
    RanDual(run);
    var d := run.Place();
    assert u !in d.rets;
    SlotInRange(run.ns, u, i);
    FinalOld(run.ns, run.ns1, d, run.ns[u].ops[i], |run.ns1| + 1);
  }

  lemma RanDual(run: Run)
    requires Ran(run)
    ensures Dual(run.ns) && InRange(run.ns) && CallOk(run.ns, run.f, run.cn, run.callee, run.next, run.at)
      && RetsAre(run.ns, run.callee, run.ns1, run.c, run.vm, run.rets)
  {
    hide Inlined, Copied, CallOk, RetsAre;
  }

  // The nodes of the copy other than returns.
  lemma CopySlot(run: Run, m: nat, i: nat)
    requires Ran(run) && m in run.vm && run.callee.Owns(m) && !ReturnOf(run.ns, run.callee, m)
    requires run.vm[m] < |run.cur| && i < |run.cur[run.vm[m]].ops|
    ensures m < |run.ns| && i < |run.ns[m].ops| && run.ns[m].ops[i].Some?
      && run.callee.Owns(run.ns[m].ops[i].value) && run.ns[m].ops[i].value in run.vm
    ensures run.cn < |run.ns| && |run.ns[run.cn].ops| == |run.c.args| + 1
    ensures run.cur[run.vm[m]].ops[i] == FinalSlot(Some(run.vm[run.ns[m].ops[i].value]), run.Place(), |run.ns1| + 1)
  {
    hide Ran, Copied, SiteOk, FinalSlot;
    RanCopied(run);
    RanOld(run);
    RanSite(run);
    CopiedNode(run.ns, run.callee, run.ns1, run.c, run.vm, m);
    RanArgs(run, m);
    RanNode(run, run.vm[m]);
    assert SlotCopied(run.ns[m].ops[i], run.ns1[run.vm[m]].ops[i], run.callee, run.vm);
  }

  // An image is owned by the caller afterwards.
  lemma ImageOwned(run: Run, x: nat, s: Slot)
    requires Ran(run) && run.cn < |run.ns| && |run.ns[run.cn].ops| == |run.callee.args| + 1
    requires x in run.vm && run.callee.Owns(x) && x != run.callee.end && !ReturnOf(run.ns, run.callee, x)
      && Image(run.ns, run.callee, run.cn, run.vm, x, s)
    ensures s.Some? && run.Result().Owns(s.value)
  {
    hide Ran, Closed, CalleeReturn, Copied, Run.Result;
    ResultOwns(run);
    RanDual(run);
    RanCopied(run);
    ArgsAreArgs(run.ns, run.callee, run.ns1, run.c, run.vm);
    CallOperands(run.ns, run.f, run.cn, run.callee, run.next, run.at);
    if x in run.callee.args {
      var k: nat :| k < |run.callee.args| && run.callee.args[k] == x;
      assert s == run.ns[run.cn].ops[k];
    } else if x != run.callee.start {
      assert MovesIn(run.ns, run.callee, x);
    }
  }

  lemma ArgsAreArgs(ns: Nodes, callee: Fn, ns1: Nodes, c: Fn, vm: map<nat, nat>)
    requires Copied(ns, callee, ns1, c, vm)
    ensures forall x: nat :: x in callee.graph ==> x < |ns| && (x in callee.args <==> ns[x].kind.FunctionArg?)
  {
    hide IsCopy, CalleeReturn, Sealed;
  }

  lemma CallOperands(ns: Nodes, f: Fn, cn: nat, callee: Fn, next: nat, at: nat)
    requires CallOk(ns, f, cn, callee, next, at)
    ensures forall i :: 0 <= i < |ns[cn].ops| ==> ns[cn].ops[i].Some? && f.Owns(ns[cn].ops[i].value)
  {
    hide WellFormed, Follows;
    assert f.Owns(cn);
  }

  // The operands of a return end up in the caller.
  lemma ReturnSlotOwned(run: Run, j: nat, i: nat)
    requires Ran(run) && j < |run.rets| && i < 2
    ensures run.rets[j] < |run.ns1| && |run.ns1[run.rets[j]].ops| == 2 && |run.ns[run.cn].ops| == |run.c.args| + 1
    ensures j < |run.ns[run.callee.end].ops| && run.ns[run.callee.end].ops[j].Some?
    ensures var r := run.ns[run.callee.end].ops[j].value;
      && r < |run.ns| && |run.ns[r].ops| == 2 && run.ns[r].ops[i].Some? && |run.ns[run.cn].ops| == |run.callee.args| + 1
      && Image(run.ns, run.callee, run.cn, run.vm, run.ns[r].ops[i].value, FinalSlot(run.ns1[run.rets[j]].ops[i], run.Place(), |run.ns1| + 1))
    ensures var s := FinalSlot(run.ns1[run.rets[j]].ops[i], run.Place(), |run.ns1| + 1);
      s.Some? && run.Result().Owns(s.value)
  {
    hide Ran, FinalSlot, Image, Run.Result, CallOk, Dual, RetsAre, IsCopy, WellFormed, Sealed;
    RanDual(run);
    RanSite(run);
    RanCopied(run);
    ReturnSource(run.ns, run.callee, run.ns1, run.c, run.vm, run.rets, j);
    var r := run.ns[run.callee.end].ops[j].value;
    CopiedNode(run.ns, run.callee, run.ns1, run.c, run.vm, r);
    HeldSlots(run.ns, run.callee, r, i);
    assert SlotCopied(run.ns[r].ops[i], run.ns1[run.rets[j]].ops[i], run.callee, run.vm);
    var x := run.ns[r].ops[i].value;
    CopySlotFinal(run, x);
    ImageOwned(run, x, FinalSlot(Some(run.vm[x]), run.Place(), |run.ns1| + 1));
  }

  lemma ReturnSource(ns: Nodes, callee: Fn, ns1: Nodes, c: Fn, vm: map<nat, nat>, rets: seq<nat>, j: nat)
    requires Copied(ns, callee, ns1, c, vm) && RetsAre(ns, callee, ns1, c, vm, rets) && j < |rets|
    ensures callee.end < |ns| && j < |ns[callee.end].ops| && ns[callee.end].ops[j].Some?
    ensures var r := ns[callee.end].ops[j].value; r < |ns| && callee.Owns(r) && r != callee.end && |ns[r].ops| == 2 && r in vm && vm[r] == rets[j]
  {
    hide IsCopy, Sealed;
    assert RetCopied(ns[callee.end].ops[j], ns1[c.end].ops[j], rets[j], vm);
    assert CalleeReturn(ns, callee, ns[callee.end].ops[j]);
  }

  lemma NewSlotOwned(run: Run, u: nat, i: nat)
    requires Ran(run) && IsNew(run.ns1, |run.rets|, u) && u < |run.cur| && i < |run.cur[u].ops|
      && run.cur[u].ops[i].Some?
    ensures run.Result().Owns(run.cur[u].ops[i].value)
  {
    hide Run.Result, CallOk, Copied, RetsAre, FinalSlot, Dual, InlinedNode;
    ResultOwns(run);
    RanSite(run);
    var d, rr := run.Place(), |run.ns1|;
    if u == rr {
      assert ReturnJoined(run.ns1, run.cur, d, rr, i);
      assert IsNew(run.ns1, |run.rets|, rr + 2 + i);
    } else if u == rr + 1 {
      if i == 0 {
        assert IsNew(run.ns1, |run.rets|, rr);
      } else {
        assert ReturnJoined(run.ns1, run.cur, d, rr, i - 1);
        ReturnSlotOwned(run, i - 1, 1);
      }
    } else if u < rr + 2 + |run.rets| {
      assert ReturnJoined(run.ns1, run.cur, d, rr, u - rr - 2);
      ReturnSlotOwned(run, u - rr - 2, 0);
    } else {
      assert IsNew(run.ns1, |run.rets|, rr);
    }
  }

  lemma OldSlotOwned(run: Run, u: nat, i: nat)
    requires Ran(run) && run.f.Owns(u) && u < |run.ns| && u < |run.cur| && i < |run.cur[u].ops|
      && run.cur[u].ops[i].Some?
    ensures run.Result().Owns(run.cur[u].ops[i].value)
  {
    hide Ran, Run.Result, WellFormed, Follows;
    ResultOwns(run);
    RanDual(run);
    OldSlot(run, u, i);
    assert IsNew(run.ns1, |run.rets|, |run.ns1| + 1) && IsNew(run.ns1, |run.rets|, |run.ns1| + 2 + |run.rets|);
  }

  lemma MovedSlotOwned(run: Run, m: nat, i: nat)
    requires Ran(run) && MovesIn(run.ns, run.callee, m) && m in run.vm && run.vm[m] < |run.cur|
      && i < |run.cur[run.vm[m]].ops| && run.cur[run.vm[m]].ops[i].Some?
    ensures run.Result().Owns(run.cur[run.vm[m]].ops[i].value)
  {
    hide Ran, Run.Result, CallOk, IsCopy, RetsAre, FinalSlot, Image, Dual, Sealed, CalleeReturn;
    RanDual(run);
    RanCopied(run);
    RanSite(run);
    CopySlot(run, m, i);
    HeldSlots(run.ns, run.callee, m, i);
    assert m != run.callee.end by {
      EndNotInGraph(run.ns, run.callee);
    }
    var x := run.ns[m].ops[i].value;
    CopySlotFinal(run, x);
    ImageOwned(run, x, run.cur[run.vm[m]].ops[i]);
  }

  lemma EndNotInGraph(ns: Nodes, callee: Fn)
    requires CalleeOk(ns, callee)
    ensures callee.end !in callee.graph && callee.start !in callee.graph && callee.start != callee.end
  {
    hide Sealed, CalleeReturn;
  }

  // A slot of a node the caller does not own never holds one it owns.
  lemma ForeignOld(run: Run, u: nat, i: nat)
    requires Ran(run) && u < |run.ns| && !run.f.Owns(u) && u < |run.cur| && i < |run.cur[u].ops|
      && run.cur[u].ops[i].Some?
    ensures !run.Result().Owns(run.cur[u].ops[i].value)
  {
    hide Ran, Run.Result, WellFormed, Follows, Uses, RetsAre;
    ResultOwns(run);
    RanDual(run);
    RanOld(run);
    RanSite(run);
    OldSlot(run, u, i);
    var s := run.ns[u].ops[i];
    if s.Some? {
      SlotHasUser(run.ns, u, i, s.value);
      assert !run.f.Owns(s.value);
      NotResult(run, s.value);
    }
  }

  lemma NotResult(run: Run, x: nat)
    requires Ran(run) && x < |run.ns| && !run.f.Owns(x)
    ensures !run.Result().Owns(x)
  {
    hide Ran, Run.Result;
    ResultOwns(run);
    RanSite(run);
    RanCopied(run);
    forall m: nat | MovesIn(run.ns, run.callee, m) && m in run.vm ensures run.vm[m] != x {
      hide Copied;
      CopiedNode(run.ns, run.callee, run.ns1, run.c, run.vm, m);
    }
  }

  lemma ForeignReturn(run: Run, m: nat, i: nat)
    requires Ran(run) && m in run.vm && run.callee.Owns(m) && ReturnOf(run.ns, run.callee, m)
      && run.vm[m] < |run.cur| && i < |run.cur[run.vm[m]].ops|
    ensures run.cur[run.vm[m]].ops[i].None?
  {
    hide Ran, Copied, ReturnOf, FinalSlots;
    RanCopied(run);
    CopiedNode(run.ns, run.callee, run.ns1, run.c, run.vm, m);
    RanArgs(run, m);
    RanNode(run, run.vm[m]);
  }

  lemma ForeignEnd(run: Run, i: nat)
    requires Ran(run) && run.callee.end in run.vm && run.vm[run.callee.end] < |run.cur|
      && i < |run.cur[run.vm[run.callee.end]].ops|
    ensures run.cur[run.vm[run.callee.end]].ops[i].None?
  {
    hide Ran, Copied, SiteOk, FinalSlot, RetsAre, Dual, InRange, CallOk, ReturnOf;
    RanDual(run);
    RanCopied(run);
    RanSite(run);
    EndIsNoReturn(run.ns, run.callee, run.ns1, run.c, run.vm);
    CopySlot(run, run.callee.end, i);
    EndHoldsReturns(run.ns, run.callee, run.ns1, run.c, run.vm, run.rets, i);
    var x := run.ns[run.callee.end].ops[i].value;
    InListAt(run.rets, i);
    RanArgs(run, x);
    ReturnNoArg(run.ns, run.callee, run.ns1, run.c, run.vm, x);
    assert run.rets[i] !in run.c.args;
    FinalOfReturn(run.ns1, run.Place(), run.rets[i], |run.ns1| + 1);
  }

  lemma InListAt(xs: seq<nat>, i: nat)
    requires i < |xs|
    ensures xs[i] in xs
  {
  }

  lemma EndIsNoReturn(ns: Nodes, callee: Fn, ns1: Nodes, c: Fn, vm: map<nat, nat>)
    requires Copied(ns, callee, ns1, c, vm)
    ensures callee.Owns(callee.end) && !ReturnOf(ns, callee, callee.end)
  {
    hide IsCopy;
    EndNotInGraph(ns, callee);
  }

  lemma ReturnNoArg(ns: Nodes, callee: Fn, ns1: Nodes, c: Fn, vm: map<nat, nat>, x: nat)
    requires Copied(ns, callee, ns1, c, vm)
    ensures ReturnOf(ns, callee, x) ==> x !in callee.args
  {
    ArgsAreArgs(ns, callee, ns1, c, vm);
  }

  lemma NothingHeld(ns: Nodes, callee: Fn, ns1: Nodes, c: Fn, vm: map<nat, nat>, m: nat)
    requires Copied(ns, callee, ns1, c, vm) && callee.Owns(m) && !MovesIn(ns, callee, m)
      && !ReturnOf(ns, callee, m) && m != callee.end
    ensures m < |ns| && ns[m].ops == []
  {
    ArgsAreArgs(ns, callee, ns1, c, vm);
    hide IsCopy, Sealed, CalleeReturn;
  }

  // The copies that stay behind hold nothing.
  lemma ForeignCopy(run: Run, m: nat, i: nat)
    requires Ran(run) && m in run.vm && run.callee.Owns(m) && !MovesIn(run.ns, run.callee, m)
      && run.vm[m] < |run.cur| && i < |run.cur[run.vm[m]].ops|
    ensures run.cur[run.vm[m]].ops[i].None?
  {
    hide Ran, Copied, MovesIn, ReturnOf, FinalSlot;
    RanCopied(run);
    if ReturnOf(run.ns, run.callee, m) {
      ForeignReturn(run, m, i);
    } else if m == run.callee.end {
      ForeignEnd(run, i);
    } else {
      NothingHeld(run.ns, run.callee, run.ns1, run.c, run.vm, m);
      CopySlot(run, m, i);
    }
  }

  lemma EndHoldsReturns(ns: Nodes, callee: Fn, ns1: Nodes, c: Fn, vm: map<nat, nat>, rets: seq<nat>, i: nat)
    requires RetsAre(ns, callee, ns1, c, vm, rets) && callee.end < |ns| && i < |ns[callee.end].ops|
    ensures i < |rets| && ns[callee.end].ops[i].Some? && ns[callee.end].ops[i].value in vm
      && vm[ns[callee.end].ops[i].value] == rets[i]
  {
    assert RetCopied(ns[callee.end].ops[i], ns1[c.end].ops[i], rets[i], vm);
  }

  lemma FinalOfReturn(ns1: Nodes, d: Site, r: nat, phi: nat)
    requires SiteOk(ns1, d) && r in d.rets && r !in d.args
    ensures |d.to| == |d.args| + 1 && FinalSlot(Some(r), d, phi) == None
  {
    SiteCalls(ns1, d);
    ArgSlotIs(Some(r), d.args, d.to, |d.args|);
    hide SiteOk, ArgSlot, Targets;
  }

  // Afterwards no node of the caller refers to a node it does not own, such as
  // the copies of the start, the end, the returns and the arguments.
  lemma CallerClosed(run: Run)
    requires Ran(run)
    ensures Closed(run.cur, run.Result())
  {
    hide Ran, Run.Result, Copied, CallOk, RetsAre;
    var f' := run.Result();
    RanSite(run);
    forall u: nat, i: nat | f'.Owns(u) && u < |run.cur| && i < |run.cur[u].ops| && run.cur[u].ops[i].Some? ensures f'.Owns(run.cur[u].ops[i].value) {
      OwnedSlot(run, u, i);
    }
    forall n: nat, u: nat | f'.Owns(n) && n < |run.cur| && u in run.cur[n].users ensures f'.Owns(u) {
      var i := UserHasSlot(run.cur, n, u);
      if !f'.Owns(u) {
        ForeignSlot(run, u, i);
      }
    }
  }

  lemma OwnedSlot(run: Run, u: nat, i: nat)
    requires Ran(run) && run.Result().Owns(u) && u < |run.cur| && i < |run.cur[u].ops| && run.cur[u].ops[i].Some?
    ensures run.Result().Owns(run.cur[u].ops[i].value)
  {
    hide Ran, Run.Result;
    ResultOwns(run);
    if run.f.Owns(u) {
      OldSlotOwned(run, u, i);
    } else if IsNew(run.ns1, |run.rets|, u) {
      NewSlotOwned(run, u, i);
    } else {
      var m: nat :| MovesIn(run.ns, run.callee, m) && m in run.vm && run.vm[m] == u;
      MovedSlotOwned(run, m, i);
    }
  }

  lemma ForeignSlot(run: Run, u: nat, i: nat)
    requires Ran(run) && !run.Result().Owns(u) && u < |run.cur| && i < |run.cur[u].ops| && run.cur[u].ops[i].Some?
    ensures !run.Result().Owns(run.cur[u].ops[i].value)
  {
    hide Ran, Run.Result;
    ResultOwns(run);
    RanSite(run);
    NewAbove(run.ns1, |run.rets|, u, |run.cur|);
    if u < |run.ns| {
      ForeignOld(run, u, i);
    } else {
      RanCopied(run);
      var m := CopyPreimage(run.ns, run.callee, run.ns1, run.c, run.vm, u);
      ForeignCopy(run, m, i);
    }
  }

  lemma NewAbove(ns1: Nodes, n: nat, u: nat, size: nat)
    requires u < size == |ns1| + 3 + n
    ensures u >= |ns1| ==> IsNew(ns1, n, u)
  {
  }

  lemma CopyPreimage(ns: Nodes, callee: Fn, ns1: Nodes, c: Fn, vm: map<nat, nat>, u: nat) returns (m: nat)
    requires Copied(ns, callee, ns1, c, vm) && |ns| <= u < |ns1|
    ensures m in vm && callee.Owns(m) && vm[m] == u
  {
    hide CalleeOk, Injective, Dual, Renamed;
    assert Hit(vm, u);
    m :| m in vm && vm[m] == u;
  }

  // The i-th value of the new phi is the image of the i-th returned value, and its
  // i-th predecessor the image of that return's region.
  ghost predicate ReturnsCollected(ns: Nodes, callee: Fn, cn: nat, vm: map<nat, nat>, cur: Nodes, rr: nat) {
    && callee.end < |ns| && cn < |ns| && |ns[cn].ops| == |callee.args| + 1
    && var n := |ns[callee.end].ops|;
      && rr + 2 + n < |cur| && cur[rr].kind.Region? && |cur[rr].ops| == n
      && cur[rr + 1].kind == Phi && |cur[rr + 1].ops| == n + 1 && cur[rr + 1].ops[0] == Some(rr)
      && forall j :: 0 <= j < n ==> ReturnCollected(ns, callee, cn, vm, cur, rr, j)
  }

  ghost predicate ReturnCollected(ns: Nodes, callee: Fn, cn: nat, vm: map<nat, nat>, cur: Nodes, rr: nat, j: nat)
    requires callee.end < |ns| && j < |ns[callee.end].ops| && cn < |ns| && |ns[cn].ops| == |callee.args| + 1
    requires rr + 2 + j < |cur| && j < |cur[rr].ops| && j + 1 < |cur[rr + 1].ops|
  {
    var s := ns[callee.end].ops[j];
    && s.Some? && s.value < |ns| && |ns[s.value].ops| == 2 && ns[s.value].ops[0].Some? && ns[s.value].ops[1].Some?
    && cur[rr].ops[j] == Some(rr + 2 + j)
    && cur[rr + 2 + j].kind == Jmp && |cur[rr + 2 + j].ops| == 1
    && Image(ns, callee, cn, vm, ns[s.value].ops[0].value, cur[rr + 2 + j].ops[0])
    && Image(ns, callee, cn, vm, ns[s.value].ops[1].value, cur[rr + 1].ops[j + 1])
  }

  lemma PhiCollects(run: Run)
    requires Ran(run)
    ensures ReturnsCollected(run.ns, run.callee, run.cn, run.vm, run.cur, |run.ns1|)
  {
    hide CallOk, Copied, FinalSlot, Dual, InlinedNode, Image;
    RanSite(run);
    var d, rr := run.Place(), |run.ns1|;
    forall j | 0 <= j < |run.rets| ensures ReturnCollected(run.ns, run.callee, run.cn, run.vm, run.cur, rr, j) {
      assert ReturnJoined(run.ns1, run.cur, d, rr, j);
      ReturnSlotOwned(run, j, 0);
      ReturnSlotOwned(run, j, 1);
    }
  }

  lemma InlinedSize(a: Node, b: Node, u: nat, d: Site, rr: nat)
    requires |d.to| == |d.args| + 1 && InlinedNode(a, b, u, d, rr)
    ensures |b.ops| == |a.ops|
  {
  }

  // A node of the callee that moves into the caller holds the images of what it held.
  lemma MovedNode(run: Run, m: nat)
    requires Ran(run) && MovesIn(run.ns, run.callee, m)
    ensures run.cn < |run.ns| && |run.ns[run.cn].ops| == |run.callee.args| + 1
    ensures m in run.vm && run.vm[m] < |run.cur| && run.cur[run.vm[m]].kind == run.ns[m].kind
      && |run.cur[run.vm[m]].ops| == |run.ns[m].ops|
    ensures forall i :: 0 <= i < |run.ns[m].ops| ==> run.ns[m].ops[i].Some? && Image(run.ns, run.callee, run.cn, run.vm, run.ns[m].ops[i].value, run.cur[run.vm[m]].ops[i])
  {
    hide Ran, CallOk, IsCopy, RetsAre, FinalSlot, FinalSlots, Image, Dual, Sealed, CalleeReturn, MovedNodes;
    RanDual(run);
    RanCopied(run);
    RanSite(run);
    MovedCopy(run, m);
    CopiedNode(run.ns, run.callee, run.ns1, run.c, run.vm, m);
    RanArgs(run, m);
    RanNode(run, run.vm[m]);
    RanOld(run);
    InlinedSize(run.ns1[run.vm[m]], run.cur[run.vm[m]], run.vm[m], run.Place(), |run.ns1|);
    forall i | 0 <= i < |run.ns[m].ops| ensures run.ns[m].ops[i].Some? && Image(run.ns, run.callee, run.cn, run.vm, run.ns[m].ops[i].value, run.cur[run.vm[m]].ops[i]) {
      HeldSlots(run.ns, run.callee, m, i);
      EndNotInGraph(run.ns, run.callee);
      CopySlot(run, m, i);
      CopySlotFinal(run, run.ns[m].ops[i].value);
    }
  }

  // ---------------------------------------------------------------- the caller is well formed again

  lemma {:induction false} MovedDistinct(ns: Nodes, xs: seq<nat>)
    requires Distinct(xs)
    ensures Distinct(MovedNodes(ns, xs))
  {
    if xs != [] {
      var n := |xs| - 1;
      MovedDistinct(ns, xs[..n]);
      MovedElems(ns, xs[..n]);
      assert xs[n] !in xs[..n];
      DistinctJoin(MovedNodes(ns, xs[..n]), [xs[n]]);
    }
  }

  lemma KindKept(run: Run, x: nat)
    requires Ran(run) && x < |run.ns|
    ensures x < |run.cur| && run.cur[x].kind == run.ns[x].kind && run.cur[x].ty == run.ns[x].ty
  {
    hide Ran, FinalSlots;
    RanCopied(run);
    RanSite(run);
    KeptNode(run.ns, run.callee, run.ns1, run.c, run.vm, x);
    RanNode(run, x);
  }

  lemma NewKind(run: Run, x: nat)
    requires Ran(run) && IsNew(run.ns1, |run.rets|, x)
    ensures x < |run.cur| && (run.cur[x].kind.Region? || run.cur[x].kind.Phi? || run.cur[x].kind.Jmp?)
    ensures run.cur[x].kind.Region? ==> x == |run.ns1|
  {
    hide CallOk, Copied, RetsAre, Dual, InlinedNode;
    RanSite(run);
    var rr := |run.ns1|;
    if rr + 2 <= x < rr + 2 + |run.rets| {
      assert ReturnJoined(run.ns1, run.cur, run.Place(), rr, x - rr - 2);
    }
  }

  lemma MovedKind(run: Run, x: nat)
    requires Ran(run) && x in MovedNodes(run.cur, run.c.graph)
    ensures |run.ns| <= x < |run.ns1| && x < |run.cur| && !run.cur[x].kind.FunctionArg?
  {
    hide Ran, MovedNodes, MovesIn, Copied;
    MovedAre(run);
    MovedElems(run.cur, run.c.graph);
    RanCopied(run);
    RanSite(run);
    var m: nat :| MovesIn(run.ns, run.callee, m) && m in run.vm && run.vm[m] == x;
    MovesInGraph(run.ns, run.callee, m);
    CopiedNode(run.ns, run.callee, run.ns1, run.c, run.vm, m);
  }

  // Lists of nodes below n, above m and in between make one list without repeats.
  lemma JoinLists(below: seq<nat>, above: seq<nat>, between: seq<nat>, n: nat, m: nat)
    requires Distinct(below) && Distinct(above) && Distinct(between) && n <= m
    requires (forall x :: x in below ==> x < n) && (forall x :: x in above ==> m <= x)
    requires forall x :: x in between ==> n <= x < m
    ensures Distinct(below + above + between)
  {
    DistinctJoin(below, above);
    DistinctJoin(below + above, between);
  }

  lemma RangeElems(from: nat, k: nat)
    ensures Distinct(Range(from, k)) && forall x: nat :: x in Range(from, k) <==> from <= x < from + k
  {
    forall x: nat ensures x in Range(from, k) <==> from <= x < from + k {
      assert from <= x < from + k ==> Range(from, k)[x - from] == x;
    }
  }

  lemma ResultGraph(run: Run)
    requires Ran(run)
    ensures Distinct(run.Result().graph)
    ensures forall x: nat :: x in run.Result().graph <==>
      x in run.f.graph || IsNew(run.ns1, |run.rets|, x) || x in MovedNodes(run.cur, run.c.graph)
  {
    hide Ran, MovedNodes, Distinct, WellFormed, CalleeOk, IsCopy, SiteOk, Dual, Range;
    CallerNodes(run);
    CallerGraph(run);
    RanCopied(run);
    RanSite(run);
    CopiedDistinct(run.ns, run.callee, run.ns1, run.c, run.vm);
    MovedDistinct(run.cur, run.c.graph);
    RangeElems(|run.ns1|, 3 + |run.rets|);
    assert forall x: nat :: x in run.f.graph ==> run.f.Owns(x);
    forall x | x in MovedNodes(run.cur, run.c.graph) ensures |run.ns| <= x < |run.ns1| {
      MovedKind(run, x);
    }
    JoinLists(run.f.graph, Range(|run.ns1|, 3 + |run.rets|), MovedNodes(run.cur, run.c.graph), |run.ns|, |run.ns1|);
  }

  lemma CallerGraph(run: Run)
    requires Ran(run)
    ensures WellFormed(run.ns, run.f) && Distinct(run.f.graph)
  {
    hide Dual, Copied, RetsAre, Inlined, Closed, Follows;
  }

  lemma CopiedDistinct(ns: Nodes, callee: Fn, ns1: Nodes, c: Fn, vm: map<nat, nat>)
    requires Copied(ns, callee, ns1, c, vm)
    ensures Distinct(c.graph)
  {
    hide IsCopy, Sealed, CalleeReturn;
    CopyOwns(ns, callee, ns1, c, vm);
  }

  lemma ResultWellFormed(run: Run)
    requires Ran(run)
    ensures WellFormed(run.cur, run.Result())
  {
    hide Ran, MovedNodes;
    ResultGraph(run);
    CallerGraph(run);
    CallerNodes(run);
    RanSite(run);
    var f' := run.Result();
    KindKept(run, f'.start);
    KindKept(run, f'.end);
    forall x | x in MovedNodes(run.cur, run.c.graph) ensures |run.ns| <= x < |run.cur| && !IsArg(run.cur, x) {
      MovedKind(run, x);
    }
    forall x: nat | IsNew(run.ns1, |run.rets|, x) ensures |run.ns| <= x < |run.cur| && !IsArg(run.cur, x) {
      NewKind(run, x);
    }
    forall x: nat | x in run.f.graph ensures x < |run.ns| && (IsArg(run.cur, x) <==> IsArg(run.ns, x)) {
      KindKept(run, x);
    }
  }

  // ---------------------------------------------------------------- inlineStaticCall

  method InlineStaticCall(W: Graph, f: Fn, cn: nat, callee: Fn, num: nat, ty: ValueType, ghost next: nat, ghost at: nat)
    returns (f': Fn, ghost run: Run)
    requires Dual(W.nodes) && CalleeOk(W.nodes, callee) && CallOk(W.nodes, f, cn, callee, next, at)
    modifies W
    ensures run.ns == old(W.nodes) && run.f == f && run.cn == cn && run.callee == callee && run.cur == W.nodes
    ensures Ran(run) && f' == run.Result()
    ensures Dual(W.nodes) && WellFormed(W.nodes, f') && Closed(W.nodes, f')
      && ReturnsCollected(old(W.nodes), callee, cn, run.vm, W.nodes, |run.ns1|)
  {
    hide Dual, CallOk, IsCopy, RetsAre, Inlined, SiteOk, MovedNodes, ReturnsCollected, Closed, CalleeReturn, Follows, Sealed, WellFormed;
    ghost var ns := W.nodes;
    var c, vm := Copy(W, callee);
    ghost var ns1 := W.nodes;
    CopyIsDual(ns, callee, ns1, c, vm);
    CopiedEnd(ns, callee, ns1, c, vm);
    var rets := Values(W.nodes[c.end].ops);
    CopiedReturns(ns, callee, ns1, c, vm, rets);
    SiteIsOk(ns, f, cn, callee, next, at, ns1, c, vm, rets);
    CallShape(ns, f, cn, callee, next, at);
    KeptNode(ns, callee, ns1, c, vm, cn);
    var n1 := |W.nodes|;
    InlineAt(W, SiteOf(ns, c, cn, rets, next, at), c.args, W.nodes[cn].ops, rets, c.start, cn, num, ty);
    f' := Fn(f.args, f.graph + Range(n1, 3 + |rets|) + MovedNodes(W.nodes, c.graph), f.start, f.end);
    run := Run(ns, f, cn, callee, next, at, ns1, c, vm, rets, W.nodes, num, ty);
    assert Ran(run);
    RanSite(run);
    CallerClosed(run);
    ResultWellFormed(run);
    PhiCollects(run);
  }

  lemma CopyIsDual(ns: Nodes, callee: Fn, ns1: Nodes, c: Fn, vm: map<nat, nat>)
    requires IsCopy(ns, callee, ns1, c, vm)
    ensures Dual(ns1) && |ns| <= |ns1|
  {
    hide Dual, Renamed, Renames, NoArgs, Injective;
  }

  lemma CopiedEnd(ns: Nodes, callee: Fn, ns1: Nodes, c: Fn, vm: map<nat, nat>)
    requires Copied(ns, callee, ns1, c, vm)
    ensures c.end < |ns1| && forall i :: 0 <= i < |ns1[c.end].ops| ==> ns1[c.end].ops[i].Some?
  {
    CopiedArgs(ns, callee, ns1, c, vm);
    EndIsNoReturn(ns, callee, ns1, c, vm);
    CopiedNode(ns, callee, ns1, c, vm, callee.end);
    hide Copied;
    forall i | 0 <= i < |ns1[c.end].ops| ensures ns1[c.end].ops[i].Some? {
      assert SlotCopied(ns[callee.end].ops[i], ns1[c.end].ops[i], callee, vm);
    }
  }

  // ---------------------------------------------------------------- an instance

  // A call with a region after it, and a callee that returns the constant 7.
  const EXAMPLE: Nodes := [
    Node(Start(0), Void, [], multiset{2}),
    Node(End(1), Void, [], multiset{}),
    Node(Call(0), Int32, [Some(0)], multiset{3}),
    Node(Region(2), Void, [Some(2)], multiset{}),
    Node(Start(0), Void, [], multiset{6}),
    Node(End(1), Void, [Some(6)], multiset{}),
    Node(Ret, Void, [Some(4), Some(7)], multiset{5}),
    Node(Constant(7), Int32, [], multiset{6})
  ]
  const CALLER := Fn([], [2, 3], 0, 1)
  const CALLEE := Fn([], [6, 7], 4, 5)

  // The conditions on the caller, the call and the callee can be met together.
  lemma InlinableExample()
    ensures Dual(EXAMPLE) && CalleeOk(EXAMPLE, CALLEE) && CallOk(EXAMPLE, CALLER, 2, CALLEE, 3, 0)
  {
    hide Dual, CalleeOk, CallOk;
    ExampleDual();
    ExampleCallee();
    ExampleCall();
  }

  lemma ExampleDual()
    ensures Dual(EXAMPLE)
  {
    hide Uses;
    forall n, u: nat | 0 <= n < |EXAMPLE| ensures EXAMPLE[n].users[u] == Uses(EXAMPLE, u, n) {
      ExampleUses(n, u);
    }
  }

  lemma ExampleUses(n: nat, u: nat)
    requires n < |EXAMPLE|
    ensures EXAMPLE[n].users[u] == Uses(EXAMPLE, u, n)
  {
    if u < |EXAMPLE| {
      var ops := EXAMPLE[u].ops;
      assert ops == if u == 2 then [Some(0)] else if u == 3 then [Some(2)] else if u == 5 then [Some(6)] else if u == 6 then [Some(4), Some(7)] else [];
    }
  }

  lemma ExampleShapes()
    ensures WellFormed(EXAMPLE, CALLEE) && WellFormed(EXAMPLE, CALLER)
  {
    assert CALLEE.graph[0] == 6 && CALLEE.graph[1] == 7;
    assert CALLER.graph[0] == 2 && CALLER.graph[1] == 3;
  }

  lemma ExampleCallee()
    ensures CalleeOk(EXAMPLE, CALLEE)
  {
    ExampleShapes();
    hide WellFormed;
    assert CALLEE.graph[0] == 6 && CALLEE.graph[1] == 7;
    assert CalleeReturn(EXAMPLE, CALLEE, Some(6));
    hide CalleeReturn;
    ExampleSealed();
    hide Sealed;
  }

  lemma ExampleSealed()
    ensures Sealed(EXAMPLE, CALLEE)
  {
    assert CALLEE.graph[0] == 6 && CALLEE.graph[1] == 7;
    assert forall n: nat :: CALLEE.Owns(n) <==> 4 <= n <= 7;
    hide Fn.Owns;
  }

  lemma ExampleClosed()
    ensures Closed(EXAMPLE, CALLER)
  {
    assert CALLER.graph[0] == 2 && CALLER.graph[1] == 3;
    assert forall n: nat :: CALLER.Owns(n) <==> n <= 3;
    hide Fn.Owns;
  }

  lemma ExampleCall()
    ensures CallOk(EXAMPLE, CALLER, 2, CALLEE, 3, 0)
  {
    hide WellFormed, Closed, Follows;
    assert CALLER.graph[0] == 2;
    ExampleShapes();
    ExampleClosed();
    ExampleFollows();
  }

  lemma ExampleFollows()
    ensures Follows(EXAMPLE, 2, 3, 0)
  {
  }
}
