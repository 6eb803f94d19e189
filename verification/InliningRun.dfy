// Inlining every call of a function, one after the other (Inlining::run,
// src/Optimizations/Inlining.hpp:13-32).
module InliningAll {
  import opened SeqUtil
  import opened UseDef
  import opened FunctionCopy
  import opened InliningPass

  // ---------------------------------------------------------------- what one call leaves alone

  // A node that is not there before holds new nodes and operands of the call only.
  lemma NewHolds(run: Run, x: nat, i: nat)
    requires Ran(run) && |run.ns| <= x < |run.cur| && i < |run.cur[x].ops| && run.cur[x].ops[i].Some?
    ensures run.cn < |run.ns|
    ensures run.cur[x].ops[i].value >= |run.ns| || run.cur[x].ops[i] in run.ns[run.cn].ops
  {
    hide Ran, Copied, MovesIn, FinalSlot, Image, SiteOk, Dual;
    RanSite(run);
    if x >= |run.ns1| {
      NewAbove(run.ns1, |run.rets|, x, |run.cur|);
      NewNodeHolds(run, x, i);
    } else {
      RanCopied(run);
      var m := CopyPreimage(run.ns, run.callee, run.ns1, run.c, run.vm, x);
      if MovesIn(run.ns, run.callee, m) {
        MovedNodeHolds(run, m, i);
      } else {
        ForeignCopy(run, m, i);
      }
    }
  }

  lemma ImageHolds(run: Run, x: nat, s: Slot)
    requires Ran(run) && run.cn < |run.ns| && |run.ns[run.cn].ops| == |run.callee.args| + 1
    requires x in run.vm && run.callee.Owns(x) && Image(run.ns, run.callee, run.cn, run.vm, x, s)
    ensures s.Some? ==> s.value >= |run.ns| || s in run.ns[run.cn].ops
  {
    hide Ran, Dual;
    RanCopied(run);
    hide Copied;
    CopiedNode(run.ns, run.callee, run.ns1, run.c, run.vm, x);
    if x in run.callee.args {
      var k: nat :| k < |run.callee.args| && run.callee.args[k] == x;
      assert s == run.ns[run.cn].ops[k];
    }
  }

  lemma MovedNodeHolds(run: Run, m: nat, i: nat)
    requires Ran(run) && MovesIn(run.ns, run.callee, m) && m in run.vm && run.vm[m] < |run.cur|
      && i < |run.cur[run.vm[m]].ops|
    ensures run.cn < |run.ns|
    ensures run.cur[run.vm[m]].ops[i].Some? ==>
      run.cur[run.vm[m]].ops[i].value >= |run.ns| || run.cur[run.vm[m]].ops[i] in run.ns[run.cn].ops
  {
    hide Ran, CallOk, IsCopy, RetsAre, FinalSlot, Image, Dual, Sealed, CalleeReturn;
    RanDual(run);
    RanCopied(run);
    RanSite(run);
    CopySlot(run, m, i);
    HeldSlots(run.ns, run.callee, m, i);
    EndNotInGraph(run.ns, run.callee);
    var x := run.ns[m].ops[i].value;
    CopySlotFinal(run, x);
    ImageHolds(run, x, run.cur[run.vm[m]].ops[i]);
  }

  lemma ReturnSlotHolds(run: Run, j: nat, i: nat)
    requires Ran(run) && j < |run.rets| && i < 2
    ensures run.cn < |run.ns| && run.rets[j] < |run.ns1| && |run.ns1[run.rets[j]].ops| == 2
      && |run.ns[run.cn].ops| == |run.c.args| + 1
    ensures var s := FinalSlot(run.ns1[run.rets[j]].ops[i], run.Place(), |run.ns1| + 1);
      s.Some? ==> s.value >= |run.ns| || s in run.ns[run.cn].ops
  {
    hide Ran, FinalSlot, Image, CallOk, Dual, RetsAre, IsCopy, WellFormed, Sealed;
    RanDual(run);
    RanSite(run);
    RanCopied(run);
    ReturnSource(run.ns, run.callee, run.ns1, run.c, run.vm, run.rets, j);
    ReturnSlotOwned(run, j, i);
    var x := run.ns[run.ns[run.callee.end].ops[j].value].ops[i].value;
    HeldSlots(run.ns, run.callee, run.ns[run.callee.end].ops[j].value, i);
    CopiedNode(run.ns, run.callee, run.ns1, run.c, run.vm, x);
    ImageHolds(run, x, FinalSlot(run.ns1[run.rets[j]].ops[i], run.Place(), |run.ns1| + 1));
  }

  lemma NewNodeHolds(run: Run, u: nat, i: nat)
    requires Ran(run) && IsNew(run.ns1, |run.rets|, u) && u < |run.cur| && i < |run.cur[u].ops| && run.cur[u].ops[i].Some?
    ensures run.cn < |run.ns|
    ensures run.cur[u].ops[i].value >= |run.ns| || run.cur[u].ops[i] in run.ns[run.cn].ops
  {
    hide CallOk, Copied, RetsAre, FinalSlot, Dual, InlinedNode;
    RanSite(run);
    var d, rr := run.Place(), |run.ns1|;
    if u == rr {
      assert ReturnJoined(run.ns1, run.cur, d, rr, i);
    } else if u == rr + 1 {
      if i > 0 {
        assert ReturnJoined(run.ns1, run.cur, d, rr, i - 1);
        ReturnSlotHolds(run, i - 1, 1);
      }
    } else if u < rr + 2 + |run.rets| {
      assert ReturnJoined(run.ns1, run.cur, d, rr, u - rr - 2);
      ReturnSlotHolds(run, u - rr - 2, 0);
    }
  }

  // Nodes of other functions are untouched, their users included.
  lemma OthersUntouched(run: Run, u: nat)
    requires Ran(run) && u < |run.ns| && !run.f.Owns(u)
    ensures u < |run.cur| && run.cur[u] == run.ns[u]
  {
    hide Ran, CallOk, InRange, SiteOk, Fn.Owns;
    RanDual(run);
    RanSite(run);
    OtherSlots(run, u);
    forall x: nat ensures run.cur[u].users[x] == run.ns[u].users[x] {
      OtherUsers(run, u, x);
    }
  }

  lemma OtherSlots(run: Run, u: nat)
    requires Ran(run) && u < |run.ns| && !run.f.Owns(u)
    ensures u < |run.cur| && run.cur[u].kind == run.ns[u].kind && run.cur[u].ty == run.ns[u].ty && run.cur[u].ops == run.ns[u].ops
  {
    hide Ran;
    KindKept(run, u);
    OldLength(run, u);
    CallUsers(run, u);
    forall i | 0 <= i < |run.cur[u].ops| ensures run.cur[u].ops[i] == run.ns[u].ops[i] {
      OldSlot(run, u, i);
    }
  }

  // Only nodes of the caller hold the call.
  lemma CallUsers(run: Run, u: nat)
    requires Ran(run) && u < |run.ns| && !run.f.Owns(u)
    ensures Some(run.cn) !in run.ns[u].ops && u != run.cn && u != run.next
  {
    hide Ran, WellFormed, Follows;
    RanDual(run);
    RanOld(run);
    if Some(run.cn) in run.ns[u].ops {
      var i :| 0 <= i < |run.ns[u].ops| && run.ns[u].ops[i] == Some(run.cn);
      SlotHasUser(run.ns, u, i, run.cn);
    }
  }

  lemma OtherUsers(run: Run, u: nat, x: nat)
    requires Ran(run) && u < |run.ns| && !run.f.Owns(u) && u < |run.cur|
    ensures run.cur[u].users[x] == run.ns[u].users[x]
  {
    hide Ran, CallOk, InRange, SiteOk;
    RanDual(run);
    RanSite(run);
    assert run.cur[u].users[x] == Uses(run.cur, x, u) && run.ns[u].users[x] == Uses(run.ns, x, u);
    hide Dual;
    if x >= |run.ns| {
      if x < |run.cur| {
        NotHeldByNew(run, u, x);
      }
    } else if run.f.Owns(x) {
      NotHeldByOwn(run, u, x);
    } else {
      OtherSlots(run, x);
    }
  }

  lemma NotHeldByNew(run: Run, u: nat, x: nat)
    requires Ran(run) && u < |run.ns| && !run.f.Owns(u) && |run.ns| <= x < |run.cur|
    ensures Uses(run.cur, x, u) == 0
  {
    hide Ran, WellFormed, Follows, Dual;
    RanDual(run);
    CallOperands(run.ns, run.f, run.cn, run.callee, run.next, run.at);
    forall i | 0 <= i < |run.cur[x].ops| ensures run.cur[x].ops[i] != Some(u) {
      if run.cur[x].ops[i] == Some(u) {
        NewHolds(run, x, i);
      }
    }
    NotInSlots(run.cur[x].ops, u);
  }

  lemma NotHeldByOwn(run: Run, u: nat, x: nat)
    requires Ran(run) && u < |run.ns| && !run.f.Owns(u) && run.f.Owns(x) && x < |run.ns|
    ensures Uses(run.cur, x, u) == 0 && Uses(run.ns, x, u) == 0
  {
    hide Ran, WellFormed, Follows, Dual, Run.Result;
    RanDual(run);
    RanSite(run);
    CallerClosed(run);
    ResultOwns(run);
    NotResult(run, u);
    forall i | 0 <= i < |run.ns[x].ops| ensures run.ns[x].ops[i] != Some(u) {
    }
    NotInSlots(run.ns[x].ops, u);
    forall i | x < |run.cur| && 0 <= i < |run.cur[x].ops| ensures run.cur[x].ops[i] != Some(u) {
    }
    if x < |run.cur| {
      NotInSlots(run.cur[x].ops, u);
    }
  }

  lemma NotInSlots(ops: seq<Slot>, u: nat)
    requires forall i :: 0 <= i < |ops| ==> ops[i] != Some(u)
    ensures multiset(ops)[Some(u)] == 0
  {
    assert Some(u) !in multiset(ops);
  }

  // ---------------------------------------------------------------- the other calls

  // The two functions have no node in common.
  ghost predicate Apart(f: Fn, callee: Fn) {
    forall n: nat :: !(f.Owns(n) && callee.Owns(n))
  }

  predicate FlowInput(k: Kind) {
    k.Jmp? || k.IfTrue? || k.IfFalse? || k.Ret? || k.Call? || k.NullCheck? || k.BoundsCheck?
  }

  // The inputs of regions are jumps, branches, returns, calls and checks.
  ghost predicate RegionInputs(ns: Nodes, callee: Fn) {
    forall n: nat, i: nat :: n in callee.graph && n < |ns| && ns[n].kind.Region? && i < |ns[n].ops| ==>
      var s := ns[n].ops[i]; s.Some? && s.value < |ns| && FlowInput(ns[s.value].kind)
  }

  // The call cn of f can be inlined.
  ghost predicate Inlinable(ns: Nodes, f: Fn, cn: nat, callee: Fn) {
    && CalleeOk(ns, callee) && RegionInputs(ns, callee) && Apart(f, callee)
    && exists next: nat, at: nat :: CallOk(ns, f, cn, callee, next, at)
  }

  lemma CalleeStays(run: Run, callee: Fn)
    requires Ran(run) && CalleeOk(run.ns, callee) && RegionInputs(run.ns, callee) && Apart(run.f, callee)
    ensures CalleeOk(run.cur, callee) && RegionInputs(run.cur, callee) && Apart(run.Result(), callee)
  {
    hide Ran, CalleeReturn, Run.Result;
    RanSite(run);
    forall u: nat | callee.Owns(u) ensures u < |run.ns| && u < |run.cur| && run.cur[u] == run.ns[u] && !run.Result().Owns(u) {
      OthersUntouched(run, u);
      NotResult(run, u);
    }
    SameCallee(run.ns, run.cur, callee);
  }

  lemma SameCallee(ns: Nodes, ns': Nodes, callee: Fn)
    requires CalleeOk(ns, callee) && RegionInputs(ns, callee)
    requires forall u: nat :: callee.Owns(u) ==> u < |ns| && u < |ns'| && ns'[u] == ns[u]
    ensures CalleeOk(ns', callee) && RegionInputs(ns', callee)
  {
    assert callee.Owns(callee.start) && callee.Owns(callee.end);
    assert forall n: nat :: n in callee.graph ==> callee.Owns(n);
    assert forall a: nat :: a in callee.args ==> callee.Owns(a);
    assert WellFormed(ns', callee);
    assert Sealed(ns', callee);
    forall j | 0 <= j < |ns[callee.end].ops| ensures CalleeReturn(ns', callee, ns'[callee.end].ops[j]) {
      assert CalleeReturn(ns, callee, ns[callee.end].ops[j]);
    }
    forall n: nat, i: nat | n in callee.graph && n < |ns'| && ns'[n].kind.Region? && i < |ns'[n].ops|
      ensures var s := ns'[n].ops[i]; s.Some? && s.value < |ns'| && FlowInput(ns'[s.value].kind)
    {
      assert callee.Owns(n) && callee.Owns(ns[n].ops[i].value);
    }
  }

  // A slot of a region that holds another call is the one that held it before.
  lemma OtherNext(run: Run, cn: nat, u: nat, i: nat)
    requires Ran(run) && RegionInputs(run.ns, run.callee) && cn < |run.ns| && cn != run.cn && run.f.Owns(cn)
    requires NextSlot(run.cur, cn, u, i)
    ensures u < |run.ns| && NextSlot(run.ns, cn, u, i)
  {
    hide Ran, Copied, SiteOk, MovesIn, CallOk, Dual;
    RanSite(run);
    RanCopied(run);
    if u < |run.ns| {
      OldSlot(run, u, i);
      KindKept(run, u);
    } else if u >= |run.ns1| {
      NewAbove(run.ns1, |run.rets|, u, |run.cur|);
      NewRegionHolds(run, u, i);
      assert false;
    } else {
      var m := CopyPreimage(run.ns, run.callee, run.ns1, run.c, run.vm, u);
      if MovesIn(run.ns, run.callee, m) {
        MovedRegionHolds(run, m, i);
      } else {
        ForeignCopy(run, m, i);
      }
      assert false;
    }
  }

  lemma NewRegionHolds(run: Run, u: nat, i: nat)
    requires Ran(run) && IsNew(run.ns1, |run.rets|, u) && u < |run.cur| && run.cur[u].kind.Region? && i < |run.cur[u].ops|
    ensures run.cur[u].ops[i].Some? ==> run.cur[u].ops[i].value >= |run.ns1|
  {
    NewKind(run, u);
    hide CallOk, Copied, RetsAre, FinalSlot, Dual, InlinedNode;
    RanSite(run);
    assert ReturnJoined(run.ns1, run.cur, run.Place(), u, i);
  }

  lemma MovedRegionHolds(run: Run, m: nat, i: nat)
    requires Ran(run) && RegionInputs(run.ns, run.callee) && MovesIn(run.ns, run.callee, m) && m in run.vm
    requires run.vm[m] < |run.cur| && run.cur[run.vm[m]].kind.Region? && i < |run.cur[run.vm[m]].ops|
    ensures run.cur[run.vm[m]].ops[i].Some? ==> run.cur[run.vm[m]].ops[i].value >= |run.ns|
  {
    hide Ran, CallOk, IsCopy, RetsAre, FinalSlot, Dual, Sealed, CalleeReturn;
    RanDual(run);
    RanCopied(run);
    RanSite(run);
    MovedCopy(run, m);
    CopySlot(run, m, i);
    HeldSlots(run.ns, run.callee, m, i);
    EndNotInGraph(run.ns, run.callee);
    var x := run.ns[m].ops[i].value;
    InputIsInner(run.ns, run.callee, m, i);
    CopySlotFinal(run, x);
    CopiedNode(run.ns, run.callee, run.ns1, run.c, run.vm, x);
  }

  lemma InputIsInner(ns: Nodes, callee: Fn, m: nat, i: nat)
    requires CalleeOk(ns, callee) && RegionInputs(ns, callee) && m in callee.graph && m < |ns| && ns[m].kind.Region?
    requires i < |ns[m].ops|
    ensures ns[m].ops[i].Some? && ns[m].ops[i].value !in callee.args && ns[m].ops[i].value != callee.start
  {
    hide Sealed, CalleeReturn;
  }

  lemma OtherFollows(run: Run, cn: nat, next: nat, at: nat)
    requires Ran(run) && RegionInputs(run.ns, run.callee) && cn < |run.ns| && cn != run.cn && run.f.Owns(cn)
    requires Follows(run.ns, cn, next, at)
    ensures Follows(run.cur, cn, next, at)
  {
    hide Ran, NextSlot;
    forall u: nat, i: nat | NextSlot(run.cur, cn, u, i) ensures u == next && i == at {
      OtherNext(run, cn, u, i);
    }
    StillFollows(run, cn, next, at);
  }

  lemma StillFollows(run: Run, cn: nat, next: nat, at: nat)
    requires Ran(run) && cn < |run.ns| && cn != run.cn && NextSlot(run.ns, cn, next, at)
    ensures NextSlot(run.cur, cn, next, at) && next < |run.cur| && at < |run.cur[next].ops|
  {
    hide Ran, CallOk;
    KindKept(run, next);
    OldLength(run, next);
    RanDual(run);
    RanOld(run);
    CallKind(run);
    OldSlot(run, next, at);
    NotNext(run.ns, run.cn, run.next, run.at);
  }

  lemma NotNext(ns: Nodes, cn: nat, next: nat, at: nat)
    requires Follows(ns, cn, next, at)
    ensures ns[next].ops[at] == Some(cn)
  {
  }

  lemma CallKind(run: Run)
    requires Ran(run)
    ensures run.cn < |run.ns| && run.ns[run.cn].kind.Call? && Follows(run.ns, run.cn, run.next, run.at)
  {
    hide Dual, Copied, RetsAre, Inlined, WellFormed, Closed, Follows;
  }

  lemma OldLength(run: Run, u: nat)
    requires Ran(run) && u < |run.ns|
    ensures u < |run.cur| && |run.cur[u].ops| == |run.ns[u].ops|
  {
    hide Ran, SiteOk, Dual;
    RanCopied(run);
    RanSite(run);
    KeptNode(run.ns, run.callee, run.ns1, run.c, run.vm, u);
    hide Copied;
    RanNode(run, u);
    InlinedSize(run.ns1[u], run.cur[u], u, run.Place(), |run.ns1|);
  }

  lemma CallStays(run: Run, cn: nat, callee: Fn, next: nat, at: nat)
    requires Ran(run) && RegionInputs(run.ns, run.callee) && cn != run.cn
    requires CallOk(run.ns, run.f, cn, callee, next, at)
    ensures CallOk(run.cur, run.Result(), cn, callee, next, at)
  {
    hide Ran, WellFormed, Closed, Follows, Run.Result, Distinct;
    assert run.f.Owns(cn);
    ResultWellFormed(run);
    CallerClosed(run);
    ResultGraph(run);
    KindKept(run, cn);
    OldLength(run, cn);
    RanSite(run);
    forall i | 0 <= i < |run.cur[cn].ops| ensures run.cur[cn].ops[i].Some? && run.cur[cn].ops[i] != Some(cn) {
      OldCallSlot(run, cn, i);
    }
    OtherFollows(run, cn, next, at);
  }

  // The following region is no call.
  lemma OldCallSlot(run: Run, cn: nat, i: nat)
    requires Ran(run) && cn < |run.ns| && cn != run.cn && run.ns[cn].kind.Call? && cn < |run.cur| && i < |run.cur[cn].ops|
    ensures i < |run.ns[cn].ops|
    ensures run.ns[cn].ops[i].Some? && run.ns[cn].ops[i] != Some(cn) ==> run.cur[cn].ops[i].Some? && run.cur[cn].ops[i] != Some(cn)
  {
    hide Ran;
    CallKind(run);
    RanSite(run);
    OldSlot(run, cn, i);
  }

  // Inlining one call leaves every other call inlinable.
  lemma InlinableStays(run: Run, cn: nat, callee: Fn)
    requires Ran(run) && RegionInputs(run.ns, run.callee) && cn != run.cn && Inlinable(run.ns, run.f, cn, callee)
    ensures Inlinable(run.cur, run.Result(), cn, callee)
  {
    hide Ran, CalleeOk, RegionInputs, Apart, Run.Result, CallOk;
    CalleeStays(run, callee);
    var next: nat, at: nat :| CallOk(run.ns, run.f, cn, callee, next, at);
    CallStays(run, cn, callee, next, at);
  }

  // ---------------------------------------------------------------- the calls that are gone

  // The node holds nothing and nothing holds it.
  ghost predicate Gone(ns: Nodes, u: nat) {
    u < |ns| && (forall i :: 0 <= i < |ns[u].ops| ==> ns[u].ops[i] == None) && ns[u].users == multiset{}
  }

  lemma NobodyHolds(ns: Nodes, u: nat)
    requires Dual(ns) && u < |ns| && forall x: nat, i: nat :: x < |ns| && i < |ns[x].ops| ==> ns[x].ops[i] != Some(u)
    ensures ns[u].users == multiset{}
  {
    forall x: nat ensures ns[u].users[x] == 0 {
      assert ns[u].users[x] == Uses(ns, x, u);
      if x < |ns| {
        NotInSlots(ns[x].ops, u);
      }
    }
  }

  lemma CallIsGone(run: Run)
    requires Ran(run)
    ensures Gone(run.cur, run.cn)
  {
    hide Ran, InRange, SiteOk, WellFormed, Closed, Follows;
    RanSite(run);
    RanDual(run);
    forall i | 0 <= i < |run.cur[run.cn].ops| ensures run.cur[run.cn].ops[i] == None {
      OldSlot(run, run.cn, i);
    }
    forall x: nat, i: nat | x < |run.cur| && i < |run.cur[x].ops| ensures run.cur[x].ops[i] != Some(run.cn) {
      if x < |run.ns| {
        OldSlot(run, x, i);
      } else if run.cur[x].ops[i] == Some(run.cn) {
        NewHolds(run, x, i);
      }
    }
    NobodyHolds(run.cur, run.cn);
  }

  lemma GoneStays(run: Run, u: nat)
    requires Ran(run) && Gone(run.ns, u)
    ensures Gone(run.cur, u)
  {
    hide Ran, InRange, SiteOk, CallOk, Dual;
    RanSite(run);
    RanDual(run);
    OldLength(run, u);
    CallKind(run);
    NotNext(run.ns, run.cn, run.next, run.at);
    forall i | 0 <= i < |run.cur[u].ops| ensures run.cur[u].ops[i] == None {
      OldSlot(run, u, i);
    }
    forall x: nat, i: nat | x < |run.cur| && i < |run.cur[x].ops| ensures run.cur[x].ops[i] != Some(u) {
      GoneNotHeld(run, u, x, i);
    }
    NobodyHolds(run.cur, u);
  }

  lemma GoneNotHeld(run: Run, u: nat, x: nat, i: nat)
    requires Ran(run) && Gone(run.ns, u) && x < |run.cur| && i < |run.cur[x].ops|
    ensures run.cur[x].ops[i] != Some(u)
  {
    hide Ran, SiteOk, CallOk;
    RanSite(run);
    RanDual(run);
    if run.cur[x].ops[i] == Some(u) {
      if x < |run.ns| {
        OldSlot(run, x, i);
        SlotHasUser(run.ns, x, i, u);
      } else {
        NewHolds(run, x, i);
        var k :| 0 <= k < |run.ns[run.cn].ops| && run.ns[run.cn].ops[k] == Some(u);
        SlotHasUser(run.ns, run.cn, k, u);
      }
    }
  }

  // The call that was inlined stays in the graph with empty slots, so a function into
  // which a call was inlined cannot be copied, nor inlined, any more.
  lemma ResultNotSealed(run: Run)
    requires Ran(run)
    ensures !Sealed(run.cur, run.Result()) && !CalleeOk(run.cur, run.Result())
  {
    hide Ran, Run.Result, WellFormed, Closed, Follows;
    RanSite(run);
    RanDual(run);
    CallIsGone(run);
    OldLength(run, run.cn);
    ResultOwns(run);
    assert run.f.Owns(run.cn);
    assert run.cur[run.cn].ops[0] == None;
  }

  // ---------------------------------------------------------------- all calls, one after the other

  // The calls of a list of nodes, in order.
  function Calls(ns: Nodes, xs: seq<nat>): seq<nat> {
    if xs == [] then []
    else
      var n := |xs| - 1;
      Calls(ns, xs[..n]) + if xs[n] < |ns| && ns[xs[n]].kind.Call? then [xs[n]] else []
  }

  lemma {:induction false} CallsElems(ns: Nodes, xs: seq<nat>)
    ensures forall x: nat :: x in Calls(ns, xs) <==> x in xs && x < |ns| && ns[x].kind.Call?
    ensures Distinct(xs) ==> Distinct(Calls(ns, xs))
  {
    if xs != [] {
      var n := |xs| - 1;
      CallsElems(ns, xs[..n]);
      assert xs == xs[..n] + [xs[n]];
      if Distinct(xs) && xs[n] < |ns| && ns[xs[n]].kind.Call? {
        assert xs[n] !in xs[..n];
        DistinctJoin(Calls(ns, xs[..n]), [xs[n]]);
      }
    }
  }

  method GetCandidates(W: Graph, f: Fn) returns (toInline: seq<nat>)
    requires WellFormed(W.nodes, f)
    ensures toInline == Calls(W.nodes, f.graph)
  {
    toInline := [];
    for k := 0 to |f.graph|
      invariant toInline == Calls(W.nodes, f.graph[..k])
    {
      var n := f.graph[k];
      assert n in f.graph;
      assert f.graph[..k + 1][..k] == f.graph[..k];
      if W.nodes[n].kind.Call? {
        toInline := toInline + [n];
      }
    }
    assert f.graph[..|f.graph|] == f.graph;
  }

  // Where the k-th run starts: the end of the one before.
  function NodesBefore(runs: seq<Run>, k: nat, ns: Nodes): Nodes
    requires k <= |runs|
  {
    if k == 0 then ns else runs[k - 1].cur
  }

  function CallerBefore(runs: seq<Run>, k: nat, f: Fn): Fn
    requires k <= |runs|
  {
    if k == 0 then f else runs[k - 1].Result()
  }

  // The k-th run inlines the k-th call, and the runs follow on one another.
  ghost predicate Chain(runs: seq<Run>, cs: seq<nat>, ns: Nodes, f: Fn, ns': Nodes, f': Fn) {
    && |runs| <= |cs|
    && (forall k :: 0 <= k < |runs| ==> Ran(runs[k]) && runs[k].cn == cs[k])
    && (forall k: nat :: k < |runs| ==> runs[k].ns == NodesBefore(runs, k, ns) && runs[k].f == CallerBefore(runs, k, f))
    && ns' == NodesBefore(runs, |runs|, ns) && f' == CallerBefore(runs, |runs|, f)
  }

  lemma ChainNext(runs: seq<Run>, cs: seq<nat>, ns: Nodes, f: Fn, ns': Nodes, f': Fn, run: Run)
    requires Chain(runs, cs, ns, f, ns', f') && |runs| < |cs| && Ran(run)
    requires run.cn == cs[|runs|] && run.ns == ns' && run.f == f'
    ensures Chain(runs + [run], cs, ns, f, run.cur, run.Result())
  {
    hide Ran, Run.Result;
    var rs := runs + [run];
    forall k: nat | k < |rs|
      ensures Ran(rs[k]) && rs[k].cn == cs[k]
      ensures rs[k].ns == NodesBefore(rs, k, ns) && rs[k].f == CallerBefore(rs, k, f)
    {
      assert k > 0 ==> rs[k - 1] == runs[k - 1];
      if k < |runs| {
        assert rs[k] == runs[k];
        assert NodesBefore(rs, k, ns) == NodesBefore(runs, k, ns);
      }
    }
    assert rs[|rs| - 1] == run;
  }

  // The nodes of other functions are as they were.
  ghost predicate Untouched(ns: Nodes, ns': Nodes, f: Fn) {
    |ns| <= |ns'| && forall u: nat :: u < |ns| && !f.Owns(u) ==> ns'[u] == ns[u]
  }

  ghost predicate Grown(f: Fn, f': Fn, n: nat) {
    && f'.args == f.args && f'.start == f.start && f'.end == f.end
    && (forall u: nat :: f.Owns(u) ==> f'.Owns(u)) && forall u: nat :: f'.Owns(u) && u < n ==> f.Owns(u)
  }

  lemma UntouchedNext(ns: Nodes, f: Fn, run: Run)
    requires Ran(run) && Untouched(ns, run.ns, f) && Grown(f, run.f, |ns|)
    ensures Untouched(ns, run.cur, f) && Grown(f, run.Result(), |ns|)
  {
    hide Ran, Fn.Owns, SiteOk, Dual;
    RanSite(run);
    ResultOwns(run);
    ResultEnds(run);
    forall u: nat | u < |ns| && !f.Owns(u) ensures run.cur[u] == ns[u] && !run.Result().Owns(u) {
      OthersUntouched(run, u);
      NotResult(run, u);
    }
  }

  lemma ResultEnds(run: Run)
    ensures run.Result().args == run.f.args && run.Result().start == run.f.start && run.Result().end == run.f.end
  {
  }

  // What holds between two calls: the calls still listed can be inlined, the others are gone.
  ghost predicate Between(ns: Nodes, f: Fn, callees: map<nat, Fn>, cs: seq<nat>, k: nat)
    requires k <= |cs|
  {
    && Dual(ns) && WellFormed(ns, f) && Closed(ns, f)
    && (forall i :: k <= i < |cs| ==> cs[i] in callees && Inlinable(ns, f, cs[i], callees[cs[i]]))
    && forall i :: 0 <= i < k ==> Gone(ns, cs[i])
  }

  lemma BetweenNext(run: Run, callees: map<nat, Fn>, cs: seq<nat>, k: nat)
    requires Ran(run) && Distinct(cs) && k < |cs| && Between(run.ns, run.f, callees, cs, k)
    requires run.cn == cs[k] && RegionInputs(run.ns, run.callee)
    ensures Between(run.cur, run.Result(), callees, cs, k + 1)
  {
    hide Ran, Dual, WellFormed, Closed, Inlinable, Gone, RegionInputs, Run.Result, SiteOk;
    RanSite(run);
    ResultWellFormed(run);
    CallerClosed(run);
    CallIsGone(run);
    forall i | k + 1 <= i < |cs| ensures cs[i] in callees && Inlinable(run.cur, run.Result(), cs[i], callees[cs[i]]) {
      InlinableStays(run, cs[i], callees[cs[i]]);
    }
    forall i | 0 <= i < k ensures Gone(run.cur, cs[i]) {
      GoneStays(run, cs[i]);
    }
  }

  // All calls of f are inlined: each is a run of the pass, in graph order; in the end
  // none of them is left in place, and no other function has changed. The calls that come
  // in with the copies are not looked at.
  method InlineCalls(W: Graph, f: Fn, callees: map<nat, Fn>, num: nat, ty: nat -> ValueType)
    returns (f': Fn, ghost runs: seq<Run>)
    requires Dual(W.nodes) && WellFormed(W.nodes, f) && Closed(W.nodes, f)
    requires forall cn: nat :: cn in Calls(W.nodes, f.graph) ==> cn in callees && Inlinable(W.nodes, f, cn, callees[cn])
    modifies W
    ensures Dual(W.nodes) && WellFormed(W.nodes, f') && Closed(W.nodes, f')
    ensures forall cn: nat :: cn in Calls(old(W.nodes), f.graph) ==> Gone(W.nodes, cn)
    ensures Untouched(old(W.nodes), W.nodes, f) && Grown(f, f', |old(W.nodes)|)
    ensures |runs| == |Calls(old(W.nodes), f.graph)| && Chain(runs, Calls(old(W.nodes), f.graph), old(W.nodes), f, W.nodes, f')
  {
    hide Dual, WellFormed, Closed, Inlinable, Gone, Calls, Ran, Untouched, Grown, Distinct, Chain, RegionInputs, CallOk, CalleeOk;
    ghost var ns := W.nodes;
    var toInline := GetCandidates(W, f);
    CallsElems(ns, f.graph);
    GraphDistinct(ns, f);
    f', runs := f, [];
    FirstChain(toInline, ns, f);
    for k := 0 to |toInline|
      invariant Between(W.nodes, f', callees, toInline, k)
      invariant |runs| == k && Chain(runs, toInline, ns, f, W.nodes, f')
      invariant Untouched(ns, W.nodes, f) && Grown(f, f', |ns|)
    {
      var cn := toInline[k];
      ghost var next: nat, at: nat := PlaceOf(W.nodes, f', cn, callees[cn]);
      ghost var run;
      f', run := InlineStaticCall(W, f', cn, callees[cn], num, ty(cn), next, at);
      BetweenNext(run, callees, toInline, k);
      ChainNext(runs, toInline, ns, f, run.ns, run.f, run);
      UntouchedNext(ns, f, run);
      runs := runs + [run];
    }
  }

  lemma PlaceOf(ns: Nodes, f: Fn, cn: nat, callee: Fn) returns (next: nat, at: nat)
    requires Inlinable(ns, f, cn, callee)
    ensures CallOk(ns, f, cn, callee, next, at) && CalleeOk(ns, callee) && RegionInputs(ns, callee)
  {
    next, at :| CallOk(ns, f, cn, callee, next, at);
  }

  lemma GraphDistinct(ns: Nodes, f: Fn)
    requires WellFormed(ns, f)
    ensures Distinct(f.graph)
  {
  }

  lemma FirstChain(cs: seq<nat>, ns: Nodes, f: Fn)
    ensures Chain([], cs, ns, f, ns, f) && Untouched(ns, ns, f) && Grown(f, f, |ns|)
  {
  }

  // The conditions can be met together: the one call of the example.
  lemma InlinableCall()
    ensures Inlinable(EXAMPLE, CALLER, 2, CALLEE) && WellFormed(EXAMPLE, CALLER) && Closed(EXAMPLE, CALLER)
  {
    InlinableExample();
    ExampleShapes();
    ExampleClosed();
    hide Dual, CalleeOk, CallOk, WellFormed, Closed;
    assert CALLEE.graph[0] == 6 && CALLEE.graph[1] == 7;
    assert CALLER.graph[0] == 2 && CALLER.graph[1] == 3;
    assert forall n: nat :: CALLER.Owns(n) <==> n <= 3;
    assert forall n: nat :: CALLEE.Owns(n) <==> 4 <= n <= 7;
  }
}
