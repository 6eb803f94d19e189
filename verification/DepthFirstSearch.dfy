// Depth-first numbering with an explicit stack (Function::_dfs, src/Function.cpp:369-409).
module DepthFirstSearch {
  import opened SeqUtil
  import opened Tree
  import opened ControlFlow

  // ---------------------------------------------------------------- what a run promises

  // dfs lists the regions by number, num is its inverse and parents[i] is the
  // number of the region from which number i was entered.
  ghost predicate Numbering(g: Cfg, dfs: seq<nat>, parents: seq<nat>, num: map<nat, nat>) {
    && |parents| == |dfs| && IsTree(parents)
    && dfs[0] == g.start
    && (forall i :: 0 <= i < |dfs| ==> dfs[i] < |g.succs| && dfs[i] in num && num[dfs[i]] == i)
    && (forall v :: v in num ==> num[v] < |dfs| && dfs[num[v]] == v)
    && forall i :: 1 <= i < |dfs| ==> g.Edge(dfs[parents[i]], dfs[i])
  }

  // An edge to a later number comes from a tree ancestor: there are no forward cross edges.
  ghost predicate DepthFirst(g: Cfg, dfs: seq<nat>, parents: seq<nat>)
    requires |parents| == |dfs| && IsTree(parents)
  {
    forall i, j :: 0 <= i < j < |dfs| && g.Edge(dfs[i], dfs[j]) ==> Anc(parents, i, j)
  }

  // Numbers are given in pre-order: what is numbered after an entered region's parent,
  // and no later than the region, lies below that parent.
  ghost predicate PreOrder(parents: seq<nat>)
    requires IsTree(parents)
  {
    forall v: nat, w: nat :: w < |parents| && parents[w] <= v <= w ==> Anc(parents, parents[w], v)
  }

  // u leaves no successor behind: each is listed earlier or is a tree ancestor of u.
  ghost predicate Finishes(g: Cfg, parents: seq<nat>, num: map<nat, nat>, rpo: seq<nat>, u: nat, v: nat)
    requires IsTree(parents) && u in rpo && u in num && num[u] < |parents|
  {
    v in num && ((v in rpo && FirstIndex(rpo, v) < FirstIndex(rpo, u)) || Anc(parents, num[v], num[u]))
  }

  // First occurrences in rpo form a post-order.
  ghost predicate PostOrder(g: Cfg, parents: seq<nat>, num: map<nat, nat>, rpo: seq<nat>) {
    && IsTree(parents)
    && (forall v :: v in num ==> num[v] < |parents|)
    && (forall u :: u in rpo ==> u in num)
    && forall u, v :: u in rpo && g.Edge(u, v) ==> Finishes(g, parents, num, rpo, u, v)
  }

  // ---------------------------------------------------------------- loop state

  // open lists the numbers of the regions that are visited but not finished, and
  // pos the stack positions of the entries through which they were entered.
  datatype St = St(work: seq<(nat, nat)>, dfs: seq<nat>, parents: seq<nat>, num: map<nat, nat>,
                   rpo: seq<nat>, open: seq<nat>, pos: seq<nat>)

  ghost predicate WorkOk(g: Cfg, st: St) {
    && (forall k :: 0 <= k < |st.work| ==> st.work[k].1 < |g.succs|)
    && (st.dfs == [] ==> st == St([(0, g.start)], [], [], map[], [], [], []))
    && (st.dfs != [] ==> Numbering(g, st.dfs, st.parents, st.num))
    && (st.dfs != [] && st.work != [] ==> st.open != [])
  }

  ghost predicate OpenOk(st: St) {
    && |st.pos| == |st.open|
    && (forall j :: 0 <= j < |st.pos| ==> st.pos[j] < |st.work| && st.open[j] < |st.dfs|)
    && (forall j :: 0 <= j < |st.pos| ==> st.work[st.pos[j]].1 == st.dfs[st.open[j]])
    && (forall i, j :: 0 <= i < j < |st.pos| ==> st.pos[i] < st.pos[j] && st.open[i] < st.open[j])
    && (st.pos != [] ==> st.pos[0] == 0)
  }

  // The open regions are exactly the tree path to the last one.
  ghost predicate ChainOk(st: St)
    requires OpenOk(st)
  {
    && |st.parents| == |st.dfs|
    && (st.dfs != [] ==> IsTree(st.parents))
    && forall i, j :: 0 <= i <= j < |st.open| ==> Anc(st.parents, st.open[i], st.open[j])
  }

  // The j-th open region is the nearest one below stack position k.
  ghost predicate Nearest(st: St, j: nat, k: nat) {
    && j < |st.pos| && st.pos[j] < k < |st.work|
    && (j < |st.pos| - 1 ==> k <= st.pos[j + 1])
  }

  // A stack entry was pushed by the nearest open region below it.
  ghost predicate OwnerOk(g: Cfg, st: St)
    requires OpenOk(st)
  {
    forall j: nat, k: nat :: Nearest(st, j, k) ==>
      st.work[k].0 == st.open[j] && g.Edge(st.dfs[st.open[j]], st.work[k].1)
  }

  // No open region is waiting above its own entry.
  ghost predicate FreshOk(st: St)
    requires OpenOk(st)
  {
    forall j, k :: 0 <= j < |st.pos| && st.pos[j] < k < |st.work| ==> st.work[k].1 != st.dfs[st.open[j]]
  }

  ghost predicate FinishedOk(g: Cfg, st: St) {
    && (forall i :: 0 <= i < |st.dfs| ==> (st.dfs[i] in st.rpo <==> i !in st.open))
    && (forall u :: u in st.rpo ==> u in st.num)
    && forall u, v :: u in st.rpo && g.Edge(u, v) ==> v in st.num
  }

  ghost predicate Waiting(st: St, from: nat, v: nat) {
    exists k :: from < k < |st.work| && st.work[k].1 == v
  }

  // Every successor of an open region is visited or waits above its entry.
  ghost predicate PendingOk(g: Cfg, st: St)
    requires OpenOk(st)
  {
    forall j, v :: 0 <= j < |st.pos| && g.Edge(st.dfs[st.open[j]], v) ==> v in st.num || Waiting(st, st.pos[j], v)
  }

  ghost predicate OrderOk(g: Cfg, st: St) {
    st.dfs != [] ==>
      && |st.parents| == |st.dfs| && IsTree(st.parents)
      && DepthFirst(g, st.dfs, st.parents)
      && PostOrder(g, st.parents, st.num, st.rpo)
  }

  ghost predicate Inv(g: Cfg, st: St) {
    && WorkOk(g, st) && OpenOk(st) && ChainOk(st) && OwnerOk(g, st) && FreshOk(st)
    && FinishedOk(g, st) && PendingOk(g, st) && OrderOk(g, st)
  }

  // ---------------------------------------------------------------- steps

  function Top(st: St): (nat, nat)
    requires st.work != []
  {
    st.work[|st.work| - 1]
  }

  // A visited region on top is popped and listed.
  function Pop(st: St): St
    requires st.work != []
  {
    st.(work := st.work[..|st.work| - 1], rpo := st.rpo + [Top(st).1])
  }

  function Close(st: St): St
    requires st.work != [] && st.open != [] && st.pos != []
  {
    Pop(st).(open := st.open[..|st.open| - 1], pos := st.pos[..|st.pos| - 1])
  }

  // What the loop does to its state; a finished state stays as it is.
  function Step(g: Cfg, st: St): St {
    if st.work == [] then st
    else if Top(st).1 in st.num then
      if st.open != [] && st.pos != [] && st.pos[|st.pos| - 1] == |st.work| - 1 then Close(st) else Pop(st)
    else if Top(st).1 < |g.succs| then Visit(g, st)
    else st
  }

  function Initial(g: Cfg): St {
    St([(0, g.start)], [], [], map[], [], [], [])
  }

  function Steps(g: Cfg, n: nat): St {
    if n == 0 then Initial(g) else Step(g, Steps(g, n - 1))
  }

  // The search stops, after n steps, with these lists.
  ghost predicate StopsWith(g: Cfg, n: nat, dfs: seq<nat>, parents: seq<nat>, num: map<nat, nat>, rpo: seq<nat>) {
    var st := Steps(g, n);
    st.work == [] && st.dfs == dfs && st.parents == parents && st.num == num && st.rpo == rpo
  }

  ghost predicate SearchYields(g: Cfg, dfs: seq<nat>, parents: seq<nat>, num: map<nat, nat>, rpo: seq<nat>) {
    exists n: nat :: StopsWith(g, n, dfs, parents, num, rpo)
  }

  lemma {:induction false} StoppedStays(g: Cfg, m: nat, n: nat)
    requires m <= n && Steps(g, m).work == []
    ensures Steps(g, n) == Steps(g, m)
    decreases n
  {
    if m < n {
      StoppedStays(g, m, n - 1);
    }
  }

  // The search has one outcome.
  lemma OneOutcome(g: Cfg, dfs: seq<nat>, parents: seq<nat>, num: map<nat, nat>, rpo: seq<nat>, dfs': seq<nat>,
          parents': seq<nat>, num': map<nat, nat>, rpo': seq<nat>)
    requires SearchYields(g, dfs, parents, num, rpo) && SearchYields(g, dfs', parents', num', rpo')
    ensures dfs' == dfs && parents' == parents && num' == num && rpo' == rpo
  {
    var m: nat :| StopsWith(g, m, dfs, parents, num, rpo);
    var n: nat :| StopsWith(g, n, dfs', parents', num', rpo');
    StoppedStays(g, if m < n then m else n, if m < n then n else m);
  }

  function Pushes(idx: nat, succs: seq<nat>, num: map<nat, nat>): seq<(nat, nat)> {
    if succs == [] then []
    else
      var n := |succs| - 1;
      Pushes(idx, succs[..n], num) + if succs[n] in num then [] else [(idx, succs[n])]
  }

  function Visit(g: Cfg, st: St): St
    requires st.work != [] && Top(st).1 < |g.succs|
  {
    var (p, v) := Top(st);
    var idx := |st.dfs|;
    var num := st.num[v := idx];
    St(st.work + Pushes(idx, g.succs[v], num), st.dfs + [v], st.parents + [p], num,
       st.rpo, st.open + [idx], st.pos + [|st.work| - 1])
  }

  lemma {:induction false} PushesAre(idx: nat, succs: seq<nat>, num: map<nat, nat>)
    ensures forall e :: e in Pushes(idx, succs, num) ==> e.0 == idx && e.1 in succs && e.1 !in num
    ensures forall s :: s in succs && s !in num ==> (idx, s) in Pushes(idx, succs, num)
  {
    if succs != [] {
      PushesAre(idx, succs[..|succs| - 1], num);
      assert succs == succs[..|succs| - 1] + [succs[|succs| - 1]];
    }
  }

  // ---------------------------------------------------------------- closing an open region

  ghost predicate CanClose(st: St) {
    && st.work != [] && st.open != [] && OpenOk(st)
    && st.pos[|st.pos| - 1] == |st.work| - 1
  }

  lemma CloseOpen(g: Cfg, st: St)
    requires CanClose(st)
    ensures OpenOk(Close(st))
  {
  }

  lemma CloseChain(st: St)
    requires CanClose(st) && ChainOk(st) && OpenOk(Close(st))
    ensures ChainOk(Close(st))
  {
  }

  lemma CloseOwner(g: Cfg, st: St)
    requires CanClose(st) && OpenOk(Close(st)) && OwnerOk(g, st)
    ensures OwnerOk(g, Close(st))
  {
    var st' := Close(st);
    forall j: nat, k: nat | Nearest(st', j, k)
      ensures st'.work[k].0 == st'.open[j] && g.Edge(st'.dfs[st'.open[j]], st'.work[k].1)
    {
      assert Nearest(st, j, k);
    }
  }

  lemma CloseFresh(st: St)
    requires CanClose(st) && OpenOk(Close(st)) && FreshOk(st)
    ensures FreshOk(Close(st))
  {
  }

  lemma CloseWork(g: Cfg, st: St)
    requires CanClose(st) && WorkOk(g, st)
    ensures WorkOk(g, Close(st))
  {
    if |st.open| == 1 {
      assert st.pos[0] == 0;
    }
  }

  lemma CloseFinished(g: Cfg, st: St)
    requires CanClose(st) && WorkOk(g, st) && FinishedOk(g, st) && PendingOk(g, st)
    ensures FinishedOk(g, Close(st))
  {
    var st' := Close(st);
    var n := |st.open| - 1;
    var u := Top(st).1;
    assert u == st.dfs[st.open[n]];
    forall i | 0 <= i < |st.dfs| ensures st.dfs[i] in st'.rpo <==> i !in st'.open {
      OpenInit(st, i);
      assert st.dfs[i] == u ==> i == st.open[n];
    }
    forall v | g.Edge(u, v) ensures v in st.num {
      assert !Waiting(st, st.pos[n], v);
    }
  }

  lemma OpenInit(st: St, i: nat)
    requires OpenOk(st) && st.open != []
    ensures i in st.open[..|st.open| - 1] <==> i in st.open && i != st.open[|st.open| - 1]
  {
    if i in st.open && i != st.open[|st.open| - 1] {
      var k :| 0 <= k < |st.open| && st.open[k] == i;
      assert st.open[..|st.open| - 1][k] == i;
    }
  }

  lemma ClosePending(g: Cfg, st: St)
    requires CanClose(st) && WorkOk(g, st) && PendingOk(g, st) && OpenOk(Close(st))
    ensures PendingOk(g, Close(st))
  {
    var st' := Close(st);
    forall j, v | 0 <= j < |st'.pos| && g.Edge(st'.dfs[st'.open[j]], v)
      ensures v in st'.num || Waiting(st', st'.pos[j], v)
    {
      if v !in st.num {
        assert Waiting(st, st.pos[j], v);
        var k :| st.pos[j] < k < |st.work| && st.work[k].1 == v;
        assert k < |st'.work| && st'.work[k].1 == v;
      }
    }
  }

  // When u closes, each successor has closed before or is still open, hence above u in the tree.
  lemma CloseOrder(g: Cfg, st: St)
    requires CanClose(st) && WorkOk(g, st) && FinishedOk(g, st) && PendingOk(g, st) && ChainOk(st) && OrderOk(g, st)
    ensures OrderOk(g, Close(st))
  {
    var st' := Close(st);
    var n := |st.open| - 1;
    var w := Top(st).1;
    forall u, v | u in st'.rpo && g.Edge(u, v) ensures u in st.num && Finishes(g, st.parents, st.num, st'.rpo, u, v) {
      if u in st.rpo {
        KeepsFinishing(g, st.parents, st.num, st.rpo, w, u, v);
      } else {
        assert u == st.dfs[st.open[n]];
        assert !Waiting(st, st.pos[n], v);
        FirstIndexAppend(st.rpo, w, u);
        if v in st.rpo {
          FirstIndexAppend(st.rpo, w, v);
        } else {
          assert st.num[v] in st.open;
          var k :| 0 <= k < |st.open| && st.open[k] == st.num[v];
          assert Anc(st.parents, st.open[k], st.open[n]);
        }
      }
    }
  }

  lemma KeepsFinishing(g: Cfg, parents: seq<nat>, num: map<nat, nat>, rpo: seq<nat>, w: nat, u: nat, v: nat)
    requires IsTree(parents) && u in rpo && u in num && num[u] < |parents| && Finishes(g, parents, num, rpo, u, v)
    ensures Finishes(g, parents, num, rpo + [w], u, v)
  {
    FirstIndexAppend(rpo, w, u);
    if v in rpo {
      FirstIndexAppend(rpo, w, v);
    }
  }

  lemma CloseKeepsInv(g: Cfg, st: St)
    requires Inv(g, st) && CanClose(st)
    ensures Inv(g, Close(st))
  {
    hide WorkOk, OpenOk, ChainOk, OwnerOk, FreshOk, FinishedOk, PendingOk, OrderOk;
    CloseOpen(g, st);
    CloseChain(st);
    CloseOwner(g, st);
    CloseFresh(st);
    CloseWork(g, st);
    CloseFinished(g, st);
    ClosePending(g, st);
    CloseOrder(g, st);
  }

  // ---------------------------------------------------------------- dropping a stale entry

  // The region on top is visited, but was entered through another entry.
  ghost predicate CanDrop(st: St) {
    && st.work != [] && OpenOk(st) && st.dfs != [] && Top(st).1 in st.num
    && (st.pos == [] || st.pos[|st.pos| - 1] < |st.work| - 1)
  }

  lemma StaleIsFinished(g: Cfg, st: St)
    requires CanDrop(st) && WorkOk(g, st) && FreshOk(st) && FinishedOk(g, st)
    ensures Top(st).1 in st.rpo
  {
    var w := Top(st).1;
    assert st.num[w] !in st.open by {
      assert forall j :: 0 <= j < |st.open| ==> st.open[j] != st.num[w];
    }
  }

  lemma DropOpen(g: Cfg, st: St)
    requires CanDrop(st)
    ensures OpenOk(Pop(st))
  {
  }

  lemma DropOwner(g: Cfg, st: St)
    requires CanDrop(st) && OpenOk(Pop(st)) && OwnerOk(g, st)
    ensures OwnerOk(g, Pop(st))
  {
    var st' := Pop(st);
    forall j: nat, k: nat | Nearest(st', j, k)
      ensures st'.work[k].0 == st'.open[j] && g.Edge(st'.dfs[st'.open[j]], st'.work[k].1)
    {
      assert Nearest(st, j, k);
    }
  }

  lemma DropFresh(st: St)
    requires CanDrop(st) && OpenOk(Pop(st)) && FreshOk(st)
    ensures FreshOk(Pop(st))
  {
  }

  lemma DropWork(g: Cfg, st: St)
    requires CanDrop(st) && WorkOk(g, st)
    ensures WorkOk(g, Pop(st))
  {
  }

  lemma DropFinished(g: Cfg, st: St)
    requires CanDrop(st) && FinishedOk(g, st) && Top(st).1 in st.rpo
    ensures FinishedOk(g, Pop(st))
  {
  }

  lemma DropPending(g: Cfg, st: St)
    requires CanDrop(st) && PendingOk(g, st) && OpenOk(Pop(st))
    ensures PendingOk(g, Pop(st))
  {
    var st' := Pop(st);
    forall j, v | 0 <= j < |st'.pos| && g.Edge(st'.dfs[st'.open[j]], v)
      ensures v in st'.num || Waiting(st', st'.pos[j], v)
    {
      if v !in st.num {
        assert Waiting(st, st.pos[j], v);
        var k :| st.pos[j] < k < |st.work| && st.work[k].1 == v;
        assert k < |st'.work| && st'.work[k].1 == v;
      }
    }
  }

  lemma DropOrder(g: Cfg, st: St)
    requires CanDrop(st) && OrderOk(g, st) && Top(st).1 in st.rpo
    ensures OrderOk(g, Pop(st))
  {
    var st' := Pop(st);
    forall u, v | u in st'.rpo && g.Edge(u, v) ensures u in st.num && Finishes(g, st.parents, st.num, st'.rpo, u, v) {
      assert u in st.rpo;
      KeepsFinishing(g, st.parents, st.num, st.rpo, Top(st).1, u, v);
    }
  }

  lemma DropKeepsInv(g: Cfg, st: St)
    requires Inv(g, st) && CanDrop(st)
    ensures Inv(g, Pop(st))
  {
    hide WorkOk, OpenOk, OwnerOk, FreshOk, FinishedOk, PendingOk, OrderOk;
    StaleIsFinished(g, st);
    DropOpen(g, st);
    DropOwner(g, st);
    DropFresh(st);
    DropWork(g, st);
    DropFinished(g, st);
    DropPending(g, st);
    DropOrder(g, st);
  }

  // ---------------------------------------------------------------- visiting a region

  ghost predicate CanVisit(g: Cfg, st: St) {
    && st.work != [] && OpenOk(st) && WorkOk(g, st) && Top(st).1 !in st.num
  }

  lemma VisitIsNew(g: Cfg, st: St)
    requires CanVisit(g, st) && g.WfSuccs()
    ensures st.pos == [] ==> st.dfs == [] && |st.work| == 1 && Top(st) == (0, g.start)
    ensures st.pos != [] ==> st.dfs != [] && st.pos[|st.pos| - 1] < |st.work| - 1
    ensures Top(st).1 < |g.succs| && Top(st).1 !in st.dfs
  {
    if st.dfs != [] {
      var n := |st.pos| - 1;
      var e := st.work[st.pos[n]];
      assert e.1 == st.dfs[st.open[n]];
    }
  }

  lemma VisitOpen(g: Cfg, st: St)
    requires CanVisit(g, st) && g.WfSuccs()
    ensures OpenOk(Visit(g, st))
  {
    hide Pushes, Numbering, WorkOk;
    VisitIsNew(g, st);
  }

  lemma VisitTree(g: Cfg, st: St)
    requires CanVisit(g, st) && g.WfSuccs() && OwnerOk(g, st)
    ensures Numbering(g, Visit(g, st).dfs, Visit(g, st).parents, Visit(g, st).num)
    ensures st.dfs != [] ==> Top(st).0 == st.open[|st.open| - 1] && Top(st).0 < |st.dfs|
  {
    hide Pushes, Numbering;
    VisitIsNew(g, st);
    var (p, v) := Top(st);
    if st.dfs != [] {
      var n := |st.pos| - 1;
      assert Nearest(st, n, |st.work| - 1);
      NumberOneMore(g, st.dfs, st.parents, st.num, p, v);
    } else {
      NumberFirst(g);
    }
  }

  lemma NumberFirst(g: Cfg)
    requires g.WfSuccs()
    ensures Numbering(g, [] + [g.start], [] + [0], map[][g.start := 0])
  {
  }

  lemma NumberOneMore(g: Cfg, dfs: seq<nat>, parents: seq<nat>, num: map<nat, nat>, p: nat, v: nat)
    requires Numbering(g, dfs, parents, num) && p < |dfs| && g.Edge(dfs[p], v) && v !in num
    ensures Numbering(g, dfs + [v], parents + [p], num[v := |dfs|])
  {
  }

  lemma VisitWork(g: Cfg, st: St)
    requires CanVisit(g, st) && g.WfSuccs() && OwnerOk(g, st)
    ensures WorkOk(g, Visit(g, st))
  {
    VisitIsNew(g, st);
    VisitTree(g, st);
    var (p, v) := Top(st);
    var num := st.num[v := |st.dfs|];
    var pushed := Pushes(|st.dfs|, g.succs[v], num);
    PushesAre(|st.dfs|, g.succs[v], num);
    forall k | 0 <= k < |pushed| ensures pushed[k].1 < |g.succs| {
      assert pushed[k] in pushed;
    }
    hide Pushes, Numbering;
  }

  lemma VisitChain(g: Cfg, st: St)
    requires CanVisit(g, st) && g.WfSuccs() && OwnerOk(g, st) && ChainOk(st) && OpenOk(Visit(g, st))
    ensures ChainOk(Visit(g, st))
  {
    VisitIsNew(g, st);
    VisitTree(g, st);
    hide Pushes, Numbering, WorkOk;
    var (p, v) := Top(st);
    var st' := Visit(g, st);
    forall i, j | 0 <= i <= j < |st'.open| ensures Anc(st'.parents, st'.open[i], st'.open[j]) {
      if i < |st.open| {
        AncExtend(st.parents, p, st.open[i], if j < |st.open| then st.open[j] else p);
        if j == |st.open| {
          assert Anc(st.parents, st.open[i], st.open[j - 1]);
        } else {
          assert Anc(st.parents, st.open[i], st.open[j]);
        }
      }
    }
  }

  // What lies above the entry just visited.
  lemma VisitAbove(g: Cfg, st: St, k: nat)
    requires CanVisit(g, st) && g.WfSuccs() && |st.work| <= k < |Visit(g, st).work|
    ensures var e := Visit(g, st).work[k];
      e.0 == |st.dfs| && g.Edge(Top(st).1, e.1) && e.1 !in st.num && e.1 != Top(st).1
  {
    VisitIsNew(g, st);
    var (p, v) := Top(st);
    var num := st.num[v := |st.dfs|];
    var pushed := Pushes(|st.dfs|, g.succs[v], num);
    PushesAre(|st.dfs|, g.succs[v], num);
    assert pushed[k - |st.work|] in pushed;
    hide Pushes;
  }

  lemma VisitOwner(g: Cfg, st: St)
    requires CanVisit(g, st) && g.WfSuccs() && OwnerOk(g, st) && OpenOk(Visit(g, st))
    ensures OwnerOk(g, Visit(g, st))
  {
    VisitIsNew(g, st);
    hide Pushes, Numbering, WorkOk;
    var st' := Visit(g, st);
    forall j: nat, k: nat | Nearest(st', j, k)
      ensures st'.work[k].0 == st'.open[j] && g.Edge(st'.dfs[st'.open[j]], st'.work[k].1)
    {
      if k >= |st.work| {
        VisitAbove(g, st, k);
      } else {
        assert Nearest(st, j, k);
      }
    }
  }

  lemma VisitFresh(g: Cfg, st: St)
    requires CanVisit(g, st) && g.WfSuccs() && FreshOk(st) && OpenOk(Visit(g, st))
    ensures FreshOk(Visit(g, st))
  {
    VisitIsNew(g, st);
    var st' := Visit(g, st);
    forall j, k | 0 <= j < |st'.pos| && st'.pos[j] < k < |st'.work|
      ensures st'.work[k].1 != st'.dfs[st'.open[j]]
    {
      if k >= |st.work| {
        VisitAbove(g, st, k);
      } else {
        assert st'.work[k] == st.work[k];
      }
    }
    hide Pushes;
  }

  lemma VisitFinished(g: Cfg, st: St)
    requires CanVisit(g, st) && g.WfSuccs() && FinishedOk(g, st)
    ensures FinishedOk(g, Visit(g, st))
  {
    VisitIsNew(g, st);
    hide Pushes, Numbering, OpenOk;
    var st' := Visit(g, st);
    assert st'.open[|st.open|] == |st.dfs|;
    forall i | 0 <= i < |st'.dfs| ensures st'.dfs[i] in st'.rpo <==> i !in st'.open {
      if i < |st.dfs| {
        assert st.dfs[i] in st.rpo <==> i !in st.open;
      }
    }
  }

  lemma VisitPending(g: Cfg, st: St)
    requires CanVisit(g, st) && g.WfSuccs() && PendingOk(g, st) && OpenOk(Visit(g, st))
    ensures PendingOk(g, Visit(g, st))
  {
    VisitIsNew(g, st);
    var (p, top) := Top(st);
    var num := st.num[top := |st.dfs|];
    var pushed := Pushes(|st.dfs|, g.succs[top], num);
    PushesAre(|st.dfs|, g.succs[top], num);
    hide Pushes, Numbering, WorkOk;
    var st' := Visit(g, st);
    forall j, v | 0 <= j < |st'.pos| && g.Edge(st'.dfs[st'.open[j]], v)
      ensures v in st'.num || Waiting(st', st'.pos[j], v)
    {
      if v !in st'.num {
        if j < |st.pos| {
          assert Waiting(st, st.pos[j], v);
          var k :| st.pos[j] < k < |st.work| && st.work[k].1 == v;
          assert st'.work[k] == st.work[k];
        } else {
          assert (|st.dfs|, v) in pushed;
          var k :| 0 <= k < |pushed| && pushed[k] == (|st.dfs|, v);
          assert st'.work[|st.work| + k] == pushed[k];
        }
      }
    }
  }

  // A visited region with an edge to the new one is still open, hence its ancestor.
  lemma VisitDepth(g: Cfg, st: St)
    requires CanVisit(g, st) && g.WfSuccs() && OwnerOk(g, st) && ChainOk(st) && FinishedOk(g, st) && OrderOk(g, st)
    requires st.dfs != []
    ensures var st' := Visit(g, st); IsTree(st'.parents) && DepthFirst(g, st'.dfs, st'.parents)
  {
    VisitIsNew(g, st);
    VisitTree(g, st);
    hide Pushes, Numbering, PostOrder, WorkOk;
    var st' := Visit(g, st);
    var (p, v) := Top(st);
    AncExtend(st.parents, p, 0, 0);
    forall i, j | 0 <= i < j < |st'.dfs| && g.Edge(st'.dfs[i], st'.dfs[j]) ensures Anc(st'.parents, i, j) {
      if j < |st.dfs| {
        AncExtend(st.parents, p, i, j);
      } else {
        assert st.dfs[i] !in st.rpo;
        var k :| 0 <= k < |st.open| && st.open[k] == i;
        assert Anc(st.parents, st.open[k], st.open[|st.open| - 1]);
        AncExtend(st.parents, p, i, p);
      }
    }
  }

  lemma VisitPostOrder(g: Cfg, st: St)
    requires CanVisit(g, st) && g.WfSuccs() && OwnerOk(g, st) && OrderOk(g, st) && FinishedOk(g, st)
    requires st.dfs != []
    ensures var st' := Visit(g, st); PostOrder(g, st'.parents, st'.num, st'.rpo)
  {
    VisitIsNew(g, st);
    VisitTree(g, st);
    hide Pushes, Numbering, WorkOk, DepthFirst;
    var st' := Visit(g, st);
    var (p, top) := Top(st);
    AncExtend(st.parents, p, 0, 0);
    forall u, v | u in st'.rpo && g.Edge(u, v) ensures Finishes(g, st'.parents, st'.num, st'.rpo, u, v) {
      assert Finishes(g, st.parents, st.num, st.rpo, u, v);
      AncExtend(st.parents, p, st.num[v], st.num[u]);
    }
  }

  lemma VisitKeepsInv(g: Cfg, st: St)
    requires Inv(g, st) && CanVisit(g, st) && g.WfSuccs()
    ensures Inv(g, Visit(g, st))
  {
    VisitIsNew(g, st);
    hide WorkOk, OpenOk, ChainOk, OwnerOk, FreshOk, FinishedOk, PendingOk, DepthFirst, PostOrder, Numbering, Pushes;
    VisitOpen(g, st);
    VisitTree(g, st);
    VisitWork(g, st);
    VisitChain(g, st);
    VisitOwner(g, st);
    VisitFresh(g, st);
    VisitFinished(g, st);
    VisitPending(g, st);
    VisitOrder(g, st);
  }

  lemma VisitOrder(g: Cfg, st: St)
    requires CanVisit(g, st) && g.WfSuccs() && OwnerOk(g, st) && ChainOk(st) && FinishedOk(g, st) && OrderOk(g, st)
    ensures OrderOk(g, Visit(g, st))
  {
    VisitTree(g, st);
    hide Pushes;
    if st.dfs != [] {
      hide FinishedOk, DepthFirst, PostOrder, ChainOk, OwnerOk;
      VisitDepth(g, st);
      VisitPostOrder(g, st);
    }
  }

  // ---------------------------------------------------------------- repeats in rpo

  // Equal successors stand side by side, as the two arms of a branch do.
  ghost predicate Grouped(xs: seq<nat>) {
    forall i, m, k :: 0 <= i < m < k < |xs| && xs[i] == xs[k] ==> xs[m] == xs[i]
  }

  ghost predicate GroupedSuccs(g: Cfg) {
    forall u :: 0 <= u < |g.succs| ==> Grouped(g.succs[u])
  }

  // Branches have two successors, other regions one or none, so this is how it always is.
  lemma TwoSuccsGrouped(g: Cfg)
    requires forall u :: 0 <= u < |g.succs| ==> |g.succs[u]| <= 2 || Distinct(g.succs[u])
    ensures GroupedSuccs(g)
  {
  }

  ghost predicate Again(rpo: seq<nat>, j: nat) {
    0 < j < |rpo| && rpo[j] in rpo[..j] && rpo[j] != rpo[j - 1]
  }

  // A region is listed again directly after itself, or after its tree parent has been listed.
  ghost predicate RepeatsFollowParents(dfs: seq<nat>, parents: seq<nat>, num: map<nat, nat>, rpo: seq<nat>) {
    forall j: nat :: Again(rpo, j) ==> ParentListed(dfs, parents, num, rpo[..j], rpo[j])
  }

  ghost predicate ParentListed(dfs: seq<nat>, parents: seq<nat>, num: map<nat, nat>, listed: seq<nat>, x: nat) {
    x in num && 0 < num[x] < |parents| && parents[num[x]] < |dfs| && dfs[parents[num[x]]] in listed
  }

  // Among the entries pushed by one open region, those for the same region stand together.
  ghost predicate SegmentsOk(st: St) {
    forall j: nat, i: nat, m: nat, k: nat :: i < m < k && Nearest(st, j, i) && Nearest(st, j, k) && SameRegion(st, i, k) ==>
      SameRegion(st, i, m)
  }

  ghost predicate SameRegion(st: St, i: nat, k: nat) {
    i < |st.work| && k < |st.work| && st.work[i].1 == st.work[k].1
  }

  // While the tree parent of a visited region is open, its own entry lies above every
  // other entry for the region, but for those pushed together with its own.
  ghost predicate StaleOk(st: St)
    requires |st.pos| == |st.open|
  {
    forall j: nat, k: nat :: Stale(st, k) && BornIn(st, j, k) && j < |st.pos| ==> k < st.pos[j] || Twin(st, j, k)
  }

  ghost predicate Stale(st: St, k: nat) {
    k < |st.work| && k !in st.pos && st.work[k].1 in st.num && st.num[st.work[k].1] < |st.parents|
  }

  // The tree parent of the region named by entry k is the j-th open one.
  ghost predicate BornIn(st: St, j: nat, k: nat) {
    && j < |st.open| && k < |st.work| && st.work[k].1 in st.num && st.num[st.work[k].1] < |st.parents|
    && st.parents[st.num[st.work[k].1]] == st.open[j]
  }

  // Up to the next open region, or to the top, everything from entry k on names the same
  // region, which in the latter case has just been listed.
  ghost predicate Twin(st: St, j: nat, k: nat) {
    && Nearest(st, j, k)
    && (forall i: nat :: k <= i && Nearest(st, j, i) ==> SameRegion(st, k, i))
    && (j + 1 == |st.pos| ==> JustListed(st.rpo, st.work[k].1))
  }

  ghost predicate JustListed(rpo: seq<nat>, v: nat) {
    rpo != [] && rpo[|rpo| - 1] == v
  }

  ghost predicate RootOpen(st: St) {
    st.open != [] ==> st.open[0] == 0
  }

  ghost predicate RepeatInv(st: St) {
    |st.pos| == |st.open| && RootOpen(st) && SegmentsOk(st) && StaleOk(st) && RepeatsFollowParents(st.dfs, st.parents, st.num, st.rpo)
  }

  lemma ListedLater(dfs: seq<nat>, parents: seq<nat>, num: map<nat, nat>, rpo: seq<nat>, x: nat)
    requires RepeatsFollowParents(dfs, parents, num, rpo)
    requires x in rpo ==> JustListed(rpo, x) || ParentListed(dfs, parents, num, rpo, x)
    ensures RepeatsFollowParents(dfs, parents, num, rpo + [x])
  {
    hide ParentListed;
    forall j: nat | Again(rpo + [x], j) ensures ParentListed(dfs, parents, num, (rpo + [x])[..j], (rpo + [x])[j]) {
      assert (rpo + [x])[..j] == rpo[..j];
      assert rpo[..|rpo|] == rpo;
      assert j < |rpo| ==> Again(rpo, j);
    }
  }

  lemma PopSegments(st: St, n: nat)
    requires st.work != [] && |st.pos| == |st.open| && (n == |st.pos| || (n + 1 == |st.pos| && st.pos[n] == |st.work| - 1))
    requires SegmentsOk(st)
    ensures SegmentsOk(Pop(st).(open := st.open[..n], pos := st.pos[..n]))
  {
    var st' := Pop(st).(open := st.open[..n], pos := st.pos[..n]);
    forall j: nat, k: nat | Nearest(st', j, k) ensures Nearest(st, j, k) {
    }
    forall j: nat, i: nat, m: nat, k: nat | i < m < k && Nearest(st', j, i) && Nearest(st', j, k) && SameRegion(st', i, k)
      ensures SameRegion(st', i, m)
    {
      assert SameRegion(st, i, k);
      assert SameRegion(st, i, m);
    }
  }

  lemma PopStale(st: St, n: nat)
    requires st.work != [] && |st.pos| == |st.open| && (n == |st.pos| || (n + 1 == |st.pos| && st.pos[n] == |st.work| - 1))
    requires StaleOk(st) && OpenOk(st)
    ensures StaleOk(Pop(st).(open := st.open[..n], pos := st.pos[..n]))
  {
    hide StaleOk, Twin, Stale, BornIn, Nearest;
    var st' := Pop(st).(open := st.open[..n], pos := st.pos[..n]);
    forall j: nat, k: nat | Stale(st', k) && BornIn(st', j, k) && j < |st'.pos| ensures k < st'.pos[j] || Twin(st', j, k) {
      PopStaleAt(st, n, j, k);
    }
    StaleOkIf(st');
  }

  lemma StaleOkIf(st: St)
    requires |st.pos| == |st.open|
    requires forall j: nat, k: nat :: Stale(st, k) && BornIn(st, j, k) && j < |st.pos| ==> k < st.pos[j] || Twin(st, j, k)
    ensures StaleOk(st)
  {
  }

  lemma PopStaleAt(st: St, n: nat, j: nat, k: nat)
    requires st.work != [] && |st.pos| == |st.open| && (n == |st.pos| || (n + 1 == |st.pos| && st.pos[n] == |st.work| - 1))
    requires StaleOk(st) && OpenOk(st)
    requires var st' := Pop(st).(open := st.open[..n], pos := st.pos[..n]); Stale(st', k) && BornIn(st', j, k) && j < n
    ensures var st' := Pop(st).(open := st.open[..n], pos := st.pos[..n]); k < st'.pos[j] || Twin(st', j, k)
  {
    StaleBefore(st, n, k);
    assert BornIn(st, j, k);
    hide Stale, BornIn, Twin, OpenOk;
    if k >= st.pos[j] {
      assert Twin(st, j, k);
      PopTwin(st, n, j, k);
    }
  }

  lemma StaleBefore(st: St, n: nat, k: nat)
    requires st.work != [] && |st.pos| == |st.open| && (n == |st.pos| || (n + 1 == |st.pos| && st.pos[n] == |st.work| - 1))
    requires Stale(Pop(st).(open := st.open[..n], pos := st.pos[..n]), k)
    ensures Stale(st, k)
  {
    var st' := Pop(st).(open := st.open[..n], pos := st.pos[..n]);
    assert forall i :: 0 <= i < n ==> st'.pos[i] in st'.pos && st'.pos[i] == st.pos[i];
  }

  lemma PopTwin(st: St, n: nat, j: nat, k: nat)
    requires st.work != [] && |st.pos| == |st.open| && (n == |st.pos| || (n + 1 == |st.pos| && st.pos[n] == |st.work| - 1))
    requires OpenOk(st) && j < n && k < |st.work| - 1 && Twin(st, j, k)
    ensures Twin(Pop(st).(open := st.open[..n], pos := st.pos[..n]), j, k)
  {
    var st' := Pop(st).(open := st.open[..n], pos := st.pos[..n]);
    var top: nat := |st.work| - 1;
    forall i: nat | k <= i && Nearest(st', j, i) ensures SameRegion(st', k, i) {
      assert Nearest(st, j, i);
      assert SameRegion(st, k, i);
    }
    if j + 1 == n {
      assert Nearest(st, j, top);
      assert SameRegion(st, k, top);
    }
  }

  lemma OpenNotListed(g: Cfg, st: St)
    requires CanClose(st) && FinishedOk(g, st)
    ensures Top(st).1 !in st.rpo
  {
    var i := st.open[|st.open| - 1];
    assert i in st.open && Top(st).1 == st.dfs[i];
  }

  lemma CloseRepeats(g: Cfg, st: St)
    requires Inv(g, st) && CanClose(st) && RepeatInv(st)
    ensures RepeatInv(Close(st))
  {
    hide WorkOk, FinishedOk, PendingOk, FreshOk, OwnerOk, OrderOk, ChainOk, SegmentsOk, StaleOk, RepeatsFollowParents, OpenOk;
    PopSegments(st, |st.pos| - 1);
    PopStale(st, |st.pos| - 1);
    OpenNotListed(g, st);
    ListedLater(st.dfs, st.parents, st.num, st.rpo, Top(st).1);
  }

  // A region whose stale entry is on top has just been listed, or its parent is closed
  // and listed.
  lemma StaleParentListed(g: Cfg, st: St)
    requires CanDrop(st) && WorkOk(g, st) && FinishedOk(g, st) && StaleOk(st) && RootOpen(st)
    ensures JustListed(st.rpo, Top(st).1) || ParentListed(st.dfs, st.parents, st.num, st.rpo, Top(st).1)
  {
    hide WorkOk, FinishedOk, StaleOk, RootOpen, OpenOk;
    RootStaysOpen(g, st);
    ParentsBelow(g, st, Top(st).1);
    var p := st.parents[st.num[Top(st).1]];
    StaleParentClosed(st);
    if !JustListed(st.rpo, Top(st).1) {
      ClosedIsListed(g, st, p);
    }
  }

  lemma RootStaysOpen(g: Cfg, st: St)
    requires CanDrop(st) && WorkOk(g, st) && RootOpen(st)
    ensures 0 in st.open && st.parents != [] && st.parents[0] == 0
  {
    assert st.open[0] == 0;
  }

  lemma StaleParentClosed(st: St)
    requires CanDrop(st) && StaleOk(st) && st.num[Top(st).1] < |st.parents|
    ensures JustListed(st.rpo, Top(st).1) || st.parents[st.num[Top(st).1]] !in st.open
  {
    var k: nat := |st.work| - 1;
    assert k !in st.pos;
    assert Stale(st, k);
    if !JustListed(st.rpo, Top(st).1) {
      forall j: nat | j < |st.open| ensures st.open[j] != st.parents[st.num[Top(st).1]] {
        assert st.pos[j] < |st.work| - 1;
        assert BornIn(st, j, k) ==> Twin(st, j, k);
        assert j + 1 < |st.pos| ==> st.pos[j + 1] < k;
      }
    }
  }

  lemma ClosedIsListed(g: Cfg, st: St, i: nat)
    requires FinishedOk(g, st) && i < |st.dfs| && i !in st.open
    ensures st.dfs[i] in st.rpo
  {
  }

  lemma DropRepeats(g: Cfg, st: St)
    requires Inv(g, st) && CanDrop(st) && RepeatInv(st)
    ensures RepeatInv(Pop(st))
  {
    hide WorkOk, FinishedOk, PendingOk, FreshOk, OwnerOk, OrderOk, ChainOk, SegmentsOk, StaleOk, RepeatsFollowParents, ParentListed;
    StaleParentListed(g, st);
    ListedLater(st.dfs, st.parents, st.num, st.rpo, Top(st).1);
    PopSegments(st, |st.pos|);
    PopStale(st, |st.pos|);
    assert Pop(st) == Pop(st).(open := st.open[..|st.pos|], pos := st.pos[..|st.pos|]);
  }

  ghost predicate GroupedEntries(ps: seq<(nat, nat)>) {
    forall i, m, k :: 0 <= i < m < k < |ps| && ps[i].1 == ps[k].1 ==> ps[m].1 == ps[i].1
  }

  lemma {:induction false} PushesGrouped(idx: nat, succs: seq<nat>, num: map<nat, nat>)
    requires Grouped(succs)
    ensures GroupedEntries(Pushes(idx, succs, num))
  {
    if succs != [] {
      var n := |succs| - 1;
      PushesGrouped(idx, succs[..n], num);
      if succs[n] !in num {
        var ps := Pushes(idx, succs[..n], num);
        forall i, m | 0 <= i < m < |ps| && ps[i].1 == succs[n] ensures ps[m].1 == succs[n] {
          PushesInOrder(idx, succs[..n], num, i, m);
        }
      }
    }
  }

  // Entries are pushed in the order of the successors.
  lemma {:induction false} PushesInOrder(idx: nat, succs: seq<nat>, num: map<nat, nat>, i: nat, m: nat)
    requires i < m < |Pushes(idx, succs, num)|
    ensures exists a, b :: 0 <= a < b < |succs| && Pushes(idx, succs, num)[i].1 == succs[a] && Pushes(idx, succs, num)[m].1 == succs[b]
  {
    var n := |succs| - 1;
    var ps := Pushes(idx, succs[..n], num);
    if m < |ps| {
      PushesInOrder(idx, succs[..n], num, i, m);
      var a, b :| 0 <= a < b < n && ps[i].1 == succs[..n][a] && ps[m].1 == succs[..n][b];
      assert succs[a] == succs[..n][a] && succs[b] == succs[..n][b];
    } else {
      PushesAre(idx, succs[..n], num);
      assert ps[i] in ps;
      var a :| 0 <= a < n && succs[..n][a] == ps[i].1;
      assert succs[a] == ps[i].1 && succs[n] == Pushes(idx, succs, num)[m].1;
    }
  }

  lemma VisitSegments(g: Cfg, st: St)
    requires CanVisit(g, st) && g.WfSuccs() && GroupedSuccs(g) && SegmentsOk(st)
    ensures SegmentsOk(Visit(g, st))
  {
    VisitIsNew(g, st);
    hide Pushes, Numbering, WorkOk, GroupedSuccs;
    var st' := Visit(g, st);
    forall j: nat, i: nat, m: nat, k: nat | i < m < k && Nearest(st', j, i) && Nearest(st', j, k) && SameRegion(st', i, k)
      ensures SameRegion(st', i, m)
    {
      if j < |st.pos| {
        assert Nearest(st, j, i) && Nearest(st, j, k) && SameRegion(st, i, k);
        assert SameRegion(st, i, m);
      } else {
        NewSegment(g, st, i, m, k);
      }
    }
  }

  lemma NewSegment(g: Cfg, st: St, i: nat, m: nat, k: nat)
    requires CanVisit(g, st) && g.WfSuccs() && GroupedSuccs(g) && |st.work| <= i < m < k && SameRegion(Visit(g, st), i, k)
    ensures SameRegion(Visit(g, st), i, m)
  {
    VisitIsNew(g, st);
    var v, w := Top(st).1, |st.work|;
    var num := st.num[v := |st.dfs|];
    assert Grouped(g.succs[v]);
    PushesGrouped(|st.dfs|, g.succs[v], num);
    var ps := Pushes(|st.dfs|, g.succs[v], num);
    hide Pushes;
    var work' := Visit(g, st).work;
    assert work' == st.work + ps;
    assert work'[i] == ps[i - w] && work'[m] == ps[m - w] && work'[k] == ps[k - w];
    assert ps[i - w].1 == ps[k - w].1;
    assert ps[m - w].1 == ps[i - w].1;
    assert m < |work'|;
  }

  // An entry that is stale after the visit was stale before, or names the region visited.
  lemma VisitMakesStale(g: Cfg, st: St, k: nat)
    requires CanVisit(g, st) && g.WfSuccs() && Stale(Visit(g, st), k)
    ensures k < |st.work| - 1 && k !in st.pos
    ensures Visit(g, st).work[k].1 == st.work[k].1 && (st.work[k].1 != Top(st).1 ==> st.work[k].1 in st.num)
  {
    VisitIsNew(g, st);
    var v := Top(st).1;
    var num := st.num[v := |st.dfs|];
    PushesAre(|st.dfs|, g.succs[v], num);
    var pushed := Pushes(|st.dfs|, g.succs[v], num);
    assert forall i :: 0 <= i < |pushed| ==> pushed[i] in pushed && pushed[i].1 !in num;
    hide Pushes, WorkOk, OpenOk;
    var st' := Visit(g, st);
    assert st'.pos[|st.pos|] == |st.work| - 1;
    assert forall i :: 0 <= i < |st.pos| ==> st'.pos[i] == st.pos[i];
  }

  lemma VisitStale(g: Cfg, st: St)
    requires CanVisit(g, st) && g.WfSuccs() && OwnerOk(g, st) && SegmentsOk(st) && StaleOk(st)
    ensures StaleOk(Visit(g, st))
  {
    hide Pushes, SegmentsOk, OwnerOk, StaleOk, Stale, Numbering, Twin, BornIn;
    VisitIsNew(g, st);
    var st' := Visit(g, st);
    forall j: nat, k: nat | Stale(st', k) && BornIn(st', j, k) && j < |st'.pos| ensures k < st'.pos[j] || Twin(st', j, k) {
      VisitStaleAt(g, st, j, k);
    }
    StaleOkIf(st');
  }

  lemma VisitStaleAt(g: Cfg, st: St, j: nat, k: nat)
    requires CanVisit(g, st) && g.WfSuccs() && OwnerOk(g, st) && SegmentsOk(st) && StaleOk(st)
    requires j < |Visit(g, st).pos| && Stale(Visit(g, st), k) && BornIn(Visit(g, st), j, k)
    ensures k < Visit(g, st).pos[j] || Twin(Visit(g, st), j, k)
  {
    hide Pushes, SegmentsOk, OwnerOk, Numbering, StaleOk, Twin, Stale;
    VisitIsNew(g, st);
    VisitTree(g, st);
    VisitMakesStale(g, st, k);
    var st' := Visit(g, st);
    if st.work[k].1 == Top(st).1 {
      VisitOpen(g, st);
      SameLength(g, st);
      var n := |st.pos| - 1;
      assert st'.open[n] == st.open[n] == Top(st).0 && st'.open[|st.pos|] == |st.dfs|;
      assert st'.num[st'.work[k].1] == |st.dfs| && st'.parents[|st.dfs|] == Top(st).0;
      assert st'.open[j] == st'.open[n];
      assert j == n;
      if st.pos[n] < k {
        TwinOfTop(g, st, k);
      } else {
        assert st.pos[n] in st.pos;
      }
    } else {
      ParentsBelow(g, st, st.work[k].1);
      VisitKeepsTwin(g, st, j, k);
    }
  }

  lemma VisitKeepsTwin(g: Cfg, st: St, j: nat, k: nat)
    requires CanVisit(g, st) && g.WfSuccs() && StaleOk(st) && |st.parents| == |st.dfs|
    requires k < |st.work| - 1 && k !in st.pos && st.work[k].1 in st.num && st.num[st.work[k].1] < |st.parents|
    requires j < |Visit(g, st).pos| && BornIn(Visit(g, st), j, k) && st.parents[st.num[st.work[k].1]] < |st.dfs|
    requires st.work[k].1 != Top(st).1
    ensures k < Visit(g, st).pos[j] || Twin(Visit(g, st), j, k)
  {
    VisitIsNew(g, st);
    hide Pushes, Numbering, WorkOk;
    var st' := Visit(g, st);
    assert j < |st.pos| by {
      assert st'.open[|st.pos|] == |st.dfs|;
    }
    assert Stale(st, k) && BornIn(st, j, k);
    if k >= st.pos[j] {
      assert Twin(st, j, k);
      hide StaleOk, Stale, BornIn;
      var top: nat := |st.work| - 1;
      if j + 1 == |st.pos| {
        assert Nearest(st, j, top);
        assert SameRegion(st, k, top);
      }
      forall i: nat | k <= i && Nearest(st', j, i) ensures SameRegion(st', k, i) {
        assert Nearest(st, j, i);
        assert SameRegion(st, k, i);
      }
    }
  }

  // Entries pushed together with the one on top, for the same region.
  lemma TwinOfTop(g: Cfg, st: St, k: nat)
    requires CanVisit(g, st) && g.WfSuccs() && SegmentsOk(st) && st.pos != []
    requires st.pos[|st.pos| - 1] < k < |st.work| - 1 && st.work[k].1 == Top(st).1
    ensures Twin(Visit(g, st), |st.pos| - 1, k)
  {
    VisitIsNew(g, st);
    hide Pushes, Numbering, WorkOk;
    var st' := Visit(g, st);
    var n: nat, top: nat := |st.pos| - 1, |st.work| - 1;
    assert Nearest(st, n, k) && Nearest(st, n, top) && SameRegion(st, k, top);
    assert st'.pos[n + 1] == top;
    forall i: nat | k <= i && Nearest(st', n, i) ensures SameRegion(st', k, i) {
      assert SameRegion(st, k, i);
    }
  }

  lemma SameLength(g: Cfg, st: St)
    requires WorkOk(g, st)
    ensures |st.parents| == |st.dfs|
  {
  }

  lemma ParentsBelow(g: Cfg, st: St, x: nat)
    requires WorkOk(g, st) && x in st.num && st.dfs != []
    ensures st.num[x] < |st.parents| == |st.dfs| && st.parents[st.num[x]] < |st.dfs|
  {
  }

  lemma VisitRepeats(g: Cfg, st: St)
    requires Inv(g, st) && CanVisit(g, st) && g.WfSuccs() && GroupedSuccs(g) && RepeatInv(st)
    ensures RepeatInv(Visit(g, st))
  {
    hide WorkOk, OpenOk, ChainOk, OwnerOk, FreshOk, FinishedOk, PendingOk, OrderOk, SegmentsOk, StaleOk, Pushes, GroupedSuccs;
    VisitIsNew(g, st);
    VisitSegments(g, st);
    VisitStale(g, st);
    VisitListed(g, st);
  }

  lemma VisitListed(g: Cfg, st: St)
    requires CanVisit(g, st) && RepeatsFollowParents(st.dfs, st.parents, st.num, st.rpo) && g.WfSuccs()
    ensures var st' := Visit(g, st); RepeatsFollowParents(st'.dfs, st'.parents, st'.num, st'.rpo)
  {
    VisitIsNew(g, st);
    hide Pushes, Numbering, WorkOk, OpenOk;
    var st' := Visit(g, st);
    forall j: nat | Again(st'.rpo, j) ensures ParentListed(st'.dfs, st'.parents, st'.num, st'.rpo[..j], st'.rpo[j]) {
      assert ParentListed(st.dfs, st.parents, st.num, st.rpo[..j], st.rpo[j]);
    }
  }

  // ---------------------------------------------------------------- pre-order

  // Everything numbered since an open region was entered lies below it.
  ghost predicate SpanOk(st: St) {
    && |st.parents| == |st.dfs| && (st.dfs != [] ==> IsTree(st.parents) && PreOrder(st.parents))
    && forall j, v: nat :: 0 <= j < |st.open| && st.open[j] <= v < |st.dfs| ==> Anc(st.parents, st.open[j], v)
  }

  lemma CloseSpan(st: St)
    requires CanClose(st) && SpanOk(st)
    ensures SpanOk(Close(st))
  {
  }

  lemma VisitSpan(g: Cfg, st: St)
    requires CanVisit(g, st) && g.WfSuccs() && OwnerOk(g, st) && ChainOk(st) && SpanOk(st)
    ensures SpanOk(Visit(g, st))
  {
    VisitIsNew(g, st);
    VisitTree(g, st);
    hide Pushes, Numbering, WorkOk, OwnerOk;
    var st' := Visit(g, st);
    var p := Top(st).0;
    if st.dfs != [] {
      var n := |st.dfs|;
      forall v: nat | p <= v <= n ensures Anc(st'.parents, p, v) {
        ExtendSpan(st.parents, p, p, v);
      }
      forall v: nat, w: nat | w < n && st.parents[w] <= v <= w ensures Anc(st'.parents, st.parents[w], v) {
        AncExtend(st.parents, p, st.parents[w], v);
      }
      forall j, v: nat | 0 <= j < |st.open| && st.open[j] <= v <= n ensures Anc(st'.parents, st.open[j], v) {
        assert Anc(st.parents, st.open[j], st.open[|st.open| - 1]);
        ExtendSpan(st.parents, p, st.open[j], v);
      }
    }
  }

  // A new vertex below p lies below whatever p lies below.
  lemma ExtendSpan(t: seq<nat>, p: nat, a: nat, v: nat)
    requires IsTree(t) && p < |t| && v <= |t| && Anc(t, a, p) && (v < |t| ==> Anc(t, a, v))
    ensures IsTree(t + [p]) && Anc(t + [p], a, v)
  {
    AncExtend(t, p, a, if v < |t| then v else p);
  }

  // In pre-order, what lies between a vertex and something below it lies below it too.
  lemma {:induction false} AncSpan(parents: seq<nat>, c: nat, v: nat, w: nat)
    requires IsTree(parents) && PreOrder(parents) && c <= v <= w < |parents| && Anc(parents, c, w)
    ensures Anc(parents, c, v)
    decreases w
  {
    if c != w {
      var p := parents[w];
      AncLeq(parents, c, p);
      if p <= v {
        AncTrans(parents, c, p, v);
      } else {
        AncSpan(parents, c, v, p);
      }
    }
  }

  // What lies below a region in the tree is listed before it.
  lemma {:induction false} DescendantsFirst(g: Cfg, dfs: seq<nat>, parents: seq<nat>, num: map<nat, nat>,
          rpo: seq<nat>, i: nat, j: nat)
    requires Numbering(g, dfs, parents, num) && PostOrder(g, parents, num, rpo)
    requires forall v :: v in num ==> v in rpo
    requires j < |dfs| && Anc(parents, i, j) && i != j
    ensures i < |dfs| && FirstIndex(rpo, dfs[j]) < FirstIndex(rpo, dfs[i])
    decreases j
  {
    AncLeq(parents, i, j);
    var p := parents[j];
    assert g.Edge(dfs[p], dfs[j]);
    assert Finishes(g, parents, num, rpo, dfs[p], dfs[j]);
    assert !Anc(parents, j, p) by {
      if Anc(parents, j, p) {
        AncLeq(parents, j, p);
      }
    }
    if i != p {
      DescendantsFirst(g, dfs, parents, num, rpo, i, p);
    }
  }

  // ---------------------------------------------------------------- the run

  lemma InitialInv(g: Cfg)
    requires g.WfSuccs()
    ensures Inv(g, Initial(g))
  {
  }

  lemma WhichStep(g: Cfg, st: St)
    requires Inv(g, st) && st.work != []
    ensures Top(st).1 !in st.num ==> CanVisit(g, st)
    ensures Top(st).1 in st.num ==> if st.pos != [] && st.pos[|st.pos| - 1] == |st.work| - 1 then CanClose(st) else CanDrop(st)
  {
  }

  // The regions in rpo, once nothing is open, are exactly the reachable ones.
  lemma AllFinished(g: Cfg, st: St)
    requires g.WfSuccs() && Inv(g, st) && st.work == []
    ensures st.dfs != [] && Numbering(g, st.dfs, st.parents, st.num)
    ensures forall v :: v in st.rpo <==> v in st.num
    ensures forall v :: v in st.num <==> Reachable(g, v)
  {
    assert st.dfs != [] && st.open == [];
    forall v ensures v in st.rpo <==> v in st.num {
      if v in st.num {
        assert st.dfs[st.num[v]] in st.rpo;
      }
    }
    forall v ensures v in st.num <==> Reachable(g, v) {
      if v in st.num {
        TreePath(g, st.dfs, st.parents, st.num, st.num[v]);
      }
      if p :| PathBetween(g, p, g.start, v) {
        ClosedHoldsPath(g, st.num.Keys, p);
      }
    }
  }

  lemma {:induction false} TreePath(g: Cfg, dfs: seq<nat>, parents: seq<nat>, num: map<nat, nat>, i: nat)
    requires g.WfSuccs() && Numbering(g, dfs, parents, num) && i < |dfs|
    ensures Reachable(g, dfs[i])
    decreases i
  {
    if i == 0 {
      StartReachable(g);
    } else {
      TreePath(g, dfs, parents, num, parents[i]);
      ReachableStep(g, dfs[parents[i]], dfs[i]);
    }
  }

  ghost predicate Sane(g: Cfg, st: St) {
    Inv(g, st) && SpanOk(st) && (GroupedSuccs(g) ==> RepeatInv(st))
  }

  lemma CloseSane(g: Cfg, st: St)
    requires Sane(g, st) && CanClose(st)
    ensures Sane(g, Close(st))
  {
    hide Inv, SpanOk, RepeatInv, GroupedSuccs, CanClose;
    CloseKeepsInv(g, st);
    CloseSpan(st);
    if GroupedSuccs(g) {
      CloseRepeats(g, st);
    }
  }

  lemma DropSane(g: Cfg, st: St)
    requires Sane(g, st) && CanDrop(st)
    ensures Sane(g, Pop(st))
  {
    hide Inv, RepeatInv, GroupedSuccs;
    DropKeepsInv(g, st);
    if GroupedSuccs(g) {
      DropRepeats(g, st);
    }
  }

  lemma VisitSane(g: Cfg, st: St)
    requires Sane(g, st) && CanVisit(g, st) && g.WfSuccs()
    ensures Sane(g, Visit(g, st))
  {
    hide SpanOk, RepeatInv, GroupedSuccs, CanVisit, WorkOk, OpenOk, ChainOk, OwnerOk, FreshOk, FinishedOk, PendingOk, OrderOk,
      Pushes;
    VisitKeepsInv(g, st);
    VisitSpan(g, st);
    if GroupedSuccs(g) {
      VisitRepeats(g, st);
    }
  }

  // Every state the search comes to is sane.
  lemma {:induction false} StepsSane(g: Cfg, n: nat)
    requires g.WfSuccs()
    ensures Sane(g, Steps(g, n))
  {
    hide Sane, Inv, Visit, Pushes;
    if n == 0 {
      InitialSane(g);
    } else {
      StepsSane(g, n - 1);
      StepSane(g, Steps(g, n - 1));
    }
  }

  lemma InitialSane(g: Cfg)
    requires g.WfSuccs()
    ensures Sane(g, Initial(g))
  {
    InitialInv(g);
    InitialRepeats(g);
    hide Inv, RepeatInv;
  }

  lemma StepSane(g: Cfg, st: St)
    requires g.WfSuccs() && Sane(g, st)
    ensures Sane(g, Step(g, st))
  {
    hide Inv, SpanOk, RepeatInv, GroupedSuccs, Visit;
    if st.work != [] {
      WhichStep(g, st);
      RoomLeft(g, st);
      if Top(st).1 !in st.num {
        VisitSane(g, st);
      } else if CanClose(st) {
        CloseSane(g, st);
      } else {
        DropSane(g, st);
      }
    }
  }

  // What the search yields.
  lemma SearchIs(g: Cfg, dfs: seq<nat>, parents: seq<nat>, num: map<nat, nat>, rpo: seq<nat>)
    requires g.WfSuccs() && SearchYields(g, dfs, parents, num, rpo)
    ensures Numbering(g, dfs, parents, num)
    ensures forall v :: v in num <==> Reachable(g, v)
    ensures DepthFirst(g, dfs, parents) && PreOrder(parents)
    ensures forall v :: v in rpo <==> v in num
    ensures PostOrder(g, parents, num, rpo)
    ensures GroupedSuccs(g) ==> RepeatsFollowParents(dfs, parents, num, rpo)
  {
    hide Inv, RepeatInv, GroupedSuccs, Numbering, DepthFirst, PostOrder, Steps, PreOrder;
    var n: nat :| StopsWith(g, n, dfs, parents, num, rpo);
    StepsSane(g, n);
    AllFinished(g, Steps(g, n));
    InvOrder(g, Steps(g, n));
    RepeatsEnd(g, Steps(g, n));
  }

  // rpo is the raw list: it ends with the start region and may repeat regions.
  method Dfs(g: Cfg) returns (dfs: seq<nat>, parents: seq<nat>, num: map<nat, nat>, rpo: seq<nat>)
    requires g.WfSuccs()
    ensures Numbering(g, dfs, parents, num)
    ensures forall v :: v in num <==> Reachable(g, v)
    ensures DepthFirst(g, dfs, parents) && PreOrder(parents)
    ensures forall v :: v in rpo <==> v in num
    ensures PostOrder(g, parents, num, rpo)
    ensures GroupedSuccs(g) ==> RepeatsFollowParents(dfs, parents, num, rpo)
    ensures SearchYields(g, dfs, parents, num, rpo)
  {
    hide Inv, Step, Steps, Numbering, DepthFirst, PostOrder, PreOrder, Pushes, GroupedSuccs, RepeatInv, SpanOk;
    var workList: seq<(nat, nat)> := [(0, g.start)];
    dfs, parents, num, rpo := [], [], map[], [];
    ghost var st := Initial(g);
    ghost var n: nat := 0;
    FirstStep(g);
    while workList != []
      invariant st == Steps(g, n)
      invariant st.work == workList && st.dfs == dfs && st.parents == parents && st.num == num && st.rpo == rpo
      decreases |g.succs| - |dfs|, |workList|
    {
      StepsSane(g, n);
      WhichStep(g, st);
      RoomLeft(g, st);
      NextStep(g, st, n);
      n := n + 1;
      var (first, v) := workList[|workList| - 1];
      if v in num {
        st := if CanClose(st) then Close(st) else Pop(st);
        workList := workList[..|workList| - 1];
        rpo := rpo + [v];
      } else {
        st := Visit(g, st);
        var idx := |dfs|;
        dfs := dfs + [v];
        parents := parents + [first];
        num := num[v := idx];
        workList := PushSuccessors(g, v, idx, num, workList);
      }
    }
    assert StopsWith(g, n, dfs, parents, num, rpo);
    SearchIs(g, dfs, parents, num, rpo);
  }

  lemma FirstStep(g: Cfg)
    ensures Steps(g, 0) == Initial(g)
  {
  }

  lemma NextStep(g: Cfg, st: St, n: nat)
    requires st == Steps(g, n) && st.work != [] && Top(st).1 < |g.succs|
    requires Top(st).1 in st.num ==> CanClose(st) || CanDrop(st)
    ensures Steps(g, n + 1) == if Top(st).1 !in st.num then Visit(g, st) else if CanClose(st) then Close(st) else Pop(st)
  {
  }

  lemma InitialRepeats(g: Cfg)
    ensures RepeatInv(Initial(g))
  {
  }

  lemma RepeatsEnd(g: Cfg, st: St)
    requires GroupedSuccs(g) ==> RepeatInv(st)
    ensures GroupedSuccs(g) ==> RepeatsFollowParents(st.dfs, st.parents, st.num, st.rpo)
  {
  }

  lemma InvOrder(g: Cfg, st: St)
    requires Inv(g, st) && st.dfs != []
    ensures |st.parents| == |st.dfs| && IsTree(st.parents)
    ensures DepthFirst(g, st.dfs, st.parents) && PostOrder(g, st.parents, st.num, st.rpo)
  {
  }

  // Regions are numbered at most once, so at most |g.succs| visits happen.
  lemma RoomLeft(g: Cfg, st: St)
    requires Inv(g, st) && st.work != []
    ensures Top(st).1 < |g.succs|
    ensures |st.dfs| + (if Top(st).1 in st.num then 0 else 1) <= |g.succs|
  {
    var xs := if Top(st).1 in st.num then st.dfs else st.dfs + [Top(st).1];
    assert Distinct(xs) && Below(xs, |g.succs|);
    DistinctBelow(xs, |g.succs|);
  }

  method PushSuccessors(g: Cfg, v: nat, idx: nat, num: map<nat, nat>, workList: seq<(nat, nat)>)
    returns (workList': seq<(nat, nat)>)
    requires v < |g.succs|
    ensures workList' == workList + Pushes(idx, g.succs[v], num)
  {
    workList' := workList;
    var succs := g.succs[v];
    for i := 0 to |succs|
      invariant workList' == workList + Pushes(idx, succs[..i], num)
    {
      assert succs[..i + 1][..i] == succs[..i];
      if succs[i] !in num {
        workList' := workList' + [(idx, succs[i])];
      }
    }
    assert succs[..|succs|] == succs;
  }
}
