// In which order the depth-first search takes the regions, and how often it lists each of
// them (_dfs, src/Function.cpp:366-400).
module SearchOrder {
  import opened Tree
  import opened ControlFlow
  import opened DepthFirstSearch

  // ---------------------------------------------------------------- how often a region is listed

  // How many stack entries name v.
  function WorkCount(work: seq<(nat, nat)>, v: nat): nat {
    if work == [] then 0 else WorkCount(work[..|work| - 1], v) + if work[|work| - 1].1 == v then 1 else 0
  }

  lemma {:induction false} WorkCountAppend(a: seq<(nat, nat)>, b: seq<(nat, nat)>, v: nat)
    ensures WorkCount(a + b, v) == WorkCount(a, v) + WorkCount(b, v)
    decreases |b|
  {
    if b == [] {
      assert a + b == a;
    } else {
      assert (a + b)[..|a + b| - 1] == a + b[..|b| - 1];
      WorkCountAppend(a, b[..|b| - 1], v);
    }
  }

  ghost predicate InGraph(g: Cfg, dfs: seq<nat>) {
    forall i :: 0 <= i < |dfs| ==> dfs[i] < |g.succs|
  }

  // The edges into v out of the first k regions, those numbered no earlier than v left out.
  function EdgesInto(g: Cfg, dfs: seq<nat>, num: map<nat, nat>, v: nat, k: nat): nat
    requires k <= |dfs| && InGraph(g, dfs)
  {
    if k == 0 then 0
    else EdgesInto(g, dfs, num, v, k - 1) + if v in num && num[v] <= k - 1 then 0 else multiset(g.succs[dfs[k - 1]])[v]
  }

  lemma {:induction false} EdgesIntoStay(g: Cfg, dfs: seq<nat>, num: map<nat, nat>, w: nat, v: nat, k: nat)
    requires k <= |dfs| && InGraph(g, dfs + [w]) && w !in num
    ensures InGraph(g, dfs) && EdgesInto(g, dfs + [w], num[w := |dfs|], v, k) == EdgesInto(g, dfs, num, v, k)
    decreases k
  {
    assert forall i :: 0 <= i < |dfs| ==> (dfs + [w])[i] == dfs[i];
    if k > 0 {
      EdgesIntoStay(g, dfs, num, w, v, k - 1);
    }
  }

  lemma {:induction false} PushesCount(idx: nat, succs: seq<nat>, num: map<nat, nat>, v: nat)
    ensures WorkCount(Pushes(idx, succs, num), v) == if v in num then 0 else multiset(succs)[v]
  {
    if succs != [] {
      var n := |succs| - 1;
      PushesCount(idx, succs[..n], num, v);
      assert succs == succs[..n] + [succs[n]];
      var more := if succs[n] in num then [] else [(idx, succs[n])];
      WorkCountAppend(Pushes(idx, succs[..n], num), more, v);
      OneEntry(idx, succs[n], v);
    }
  }

  lemma OneEntry(idx: nat, x: nat, v: nat)
    ensures WorkCount([(idx, x)], v) == if x == v then 1 else 0
  {
    assert [(idx, x)][..0] == [];
  }

  ghost predicate CountOk(g: Cfg, st: St) {
    && InGraph(g, st.dfs)
    && forall v: nat ::
      multiset(st.rpo)[v] + WorkCount(st.work, v) == (if v == g.start then 1 else 0) + EdgesInto(g, st.dfs, st.num, v, |st.dfs|)
  }

  lemma PopCount(g: Cfg, st: St)
    requires st.work != [] && CountOk(g, st)
    ensures CountOk(g, Pop(st))
  {
  }

  lemma VisitCount(g: Cfg, st: St)
    requires st.work != [] && Top(st).1 < |g.succs| && Top(st).1 !in st.num && CountOk(g, st)
    requires forall v :: v in st.num ==> st.num[v] < |st.dfs|
    ensures CountOk(g, Visit(g, st))
  {
    hide Pushes, WorkCount;
    var w, idx := Top(st).1, |st.dfs|;
    var num := st.num[w := idx];
    forall v: nat
      ensures multiset(st.rpo)[v] + WorkCount(st.work + Pushes(idx, g.succs[w], num), v) ==
        (if v == g.start then 1 else 0) + EdgesInto(g, st.dfs + [w], num, v, idx + 1)
    {
      WorkCountAppend(st.work, Pushes(idx, g.succs[w], num), v);
      PushesCount(idx, g.succs[w], num, v);
      EdgesIntoStay(g, st.dfs, st.num, w, v, idx);
    }
  }

  // ---------------------------------------------------------------- later successors first

  // The successors after some mention of x are visited, or wait above stack entry k.
  ghost predicate LaterDone(g: Cfg, st: St, p: nat, x: nat, k: nat)
    requires p < |st.dfs| && st.dfs[p] < |g.succs|
  {
    exists i: nat :: LaterDoneFrom(g, st, p, x, k, i)
  }

  ghost predicate LaterDoneFrom(g: Cfg, st: St, p: nat, x: nat, k: nat, i: nat)
    requires p < |st.dfs| && st.dfs[p] < |g.succs|
  {
    var succs := g.succs[st.dfs[p]];
    && i < |succs| && succs[i] == x
    && forall m :: i < m < |succs| ==> succs[m] in st.num || Waiting(st, k, succs[m])
  }

  ghost predicate WaitOk(g: Cfg, st: St)
    requires OpenOk(st) && InGraph(g, st.dfs)
  {
    forall j: nat, k: nat :: Nearest(st, j, k) ==> LaterDone(g, st, st.open[j], st.work[k].1, k)
  }

  // The successors that the tree parent of the n-th region has after it are numbered before it.
  ghost predicate TakenInOrder(g: Cfg, dfs: seq<nat>, parents: seq<nat>, num: map<nat, nat>, n: nat) {
    exists i: nat :: TakenAt(g, dfs, parents, num, n, i)
  }

  ghost predicate TakenAt(g: Cfg, dfs: seq<nat>, parents: seq<nat>, num: map<nat, nat>, n: nat, i: nat) {
    && n < |dfs| && n < |parents| && parents[n] < |dfs| && dfs[parents[n]] < |g.succs|
    && var succs := g.succs[dfs[parents[n]]];
      && i < |succs| && succs[i] == dfs[n]
      && forall m :: i < m < |succs| ==> succs[m] in num && num[succs[m]] < n
  }

  ghost predicate LastFirst(g: Cfg, dfs: seq<nat>, parents: seq<nat>, num: map<nat, nat>) {
    forall n: nat :: 0 < n < |dfs| ==> TakenInOrder(g, dfs, parents, num, n)
  }

  lemma PopWait(g: Cfg, st: St, st': St, p: nat, x: nat, k: nat)
    requires st.work != [] && Top(st).1 in st.num && p < |st.dfs| && st.dfs[p] < |g.succs| && LaterDone(g, st, p, x, k)
    requires st'.dfs == st.dfs && st'.num == st.num && st'.work == st.work[..|st.work| - 1]
    ensures LaterDone(g, st', p, x, k)
  {
    var i: nat :| LaterDoneFrom(g, st, p, x, k, i);
    var succs := g.succs[st.dfs[p]];
    forall m | i < m < |succs| ensures succs[m] in st'.num || Waiting(st', k, succs[m]) {
      if succs[m] !in st.num {
        var h :| k < h < |st.work| && st.work[h].1 == succs[m];
        assert st'.work[h] == st.work[h];
      }
    }
    assert LaterDoneFrom(g, st', p, x, k, i);
  }

  lemma CloseWait(g: Cfg, st: St)
    requires CanClose(st) && OpenOk(Close(st)) && InGraph(g, st.dfs) && WaitOk(g, st) && Top(st).1 in st.num
    ensures WaitOk(g, Close(st))
  {
    hide LaterDone;
    var st' := Close(st);
    forall j: nat, k: nat | Nearest(st', j, k) ensures LaterDone(g, st', st'.open[j], st'.work[k].1, k) {
      assert Nearest(st, j, k);
      PopWait(g, st, st', st.open[j], st.work[k].1, k);
    }
  }

  lemma DropWait(g: Cfg, st: St)
    requires CanDrop(st) && OpenOk(Pop(st)) && InGraph(g, st.dfs) && WaitOk(g, st)
    ensures WaitOk(g, Pop(st))
  {
    hide LaterDone;
    var st' := Pop(st);
    forall j: nat, k: nat | Nearest(st', j, k) ensures LaterDone(g, st', st'.open[j], st'.work[k].1, k) {
      assert Nearest(st, j, k);
      PopWait(g, st, st', st.open[j], st.work[k].1, k);
    }
  }

  // Each entry pushed lies below the entries for the later successors.
  lemma {:induction false} PushesLater(idx: nat, succs: seq<nat>, num: map<nat, nat>, k: nat) returns (i: nat)
    requires k < |Pushes(idx, succs, num)|
    ensures i < |succs| && succs[i] == Pushes(idx, succs, num)[k].1
    ensures forall m :: i < m < |succs| ==> succs[m] in num || PushedAbove(idx, succs, num, k, succs[m])
  {
    var n := |succs| - 1;
    var less := Pushes(idx, succs[..n], num);
    if k < |less| {
      i := PushesLater(idx, succs[..n], num, k);
      forall m | i < m < |succs| ensures succs[m] in num || PushedAbove(idx, succs, num, k, succs[m]) {
        if succs[m] !in num {
          if m < n {
            assert succs[..n][m] == succs[m] && PushedAbove(idx, succs[..n], num, k, succs[m]);
            var h :| k < h < |less| && less[h].1 == succs[m];
            assert Pushes(idx, succs, num)[h] == less[h];
          } else {
            assert Pushes(idx, succs, num)[|less|] == (idx, succs[n]);
          }
        }
      }
    } else {
      i := n;
    }
  }

  ghost predicate PushedAbove(idx: nat, succs: seq<nat>, num: map<nat, nat>, k: nat, x: nat) {
    exists h :: k < h < |Pushes(idx, succs, num)| && Pushes(idx, succs, num)[h].1 == x
  }

  lemma VisitKeepsWait(g: Cfg, st: St, p: nat, x: nat, k: nat)
    requires st.work != [] && Top(st).1 < |g.succs| && p < |st.dfs| && st.dfs[p] < |g.succs| && LaterDone(g, st, p, x, k)
    ensures Visit(g, st).dfs[p] == st.dfs[p] && LaterDone(g, Visit(g, st), p, x, k)
  {
    hide Pushes;
    var st' := Visit(g, st);
    var i: nat :| LaterDoneFrom(g, st, p, x, k, i);
    var succs := g.succs[st.dfs[p]];
    forall m | i < m < |succs| ensures succs[m] in st'.num || Waiting(st', k, succs[m]) {
      if succs[m] !in st.num {
        var h :| k < h < |st.work| && st.work[h].1 == succs[m];
        assert st'.work[h] == st.work[h];
      }
    }
    assert LaterDoneFrom(g, st', p, x, k, i);
  }

  lemma VisitNewWait(g: Cfg, st: St, k: nat)
    requires st.work != [] && Top(st).1 < |g.succs| && |st.work| <= k < |Visit(g, st).work|
    ensures LaterDone(g, Visit(g, st), |st.dfs|, Visit(g, st).work[k].1, k)
  {
    var st' := Visit(g, st);
    var w := Top(st).1;
    var num := st.num[w := |st.dfs|];
    var pushed := Pushes(|st.dfs|, g.succs[w], num);
    var i := PushesLater(|st.dfs|, g.succs[w], num, k - |st.work|);
    hide Pushes;
    forall m | i < m < |g.succs[w]| ensures g.succs[w][m] in st'.num || Waiting(st', k, g.succs[w][m]) {
      if g.succs[w][m] !in num {
        var h :| k - |st.work| < h < |pushed| && pushed[h].1 == g.succs[w][m];
        assert st'.work[|st.work| + h] == pushed[h];
      }
    }
    assert LaterDoneFrom(g, st', |st.dfs|, st'.work[k].1, k, i);
  }

  lemma VisitWait(g: Cfg, st: St)
    requires CanVisit(g, st) && g.WfSuccs() && InGraph(g, st.dfs) && WaitOk(g, st) && OpenOk(Visit(g, st))
    ensures InGraph(g, Visit(g, st).dfs) && WaitOk(g, Visit(g, st))
  {
    VisitIsNew(g, st);
    hide Pushes, LaterDone, WorkOk, Numbering;
    var st' := Visit(g, st);
    forall j: nat, k: nat | Nearest(st', j, k) ensures LaterDone(g, st', st'.open[j], st'.work[k].1, k) {
      if k >= |st.work| {
        VisitNewWait(g, st, k);
      } else {
        assert Nearest(st, j, k);
        VisitKeepsWait(g, st, st.open[j], st.work[k].1, k);
      }
    }
  }

  // The region on top is entered when nothing waits above it.
  lemma VisitLastFirst(g: Cfg, st: St)
    requires CanVisit(g, st) && g.WfSuccs() && InGraph(g, st.dfs) && WaitOk(g, st) && OwnerOk(g, st)
    requires |st.parents| == |st.dfs| && LastFirst(g, st.dfs, st.parents, st.num)
    ensures LastFirst(g, Visit(g, st).dfs, Visit(g, st).parents, Visit(g, st).num)
  {
    VisitIsNew(g, st);
    VisitTree(g, st);
    hide Pushes, WorkOk, LaterDone, OwnerOk;
    var st' := Visit(g, st);
    forall n: nat | 0 < n < |st'.dfs| ensures TakenInOrder(g, st'.dfs, st'.parents, st'.num, n) {
      if n < |st.dfs| {
        OldTaken(g, st, n);
      } else {
        NewTaken(g, st);
      }
    }
  }

  lemma OldTaken(g: Cfg, st: St, n: nat)
    requires st.work != [] && Top(st).1 < |g.succs| && Top(st).1 !in st.num
    requires n < |st.dfs| && TakenInOrder(g, st.dfs, st.parents, st.num, n)
    ensures TakenInOrder(g, Visit(g, st).dfs, Visit(g, st).parents, Visit(g, st).num, n)
  {
    hide Pushes;
    var i: nat :| TakenAt(g, st.dfs, st.parents, st.num, n, i);
    assert TakenAt(g, Visit(g, st).dfs, Visit(g, st).parents, Visit(g, st).num, n, i);
  }

  lemma NewTaken(g: Cfg, st: St)
    requires CanVisit(g, st) && g.WfSuccs() && InGraph(g, st.dfs) && WaitOk(g, st) && st.dfs != [] && st.pos != []
    requires |st.parents| == |st.dfs|
    requires Top(st).1 < |g.succs| && st.pos[|st.pos| - 1] < |st.work| - 1 && Top(st).0 == st.open[|st.open| - 1]
    requires forall v :: v in st.num ==> st.num[v] < |st.dfs|
    ensures TakenInOrder(g, Visit(g, st).dfs, Visit(g, st).parents, Visit(g, st).num, |st.dfs|)
  {
    hide Pushes, WorkOk;
    var p, x, k := st.open[|st.open| - 1], Top(st).1, |st.work| - 1;
    assert Nearest(st, |st.pos| - 1, k);
    var i: nat :| LaterDoneFrom(g, st, p, x, k, i);
    assert forall v :: !Waiting(st, k, v);
    assert TakenAt(g, Visit(g, st).dfs, Visit(g, st).parents, Visit(g, st).num, |st.dfs|, i);
  }

  // ---------------------------------------------------------------- every state of the search

  ghost predicate Ordered(g: Cfg, st: St) {
    && CountOk(g, st) && OpenOk(st) && WaitOk(g, st)
    && |st.parents| == |st.dfs| && LastFirst(g, st.dfs, st.parents, st.num)
  }

  lemma {:induction false} StepsOrdered(g: Cfg, n: nat)
    requires g.WfSuccs()
    ensures Ordered(g, Steps(g, n))
  {
    hide Sane, Ordered, Step;
    if n == 0 {
      StartOrdered(g);
    } else {
      StepsOrdered(g, n - 1);
      StepsSane(g, n - 1);
      StepOrdered(g, Steps(g, n - 1));
    }
  }

  lemma StartOrdered(g: Cfg)
    ensures Ordered(g, Initial(g))
  {
    OneEntry(0, g.start, g.start);
    assert forall v: nat :: WorkCount([(0, g.start)], v) == if v == g.start then 1 else 0 by {
      forall v: nat ensures WorkCount([(0, g.start)], v) == if v == g.start then 1 else 0 {
        OneEntry(0, g.start, v);
      }
    }
  }

  lemma StepOrdered(g: Cfg, st: St)
    requires g.WfSuccs() && Sane(g, st) && Ordered(g, st)
    ensures Ordered(g, Step(g, st))
  {
    hide SpanOk, RepeatInv, GroupedSuccs, Visit, WorkOk, OpenOk, ChainOk, OwnerOk, FreshOk, FinishedOk, PendingOk, OrderOk,
      CountOk, WaitOk, LastFirst, CanClose, CanDrop, CanVisit;
    if st.work != [] {
      WhichStep(g, st);
      RoomLeft(g, st);
      StepIs(g, st);
      if Top(st).1 !in st.num {
        VisitOrdered(g, st);
      } else if CanClose(st) {
        CloseOrdered(g, st);
      } else {
        DropOrdered(g, st);
      }
    }
  }

  lemma StepIs(g: Cfg, st: St)
    requires st.work != [] && Top(st).1 < |g.succs| && (Top(st).1 in st.num ==> CanClose(st) || CanDrop(st))
    ensures Step(g, st) == if Top(st).1 !in st.num then Visit(g, st) else if CanClose(st) then Close(st) else Pop(st)
  {
  }

  lemma CloseOrdered(g: Cfg, st: St)
    requires CanClose(st) && Ordered(g, st) && Top(st).1 in st.num
    ensures Ordered(g, Close(st))
  {
    hide CountOk, WaitOk, LastFirst;
    CloseOpen(g, st);
    CountGraph(g, st);
    CloseWait(g, st);
    PopCount(g, st);
    SameCount(g, Pop(st), Close(st));
  }

  lemma DropOrdered(g: Cfg, st: St)
    requires CanDrop(st) && Ordered(g, st)
    ensures Ordered(g, Pop(st))
  {
    hide CountOk, WaitOk, LastFirst;
    DropOpen(g, st);
    CountGraph(g, st);
    DropWait(g, st);
    PopCount(g, st);
  }

  lemma CountGraph(g: Cfg, st: St)
    requires CountOk(g, st)
    ensures InGraph(g, st.dfs)
  {
  }

  lemma SameCount(g: Cfg, st: St, st': St)
    requires CountOk(g, st) && st'.rpo == st.rpo && st'.work == st.work && st'.dfs == st.dfs && st'.num == st.num
    ensures CountOk(g, st')
  {
  }

  lemma NumbersBelow(g: Cfg, st: St)
    requires WorkOk(g, st)
    ensures forall v :: v in st.num ==> st.num[v] < |st.dfs|
  {
  }

  lemma VisitOrdered(g: Cfg, st: St)
    requires CanVisit(g, st) && g.WfSuccs() && Inv(g, st) && Ordered(g, st)
    ensures Ordered(g, Visit(g, st))
  {
    hide CountOk, WaitOk, LastFirst, WorkOk, ChainOk, OwnerOk, FreshOk, FinishedOk, PendingOk, OrderOk, Numbering, Pushes;
    VisitIsNew(g, st);
    VisitOpen(g, st);
    CountGraph(g, st);
    NumbersBelow(g, st);
    VisitCount(g, st);
    VisitWait(g, st);
    VisitLastFirst(g, st);
  }

  // ---------------------------------------------------------------- the result

  // The start is listed once, and every region once more for each edge into it out of a
  // region with a smaller number; of the successors of a region the search takes the last
  // one that is not numbered yet.
  lemma ListedAndTaken(g: Cfg, dfs: seq<nat>, parents: seq<nat>, num: map<nat, nat>, rpo: seq<nat>)
    requires g.WfSuccs() && SearchYields(g, dfs, parents, num, rpo)
    ensures InGraph(g, dfs)
    ensures forall v: nat :: multiset(rpo)[v] == (if v == g.start then 1 else 0) + EdgesInto(g, dfs, num, v, |dfs|)
    ensures |parents| == |dfs| && LastFirst(g, dfs, parents, num)
  {
    hide Steps, EdgesInto, LastFirst;
    var n: nat :| StopsWith(g, n, dfs, parents, num, rpo);
    StepsOrdered(g, n);
    var st := Steps(g, n);
    assert forall v: nat :: WorkCount(st.work, v) == 0;
  }

  // ---------------------------------------------------------------- the numbering is determined

  // What the search is known to yield of the numbering.
  ghost predicate Taken(g: Cfg, dfs: seq<nat>, parents: seq<nat>, num: map<nat, nat>) {
    && Numbering(g, dfs, parents, num) && (forall v :: v in num <==> Reachable(g, v))
    && DepthFirst(g, dfs, parents) && PreOrder(parents) && LastFirst(g, dfs, parents, num)
  }

  lemma FirstIsStart(g: Cfg, dfs: seq<nat>, parents: seq<nat>, num: map<nat, nat>)
    requires Taken(g, dfs, parents, num)
    ensures dfs != [] && |parents| == |dfs| && dfs[0] == g.start && parents[0] == 0
  {
  }

  // Two such numberings that agree on the first n regions give the n-th the same parent:
  // a deeper one would have a successor left in the other numbering too.
  lemma ParentNotDeeper(g: Cfg, d1: seq<nat>, p1: seq<nat>, n1: map<nat, nat>, d2: seq<nat>, p2: seq<nat>,
          n2: map<nat, nat>, n: nat)
    requires Taken(g, d1, p1, n1) && Taken(g, d2, p2, n2) && 0 < n < |d1| && n < |d2| && d1[..n] == d2[..n]
    ensures p1[n] <= p2[n]
  {
    hide LastFirst;
    var a, x := p1[n], d1[n];
    assert d1[a] == d1[..n][a] == d2[a];
    assert g.Edge(d2[a], x) && Reachable(g, x);
    NotAmong(g, d1, p1, n1, d2, p2, n2, n);
    if p2[n] < a {
      assert Anc(p2, a, n2[x]);
      AncSpan(p2, a, n, n2[x]);
      assert Anc(p2, a, p2[n]);
      AncLeq(p2, a, p2[n]);
    }
  }

  // The n-th region of the first is not among the first n of the second.
  lemma NotAmong(g: Cfg, d1: seq<nat>, p1: seq<nat>, n1: map<nat, nat>, d2: seq<nat>, p2: seq<nat>,
          n2: map<nat, nat>, n: nat)
    requires Taken(g, d1, p1, n1) && Taken(g, d2, p2, n2) && n < |d1| && n <= |d2| && d1[..n] == d2[..n]
    ensures d1[n] in n2 && n <= n2[d1[n]] < |d2|
  {
    hide LastFirst, DepthFirst, PreOrder;
    var x := d1[n];
    assert Reachable(g, x);
    assert forall k :: 0 <= k < n ==> d2[k] == d2[..n][k] == d1[k];
  }

  lemma SameNext(g: Cfg, d1: seq<nat>, p1: seq<nat>, n1: map<nat, nat>, d2: seq<nat>, p2: seq<nat>, n2: map<nat, nat>,
          n: nat)
    requires Taken(g, d1, p1, n1) && Taken(g, d2, p2, n2) && 0 < n < |d1| && n < |d2| && d1[..n] == d2[..n]
    ensures p1[n] == p2[n] && d1[n] == d2[n]
  {
    ParentNotDeeper(g, d1, p1, n1, d2, p2, n2, n);
    ParentNotDeeper(g, d2, p2, n2, d1, p1, n1, n);
    NotAmong(g, d1, p1, n1, d2, p2, n2, n);
    NotAmong(g, d2, p2, n2, d1, p1, n1, n);
    hide DepthFirst, PreOrder;
    assert TakenInOrder(g, d1, p1, n1, n) && TakenInOrder(g, d2, p2, n2, n);
    var i: nat :| TakenAt(g, d1, p1, n1, n, i);
    var k: nat :| TakenAt(g, d2, p2, n2, n, k);
    assert d1[p1[n]] == d1[..n][p1[n]] == d2[p2[n]];
    assert i == k;
  }

  lemma {:induction false} SamePrefix(g: Cfg, d1: seq<nat>, p1: seq<nat>, n1: map<nat, nat>, d2: seq<nat>,
          p2: seq<nat>, n2: map<nat, nat>, n: nat)
    requires Taken(g, d1, p1, n1) && Taken(g, d2, p2, n2) && n <= |d1| && n <= |d2|
    ensures |p1| == |d1| && |p2| == |d2| && d1[..n] == d2[..n] && p1[..n] == p2[..n]
  {
    FirstIsStart(g, d1, p1, n1);
    FirstIsStart(g, d2, p2, n2);
    if n > 0 {
      SamePrefix(g, d1, p1, n1, d2, p2, n2, n - 1);
      if n > 1 {
        SameNext(g, d1, p1, n1, d2, p2, n2, n - 1);
      }
      hide Taken;
      assert d1[..n] == d1[..n - 1] + [d1[n - 1]] && d2[..n] == d2[..n - 1] + [d2[n - 1]];
      assert p1[..n] == p1[..n - 1] + [p1[n - 1]] && p2[..n] == p2[..n - 1] + [p2[n - 1]];
    }
  }

  lemma NotLonger(g: Cfg, d1: seq<nat>, p1: seq<nat>, n1: map<nat, nat>, d2: seq<nat>, p2: seq<nat>, n2: map<nat, nat>)
    requires Taken(g, d1, p1, n1) && Taken(g, d2, p2, n2)
    ensures |d1| <= |d2|
  {
    if |d1| > |d2| {
      SamePrefix(g, d1, p1, n1, d2, p2, n2, |d2|);
      NotAmong(g, d1, p1, n1, d2, p2, n2, |d2|);
    }
  }

  // A numbering of the reachable regions in pre-order, without forward cross edges, that
  // takes later successors first: there is only one.
  lemma OneNumbering(g: Cfg, d1: seq<nat>, p1: seq<nat>, n1: map<nat, nat>, d2: seq<nat>, p2: seq<nat>, n2: map<nat, nat>)
    requires Taken(g, d1, p1, n1) && Taken(g, d2, p2, n2)
    ensures d1 == d2 && p1 == p2 && n1 == n2
  {
    NotLonger(g, d1, p1, n1, d2, p2, n2);
    NotLonger(g, d2, p2, n2, d1, p1, n1);
    SamePrefix(g, d1, p1, n1, d2, p2, n2, |d1|);
    assert d1[..|d1|] == d1 && d2[..|d2|] == d2 && p1[..|p1|] == p1 && p2[..|p2|] == p2;
    hide LastFirst, DepthFirst, PreOrder;
  }

  // The search yields that one.
  lemma SearchTakes(g: Cfg, dfs: seq<nat>, parents: seq<nat>, num: map<nat, nat>, rpo: seq<nat>)
    requires g.WfSuccs() && SearchYields(g, dfs, parents, num, rpo)
    ensures Taken(g, dfs, parents, num)
  {
    SearchIs(g, dfs, parents, num, rpo);
    ListedAndTaken(g, dfs, parents, num, rpo);
    hide SearchYields, Numbering, DepthFirst, PreOrder, LastFirst, PostOrder, GroupedSuccs;
  }
}
