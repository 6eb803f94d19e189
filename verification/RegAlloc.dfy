// Linear-scan register allocation (src/Analyses/RegAlloc.hpp).
//
// The i-th entry of the interval table belongs to the i-th value of the
// liveness map, so an index names a value and keys the register map.
module RegAllocation {
  import opened SeqUtil

  // Half-open: the value is live at t when start <= t < end.
  datatype Interval = Interval(start: nat, end: nat)

  // loc is a register when !isSpill and a stack slot when isSpill.
  datatype AllocInfo = AllocInfo(loc: nat, interval: Interval, isSpill: bool)

  type RegMap = map<nat, AllocInfo>

  function Starts(iv: seq<Interval>): seq<nat> {
    seq(|iv|, i requires 0 <= i < |iv| => iv[i].start)
  }

  function Ends(iv: seq<Interval>): seq<nat> {
    seq(|iv|, i requires 0 <= i < |iv| => iv[i].end)
  }

  ghost predicate Within(X: set<nat>, n: nat) {
    forall i :: i in X ==> i < n
  }

  predicate Overlap(a: Interval, b: Interval) {
    a.start < b.end && b.start < a.end
  }

  predicate LiveAt(a: Interval, t: nat) {
    a.start <= t < a.end
  }

  // ---------------------------------------------------------------- specification

  function Live(iv: seq<Interval>, X: set<nat>, t: nat): set<nat>
    requires Within(X, |iv|)
  {
    set i | i in X && iv[i].start <= t < iv[i].end
  }

  // No point is covered by more than numRegs intervals of X.
  ghost predicate Feasible(iv: seq<Interval>, numRegs: nat, X: set<nat>) {
    && Within(X, |iv|)
    && forall t: nat :: |Live(iv, X, t)| <= numRegs
  }

  function Kept(m: RegMap): set<nat> {
    set i | i in m && !m[i].isSpill
  }

  function Spilled(m: RegMap): set<nat> {
    set i | i in m && m[i].isSpill
  }

  // Two overlapping intervals in registers never share one.
  ghost predicate NoClash(iv: seq<Interval>, numRegs: nat, m: RegMap) {
    && (forall i :: i in Kept(m) ==> i < |iv| && m[i].loc < numRegs)
    && (forall i, j :: i in Kept(m) && j in Kept(m) && i != j && Overlap(iv[i], iv[j]) ==> m[i].loc != m[j].loc)
  }

  // The spilled intervals own the slots 0 .. slots - 1, one each.
  ghost predicate SlotsOk(m: RegMap, slots: nat) {
    && |Spilled(m)| == slots
    && (forall i :: i in Spilled(m) ==> m[i].loc < slots)
    && (forall i, j :: i in Spilled(m) && j in Spilled(m) && i != j ==> m[i].loc != m[j].loc)
  }

  ghost predicate Recorded(iv: seq<Interval>, m: RegMap) {
    forall i :: i in m ==> i < |iv| && m[i].interval == iv[i]
  }

  // ---------------------------------------------------------------- loop invariant

  // `active` lists, by increasing end, all kept intervals that may reach past `now`.
  ghost predicate ActiveOk(iv: seq<Interval>, K: set<nat>, active: seq<nat>, now: nat) {
    && Distinct(active)
    && Below(active, |iv|)
    && SortedBy(active, Ends(iv))
    && Elems(active) <= K
    && forall i :: i in K && i !in Elems(active) ==> i < |iv| && iv[i].end <= now
  }

  ghost predicate Holds(m: RegMap, active: set<nat>, r: nat)
    requires active <= Kept(m)
  {
    exists a :: a in active && m[a].loc == r
  }

  // Free registers and registers of active intervals partition 0 .. numRegs - 1.
  ghost predicate Partition(numRegs: nat, m: RegMap, active: set<nat>, free: seq<nat>) {
    && active <= Kept(m)
    && |active| + |free| == numRegs
    && Distinct(free)
    && (forall a, b :: a in active && b in active && a != b ==> m[a].loc != m[b].loc)
    && (forall r: nat :: r < numRegs <==> r in free || Holds(m, active, r))
    && (forall r: nat :: r in free ==> !Holds(m, active, r))
  }

  function Done(iv: seq<Interval>, X: set<nat>, t: nat): set<nat>
    requires Within(X, |iv|)
  {
    set i | i in X && iv[i].end <= t
  }

  // At every point K has finished at least as many intervals as S.
  ghost predicate Ahead(iv: seq<Interval>, K: set<nat>, S: set<nat>) {
    && Within(K, |iv|) && Within(S, |iv|)
    && forall t: nat :: |Done(iv, S, t)| <= |Done(iv, K, t)|
  }

  // ---------------------------------------------------------------- the greedy choice stays ahead

  lemma DoneAdd(iv: seq<Interval>, X: set<nat>, i: nat, t: nat)
    requires Within(X, |iv|) && i < |iv| && i !in X
    ensures |Done(iv, X + {i}, t)| == |Done(iv, X, t)| + if iv[i].end <= t then 1 else 0
  {
    if iv[i].end <= t {
      assert Done(iv, X + {i}, t) == Done(iv, X, t) + {i};
    } else {
      assert Done(iv, X + {i}, t) == Done(iv, X, t);
    }
  }

  lemma {:induction false} SubsetSize<T>(X: set<T>, Y: set<T>)
    requires X <= Y
    ensures |X| <= |Y|
  {
    if X != {} {
      var x :| x in X;
      SubsetSize(X - {x}, Y - {x});
    }
  }

  // Keeping interval i never loses the lead, whether or not the rival S keeps it.
  lemma AheadWhenKept(iv: seq<Interval>, K: set<nat>, S: set<nat>, i: nat, S': set<nat>)
    requires Ahead(iv, K, S) && i < |iv| && i !in K && i !in S
    requires S' == S || S' == S + {i}
    ensures Ahead(iv, K + {i}, S')
  {
    forall t: nat ensures |Done(iv, S', t)| <= |Done(iv, K + {i}, t)| {
      DoneAdd(iv, K, i, t);
      DoneAdd(iv, S, i, t);
    }
  }

  // All registers are taken at iv[i].start. Of the active intervals and i, the one
  // that ends last (x) is given up: K' is K + {i} without x. The lead survives
  // because after x ends the rival has at most |A| intervals that K has not passed.
  lemma AheadWhenSpilled(iv: seq<Interval>, numRegs: nat, K: set<nat>, A: set<nat>, F: set<nat>, P: set<nat>,
          i: nat, x: nat)
    requires Feasible(iv, numRegs, F)
    requires Within(P, |iv|) && i < |iv| && i !in P && iv[i].start < iv[i].end
    requires forall j :: j in P ==> iv[j].start <= iv[i].start
    requires A <= K <= P && |A| == numRegs
    requires forall j :: j in A ==> iv[i].start < iv[j].end
    requires forall j :: j in K - A ==> iv[j].end <= iv[i].start
    requires x in A + {i} && forall j :: j in A + {i} ==> iv[j].end <= iv[x].end
    requires Ahead(iv, K, F * P)
    ensures Ahead(iv, K + {i} - {x}, F * (P + {i}))
  {
    var S, S' := F * P, F * (P + {i});
    var K' := K + {i} - {x};
    forall t: nat ensures |Done(iv, S', t)| <= |Done(iv, K', t)| {
      if t < iv[x].end {
        assert Done(iv, K', t) == Done(iv, K + {i}, t);
        assert S' == S || S' == S + {i};
        AheadWhenKept(iv, K, S, i, S');
      } else {
        RivalBound(iv, numRegs, F, P, i, t);
        AllDone(iv, K, A, i, x, t);
      }
    }
  }

  // Past any t the rival has finished at most numRegs intervals more than at iv[i].start.
  lemma RivalBound(iv: seq<Interval>, numRegs: nat, F: set<nat>, P: set<nat>, i: nat, t: nat)
    requires Feasible(iv, numRegs, F)
    requires Within(P, |iv|) && i < |iv| && i !in P && iv[i].start < iv[i].end
    requires forall j :: j in P ==> iv[j].start <= iv[i].start
    ensures |Done(iv, F * (P + {i}), t)| <= |Done(iv, F * P, iv[i].start)| + numRegs
  {
    var s := iv[i].start;
    var S' := F * (P + {i});
    var before := Done(iv, F * P, s);
    assert Done(iv, S', t) <= before + Live(iv, F, s);
    SubsetSize(Done(iv, S', t), before + Live(iv, F, s));
    assert |Live(iv, F, s)| <= numRegs;
  }

  lemma AllDone(iv: seq<Interval>, K: set<nat>, A: set<nat>, i: nat, x: nat, t: nat)
    requires Within(K, |iv|) && i < |iv| && i !in K && A <= K
    requires forall j :: j in A ==> iv[i].start < iv[j].end
    requires forall j :: j in K - A ==> iv[j].end <= iv[i].start
    requires x in A + {i} && (forall j :: j in A + {i} ==> iv[j].end <= iv[x].end)
    requires iv[i].start < iv[i].end && iv[x].end <= t
    ensures |Done(iv, K + {i} - {x}, t)| == |Done(iv, K, iv[i].start)| + |A|
  {
    var s := iv[i].start;
    assert Done(iv, K, s) == K - A;
    assert |K| == |K - A| + |A| by { assert K == (K - A) + A; }
    var K' := K + {i} - {x};
    assert Done(iv, K', t) == K';
    assert |K'| == |K| by {
      assert K + {i} == K' + {x};
    }
  }

  // A clash-free register map is feasible: intervals alive at t pairwise overlap,
  // so their registers are distinct numbers below numRegs.
  lemma KeptFeasible(iv: seq<Interval>, numRegs: nat, m: RegMap)
    requires NoClash(iv, numRegs, m)
    ensures Feasible(iv, numRegs, Kept(m))
  {
    forall t: nat ensures |Live(iv, Kept(m), t)| <= numRegs {
      var L := Live(iv, Kept(m), t);
      assert forall i, j :: i in L && j in L && i != j ==> Overlap(iv[i], iv[j]);
      assert forall i :: i in L ==> i in m;
      InjectiveBound(L, map i | i in L :: m[i].loc, numRegs);
    }
  }

  lemma {:induction false} InjectiveBound(L: set<nat>, f: map<nat, nat>, n: nat)
    requires f.Keys == L
    requires forall i :: i in L ==> f[i] < n
    requires forall i, j :: i in L && j in L && i != j ==> f[i] != f[j]
    ensures |L| <= n
  {
    if n == 0 {
      assert L == {};
    } else if i :| i in L && f[i] == n - 1 {
      InjectiveBound(L - {i}, f - {i}, n - 1);
    } else {
      InjectiveBound(L, f, n - 1);
    }
  }

  lemma OptimalCount(iv: seq<Interval>, K: set<nat>, S: set<nat>)
    requires Ahead(iv, K, S)
    ensures |S| <= |K|
  {
    var t := LastEnd(iv, |iv|);
    assert Done(iv, S, t) == S;
    assert Done(iv, K, t) == K;
  }

  function LastEnd(iv: seq<Interval>, n: nat): (t: nat)
    requires n <= |iv|
    ensures forall i :: 0 <= i < n ==> iv[i].end <= t
  {
    if n == 0 then 0 else
      var t := LastEnd(iv, n - 1);
      if iv[n - 1].end > t then iv[n - 1].end else t
  }

  // ---------------------------------------------------------------- register pool steps

  lemma HoldsRemove(m: RegMap, active: set<nat>, j: nat, r: nat)
    requires active <= Kept(m) && j in active
    requires forall a, b :: a in active && b in active && a != b ==> m[a].loc != m[b].loc
    ensures Holds(m, active - {j}, r) <==> Holds(m, active, r) && r != m[j].loc
  {
    if Holds(m, active, r) && r != m[j].loc {
      var a :| a in active && m[a].loc == r;
      assert a in active - {j};
    }
  }

  lemma HoldsAdd(m: RegMap, active: set<nat>, i: nat, info: AllocInfo, r: nat)
    requires active <= Kept(m) && i !in m && !info.isSpill
    ensures active + {i} <= Kept(m[i := info])
    ensures Holds(m[i := info], active + {i}, r) <==> Holds(m, active, r) || r == info.loc
  {
    var m' := m[i := info];
    if Holds(m, active, r) {
      var a :| a in active && m[a].loc == r;
      assert a in active + {i} && m'[a].loc == r;
    }
    if r == info.loc {
      assert i in active + {i} && m'[i].loc == r;
    }
  }

  lemma PartitionExpire(numRegs: nat, m: RegMap, active: set<nat>, free: seq<nat>, j: nat)
    requires Partition(numRegs, m, active, free) && j in active
    ensures Partition(numRegs, m, active - {j}, free + [m[j].loc])
  {
    assert Holds(m, active, m[j].loc);
    assert Distinct(free + [m[j].loc]);
    forall r: nat
      ensures Holds(m, active - {j}, r) <==> Holds(m, active, r) && r != m[j].loc
    {
      HoldsRemove(m, active, j, r);
    }
  }

  lemma DropLast(xs: seq<nat>)
    requires Distinct(xs) && xs != []
    ensures Distinct(xs[..|xs| - 1])
    ensures forall x :: x in xs[..|xs| - 1] <==> x in xs && x != xs[|xs| - 1]
  {
    forall x | x in xs && x != xs[|xs| - 1] ensures x in xs[..|xs| - 1] {
      var k :| 0 <= k < |xs| && xs[k] == x;
      assert xs[..|xs| - 1][k] == x;
    }
  }

  lemma PartitionAssign(numRegs: nat, m: RegMap, active: set<nat>, free: seq<nat>, i: nat, info: AllocInfo)
    requires Partition(numRegs, m, active, free) && free != [] && i !in m
    requires !info.isSpill && info.loc == free[|free| - 1]
    ensures Partition(numRegs, m[i := info], active + {i}, free[..|free| - 1])
  {
    DropLast(free);
    var m', A, f := m[i := info], active + {i}, free[..|free| - 1];
    assert A <= Kept(m');
    forall r: nat ensures Holds(m', A, r) <==> Holds(m, active, r) || r == info.loc {
      HoldsAdd(m, active, i, info, r);
    }
    assert info.loc in free;
    forall a | a in active ensures m[a].loc != info.loc {
      assert Holds(m, active, m[a].loc);
    }
    forall r: nat ensures r < numRegs <==> r in f || Holds(m', A, r) {
      assert r in f <==> r in free && r != info.loc;
      assert r < numRegs <==> r in free || Holds(m, active, r);
    }
  }

  // The register of x passes to i and x leaves for slot s.
  function Evict(m: RegMap, i: nat, iInfo: AllocInfo, x: nat, s: nat): RegMap
    requires x in m
  {
    m[i := iInfo.(loc := m[x].loc)][x := AllocInfo(s, m[x].interval, true)]
  }

  lemma PartitionEvict(numRegs: nat, m: RegMap, active: set<nat>, free: seq<nat>, i: nat, info: AllocInfo, x: nat,
          s: nat)
    requires Partition(numRegs, m, active, free) && x in active && i !in m && !info.isSpill
    ensures Partition(numRegs, Evict(m, i, info, x, s), active - {x} + {i}, free)
  {
    var m', A := Evict(m, i, info, x, s), active - {x} + {i};
    assert |A| == |active| by {
      assert active == (active - {x}) + {x};
    }
    forall r: nat ensures Holds(m', A, r) <==> Holds(m, active, r) {
      if Holds(m, active, r) {
        var a :| a in active && m[a].loc == r;
        assert m'[if a == x then i else a].loc == r;
      }
      if Holds(m', A, r) {
        var a :| a in A && m'[a].loc == r;
        assert m[if a == i then x else a].loc == r;
      }
    }
  }

  lemma KeptSpilledEvict(m: RegMap, i: nat, info: AllocInfo, x: nat, s: nat)
    requires x in Kept(m) && i !in m && !info.isSpill
    ensures Kept(Evict(m, i, info, x, s)) == Kept(m) + {i} - {x}
    ensures Spilled(Evict(m, i, info, x, s)) == Spilled(m) + {x}
    ensures Evict(m, i, info, x, s).Keys == m.Keys + {i}
  {
  }

  lemma KeptSpilledAdd(m: RegMap, i: nat, info: AllocInfo)
    requires i !in m
    ensures Kept(m[i := info]) == if info.isSpill then Kept(m) else Kept(m) + {i}
    ensures Spilled(m[i := info]) == if info.isSpill then Spilled(m) + {i} else Spilled(m)
  {
  }

  // ---------------------------------------------------------------- one interval

  ghost predicate Safe(iv: seq<Interval>, numRegs: nat, m: RegMap, slots: nat) {
    Recorded(iv, m) && NoClash(iv, numRegs, m) && SlotsOk(m, slots)
  }

  ghost predicate Inv(iv: seq<Interval>, numRegs: nat, m: RegMap, active: seq<nat>, free: seq<nat>, slots: nat,
          now: nat) {
    && Safe(iv, numRegs, m, slots)
    && ActiveOk(iv, Kept(m), active, now)
    && Partition(numRegs, m, Elems(active), free)
    && forall i :: i in m ==> iv[i].start <= now
  }

  // The locations of some intervals, in order.
  function Locations(m: RegMap, xs: seq<nat>): (r: seq<nat>)
    requires Elems(xs) <= m.Keys
    ensures |r| == |xs| && forall k :: 0 <= k < |xs| ==> xs[k] in m && r[k] == m[xs[k]].loc
  {
    if xs == [] then []
    else
      var n := |xs| - 1;
      assert xs[n] in Elems(xs) && Elems(xs[..n]) <= Elems(xs);
      Locations(m, xs[..n]) + [m[xs[n]].loc]
  }

  lemma LocationsNext(m: RegMap, xs: seq<nat>, x: nat)
    requires Elems(xs) <= m.Keys && x in m
    ensures Elems(xs + [x]) <= m.Keys && Locations(m, xs + [x]) == Locations(m, xs) + [m[x].loc]
  {
    assert (xs + [x])[..|xs|] == xs;
  }

  // What leaves `active` once the scan reaches `now`, and the pool that results.
  function Expire(iv: seq<Interval>, m: RegMap, active: seq<nat>, free: seq<nat>, now: nat): (seq<nat>, seq<nat>)
    requires Below(active, |iv|) && Elems(active) <= m.Keys
    decreases |active|
  {
    if active != [] && iv[active[0]].end <= now then
      assert active[0] in Elems(active);
      assert Elems(active[1..]) <= Elems(active);
      Expire(iv, m, active[1..], free + [m[active[0]].loc], now)
    else
      (active, free)
  }

  lemma ExpireOne(iv: seq<Interval>, m: RegMap, active: seq<nat>, free: seq<nat>, now: nat)
    requires Below(active, |iv|) && Elems(active) <= m.Keys && active != [] && active[0] < |iv| && iv[active[0]].end <= now
    ensures Below(active[1..], |iv|) && Elems(active[1..]) <= m.Keys && active[0] in m
    ensures Expire(iv, m, active, free, now) == Expire(iv, m, active[1..], free + [m[active[0]].loc], now)
  {
    assert active[0] in Elems(active);
    assert Elems(active[1..]) <= Elems(active);
  }

  lemma NothingExpires(iv: seq<Interval>, m: RegMap, active: seq<nat>, free: seq<nat>, now: nat)
    requires Below(active, |iv|) && Elems(active) <= m.Keys
    requires active != [] ==> active[0] < |iv| && iv[active[0]].end > now
    ensures Expire(iv, m, active, free, now) == (active, free)
  {
  }

  lemma NoneExpired(m: RegMap, active: seq<nat>)
    ensures active[..0] == [] && Elems(active[..0]) <= m.Keys && Locations(m, active[..0]) == []
  {
  }

  lemma {:induction false} ExpireKeepsInv(iv: seq<Interval>, numRegs: nat, m: RegMap, active: seq<nat>,
          free: seq<nat>, slots: nat, now: nat)
    requires Inv(iv, numRegs, m, active, free, slots, now)
    ensures var (active', free') := Expire(iv, m, active, free, now);
      && Inv(iv, numRegs, m, active', free', slots, now)
      && forall a :: a in Elems(active') ==> iv[a].end > now
    decreases |active|
  {
    if active != [] && iv[active[0]].end <= now {
      var j := active[0];
      assert Elems(active[1..]) == Elems(active) - {j};
      PartitionExpire(numRegs, m, Elems(active), free, j);
      ExpireKeepsInv(iv, numRegs, m, active[1..], free + [m[j].loc], slots, now);
    } else {
      forall a | a in Elems(active) ensures iv[a].end > now {
        var k :| 0 <= k < |active| && active[k] == a;
        assert Ends(iv)[active[0]] <= Ends(iv)[active[k]];
      }
    }
  }

  lemma AdvanceInv(iv: seq<Interval>, numRegs: nat, m: RegMap, active: seq<nat>, free: seq<nat>, slots: nat,
          now: nat, later: nat)
    requires Inv(iv, numRegs, m, active, free, slots, now) && now <= later
    ensures Inv(iv, numRegs, m, active, free, slots, later)
  {
  }

  // After expiry: every interval still active is live just after `now`.
  ghost predicate Ready(iv: seq<Interval>, numRegs: nat, m: RegMap, active: seq<nat>, free: seq<nat>, slots: nat,
          i: nat) {
    && i < |iv| && i !in m
    && Inv(iv, numRegs, m, active, free, slots, iv[i].start)
    && forall a :: a in Elems(active) ==> iv[a].end > iv[i].start
  }

  ghost predicate Resorted(iv: seq<Interval>, xs: seq<nat>, ys: seq<nat>) {
    multiset(ys) == multiset(xs) && Below(ys, |iv|) && SortedBy(ys, Ends(iv))
  }

  lemma NewActive(iv: seq<Interval>, K: set<nat>, active: seq<nat>, i: nat, active': seq<nat>, now: nat)
    requires ActiveOk(iv, K, active, now) && i !in K
    requires Resorted(iv, active + [i], active')
    ensures ActiveOk(iv, K + {i}, active', now) && Elems(active') == Elems(active) + {i}
  {
    assert i !in Elems(active);
    assert Distinct(active + [i]);
    DistinctRearranged(active + [i], active');
  }

  lemma AssignSafe(iv: seq<Interval>, numRegs: nat, m: RegMap, active: set<nat>, free: seq<nat>, slots: nat, i: nat,
          info: AllocInfo)
    requires Safe(iv, numRegs, m, slots) && i < |iv| && i !in m
    requires Partition(numRegs, m, active, free) && info.loc in free && !info.isSpill && info.interval == iv[i]
    requires forall j :: j in Kept(m) && j !in active ==> iv[j].end <= iv[i].start
    ensures Safe(iv, numRegs, m[i := info], slots)
  {
    KeptSpilledAdd(m, i, info);
    forall j | j in Kept(m) && (Overlap(iv[i], iv[j]) || Overlap(iv[j], iv[i])) ensures m[j].loc != info.loc {
      assert j in active;
      assert Holds(m, active, m[j].loc);
    }
  }

  lemma AssignStep(iv: seq<Interval>, numRegs: nat, m: RegMap, active: seq<nat>, free: seq<nat>, slots: nat, i: nat,
          active': seq<nat>)
    requires Ready(iv, numRegs, m, active, free, slots, i) && |active| < numRegs
    requires Resorted(iv, active + [i], active')
    ensures free != []
    ensures Inv(iv, numRegs, m[i := AllocInfo(free[|free| - 1], iv[i], false)], active', free[..|free| - 1], slots, iv[i].start)
  {
    DistinctSize(active);
    assert |free| > 0;
    var info := AllocInfo(free[|free| - 1], iv[i], false);
    assert info.loc in free;
    assert i !in Kept(m);
    NewActive(iv, Kept(m), active, i, active', iv[i].start);
    AssignSafe(iv, numRegs, m, Elems(active), free, slots, i, info);
    PartitionAssign(numRegs, m, Elems(active), free, i, info);
    KeptSpilledAdd(m, i, info);
    hide NoClash, Partition, SlotsOk, ActiveOk, Kept, Elems;
  }

  lemma SpillSafe(iv: seq<Interval>, numRegs: nat, m: RegMap, slots: nat, i: nat)
    requires Safe(iv, numRegs, m, slots) && i < |iv| && i !in m
    ensures Safe(iv, numRegs, m[i := AllocInfo(slots, iv[i], true)], slots + 1)
  {
    SpillSlots(m, i, AllocInfo(slots, iv[i], true), slots);
    SpillNoClash(iv, numRegs, m, i, AllocInfo(slots, iv[i], true));
    hide NoClash, SlotsOk;
  }

  lemma SpillSlots(m: RegMap, i: nat, info: AllocInfo, slots: nat)
    requires SlotsOk(m, slots) && i !in m && info.isSpill && info.loc == slots
    ensures SlotsOk(m[i := info], slots + 1)
  {
    KeptSpilledAdd(m, i, info);
  }

  lemma SpillNoClash(iv: seq<Interval>, numRegs: nat, m: RegMap, i: nat, info: AllocInfo)
    requires NoClash(iv, numRegs, m) && i !in m && info.isSpill
    ensures NoClash(iv, numRegs, m[i := info])
  {
    KeptSpilledAdd(m, i, info);
    assert forall j :: j in Kept(m) ==> m[i := info][j] == m[j];
  }

  lemma SpillStep(iv: seq<Interval>, numRegs: nat, m: RegMap, active: seq<nat>, free: seq<nat>, slots: nat, i: nat)
    requires Ready(iv, numRegs, m, active, free, slots, i)
    ensures Inv(iv, numRegs, m[i := AllocInfo(slots, iv[i], true)], active, free, slots + 1, iv[i].start)
  {
    SpillSafe(iv, numRegs, m, slots, i);
    SpillPartition(numRegs, m, Elems(active), free, i, AllocInfo(slots, iv[i], true));
    KeptSpilledAdd(m, i, AllocInfo(slots, iv[i], true));
    hide NoClash, Partition, SlotsOk, ActiveOk, Kept, Elems;
  }

  lemma SpillPartition(numRegs: nat, m: RegMap, active: set<nat>, free: seq<nat>, i: nat, info: AllocInfo)
    requires Partition(numRegs, m, active, free) && i !in m
    ensures Partition(numRegs, m[i := info], active, free)
  {
    var m' := m[i := info];
    forall r: nat ensures active <= Kept(m') && (Holds(m', active, r) <==> Holds(m, active, r)) {
      if Holds(m, active, r) {
        var a :| a in active && m[a].loc == r;
        assert m'[a].loc == r;
      }
    }
  }

  lemma EvictStep(iv: seq<Interval>, numRegs: nat, m: RegMap, active: seq<nat>, free: seq<nat>, slots: nat, i: nat,
          active': seq<nat>)
    requires Ready(iv, numRegs, m, active, free, slots, i)
    requires active != [] && active[|active| - 1] in m
    requires Resorted(iv, active[..|active| - 1] + [i], active')
    ensures Inv(iv, numRegs, Evict(m, i, AllocInfo(0, iv[i], false), active[|active| - 1], slots), active', free, slots + 1, iv[i].start)
  {
    hide NoClash, Partition, SlotsOk, ActiveOk, Kept, Resorted, Holds, Evict;
    var x, info := active[|active| - 1], AllocInfo(0, iv[i], false);
    var m' := Evict(m, i, info, x, slots);
    EvictSafe(iv, numRegs, m, active, free, slots, i, x);
    EvictActive(iv, numRegs, m, active, free, slots, i, active');
    assert ActiveOk(iv, Kept(m'), active', iv[i].start) && m'.Keys == m.Keys + {i} by {
      ReadyFacts(iv, numRegs, m, active, free, slots, i);
      KeptSpilledEvict(m, i, info, x, slots);
    }
    assert Partition(numRegs, m', Elems(active'), free) by {
      ReadyFacts(iv, numRegs, m, active, free, slots, i);
      PartitionEvict(numRegs, m, Elems(active), free, i, info, x, slots);
    }
  }

  lemma EvictActive(iv: seq<Interval>, numRegs: nat, m: RegMap, active: seq<nat>, free: seq<nat>, slots: nat,
          i: nat, active': seq<nat>)
    requires Ready(iv, numRegs, m, active, free, slots, i) && active != []
    requires Resorted(iv, active[..|active| - 1] + [i], active')
    ensures ActiveOk(iv, Kept(m) + {i} - {active[|active| - 1]}, active', iv[i].start)
    ensures Elems(active') == Elems(active) - {active[|active| - 1]} + {i}
  {
    hide NoClash, Partition, SlotsOk, ActiveOk, Kept, Resorted, Holds;
    var x := active[|active| - 1];
    ReadyFacts(iv, numRegs, m, active, free, slots, i);
    DropActive(iv, Kept(m), active, iv[i].start);
    NewActive(iv, Kept(m) - {x}, active[..|active| - 1], i, active', iv[i].start);
    assert Kept(m) - {x} + {i} == Kept(m) + {i} - {x};
  }

  lemma EvictSafe(iv: seq<Interval>, numRegs: nat, m: RegMap, active: seq<nat>, free: seq<nat>, slots: nat, i: nat,
          x: nat)
    requires Ready(iv, numRegs, m, active, free, slots, i) && x in Elems(active) && x in m
    ensures Safe(iv, numRegs, Evict(m, i, AllocInfo(0, iv[i], false), x, slots), slots + 1)
  {
    hide NoClash, Partition, SlotsOk, ActiveOk, Kept, Resorted, Holds;
    var info := AllocInfo(0, iv[i], false);
    ReadyFacts(iv, numRegs, m, active, free, slots, i);
    EvictNoClash(iv, numRegs, m, Elems(active), i, x, slots);
    EvictSlots(m, i, info, x, slots);
  }

  lemma ReadyFacts(iv: seq<Interval>, numRegs: nat, m: RegMap, active: seq<nat>, free: seq<nat>, slots: nat, i: nat)
    requires Ready(iv, numRegs, m, active, free, slots, i)
    ensures i !in Kept(m) && Elems(active) <= Kept(m) <= m.Keys
    ensures active != [] ==> active[|active| - 1] in Elems(active)
    ensures forall a, b :: a in Elems(active) && b in Elems(active) && a != b ==> m[a].loc != m[b].loc
    ensures forall j :: j in Kept(m) && j !in Elems(active) ==> j < |iv| && iv[j].end <= iv[i].start
  {
  }

  lemma DropActive(iv: seq<Interval>, K: set<nat>, active: seq<nat>, now: nat)
    requires ActiveOk(iv, K, active, now) && active != []
    ensures ActiveOk(iv, K - {active[|active| - 1]}, active[..|active| - 1], now)
    ensures Elems(active[..|active| - 1]) == Elems(active) - {active[|active| - 1]}
  {
    DropLast(active);
  }

  lemma EvictNoClash(iv: seq<Interval>, numRegs: nat, m: RegMap, active: set<nat>, i: nat, x: nat, s: nat)
    requires NoClash(iv, numRegs, m) && i < |iv| && i !in m && x in active && active <= Kept(m)
    requires forall a, b :: a in active && b in active && a != b ==> m[a].loc != m[b].loc
    requires forall j :: j in Kept(m) && j !in active ==> iv[j].end <= iv[i].start
    ensures NoClash(iv, numRegs, Evict(m, i, AllocInfo(0, iv[i], false), x, s))
  {
    var info := AllocInfo(0, iv[i], false);
    var m' := Evict(m, i, info, x, s);
    KeptSpilledEvict(m, i, info, x, s);
    assert forall j :: j in Kept(m') && j != i ==> j in Kept(m) && m'[j].loc == m[j].loc;
    assert m'[i].loc == m[x].loc;
    forall j | j in Kept(m') && j != i && (Overlap(iv[i], iv[j]) || Overlap(iv[j], iv[i])) ensures m'[j].loc != m'[i].loc {
      assert j in active && j != x;
    }
  }

  lemma EvictSlots(m: RegMap, i: nat, info: AllocInfo, x: nat, slots: nat)
    requires SlotsOk(m, slots) && x in Kept(m) && i !in m && !info.isSpill
    ensures SlotsOk(Evict(m, i, info, x, slots), slots + 1)
  {
    KeptSpilledEvict(m, i, info, x, slots);
  }

  // ---------------------------------------------------------------- the lead over a whole run

  ghost predicate Leads(iv: seq<Interval>, numRegs: nat, m: RegMap) {
    forall F: set<nat> :: Feasible(iv, numRegs, F) ==> Ahead(iv, Kept(m), F * m.Keys)
  }

  ghost predicate Proper(iv: seq<Interval>) {
    forall i :: 0 <= i < |iv| ==> iv[i].start < iv[i].end
  }

  lemma LeadsAssign(iv: seq<Interval>, numRegs: nat, m: RegMap, i: nat, info: AllocInfo)
    requires Leads(iv, numRegs, m) && i < |iv| && i !in m && !info.isSpill
    ensures Leads(iv, numRegs, m[i := info])
  {
    KeptSpilledAdd(m, i, info);
    forall F: set<nat> | Feasible(iv, numRegs, F) ensures Ahead(iv, Kept(m[i := info]), F * m[i := info].Keys) {
      assert m[i := info].Keys == m.Keys + {i};
      assert Ahead(iv, Kept(m), F * m.Keys);
      AheadWhenKept(iv, Kept(m), F * m.Keys, i, F * (m.Keys + {i}));
    }
  }

  // x is the interval given up: i itself, or the last active one.
  lemma LeadsSpill(iv: seq<Interval>, numRegs: nat, m: RegMap, active: seq<nat>, free: seq<nat>, slots: nat, i: nat,
          x: nat, m': RegMap)
    requires Leads(iv, numRegs, m) && Proper(iv)
    requires Ready(iv, numRegs, m, active, free, slots, i) && |active| == numRegs
    requires x in Elems(active) + {i} && forall j :: j in Elems(active) + {i} ==> iv[j].end <= iv[x].end
    requires Kept(m') == Kept(m) + {i} - {x} && m'.Keys == m.Keys + {i}
    ensures Leads(iv, numRegs, m')
  {
    DistinctSize(active);
    forall F: set<nat> | Feasible(iv, numRegs, F) ensures Ahead(iv, Kept(m'), F * m'.Keys) {
      assert Ahead(iv, Kept(m), F * m.Keys);
      AheadWhenSpilled(iv, numRegs, Kept(m), Elems(active), F, m.Keys, i, x);
    }
  }

  lemma LeadsAll(iv: seq<Interval>, numRegs: nat, m: RegMap)
    requires Leads(iv, numRegs, m) && forall i :: 0 <= i < |iv| ==> i in m
    ensures forall F: set<nat> :: Feasible(iv, numRegs, F) ==> |F| <= |Kept(m)|
  {
    forall F: set<nat> | Feasible(iv, numRegs, F) ensures |F| <= |Kept(m)| {
      assert F * m.Keys == F;
      assert Ahead(iv, Kept(m), F * m.Keys);
      OptimalCount(iv, Kept(m), F);
    }
  }

  // If the whole input fits, nothing is spilled.
  lemma NoSpillWhenFits(iv: seq<Interval>, numRegs: nat, m: RegMap)
    requires forall F: set<nat> :: Feasible(iv, numRegs, F) ==> |F| <= |Kept(m)|
    requires Feasible(iv, numRegs, m.Keys)
    ensures Spilled(m) == {}
  {
    assert m.Keys == Kept(m) + Spilled(m);
    assert |m.Keys| == |Kept(m)| + |Spilled(m)|;
  }

  // ---------------------------------------------------------------- which registers are used

  // Some kept interval has register r.
  ghost predicate InUse(m: RegMap, r: nat) {
    exists j :: j in m && !m[j].isSpill && m[j].loc == r
  }

  // No register is used while a smaller one never was.
  ghost predicate NoGaps(m: RegMap) {
    forall i, r: nat :: i in m && !m[i].isSpill && r < m[i].loc ==> InUse(m, r)
  }

  // The registers from `fresh` on lie untouched at the bottom of the pool, the largest
  // first; what is above them in the pool was used, as all registers below `fresh` are.
  ghost predicate Stocked(numRegs: nat, m: RegMap, free: seq<nat>, unused: nat) {
    && unused <= numRegs && numRegs - unused <= |free|
    && (forall k :: 0 <= k < numRegs - unused ==> free[k] == numRegs - 1 - k)
    && (forall k :: numRegs - unused <= k < |free| ==> free[k] < unused)
    && (forall i :: i in m && !m[i].isSpill ==> m[i].loc < unused)
    && forall r: nat :: r < unused ==> InUse(m, r)
  }

  lemma StockedStart(numRegs: nat, free: seq<nat>)
    requires |free| == numRegs && forall r :: 0 <= r < numRegs ==> free[r] == numRegs - 1 - r
    ensures Stocked(numRegs, map[], free, 0)
  {
  }

  lemma StockedExpire(numRegs: nat, m: RegMap, free: seq<nat>, unused: nat, gone: seq<nat>)
    requires Stocked(numRegs, m, free, unused) && Elems(gone) <= Kept(m)
    ensures Elems(gone) <= m.Keys && Stocked(numRegs, m, free + Locations(m, gone), unused)
  {
    hide InUse;
    assert Elems(gone) <= m.Keys;
    var locs := Locations(m, gone);
    hide Locations;
    forall k | 0 <= k < |gone| ensures locs[k] < unused {
      assert gone[k] in Elems(gone);
    }
  }

  function NextUnused(numRegs: nat, free: seq<nat>, unused: nat): nat {
    if |free| == numRegs - unused then unused + 1 else unused
  }

  lemma StockedAssign(numRegs: nat, m: RegMap, free: seq<nat>, unused: nat, i: nat, iv: Interval)
    requires Stocked(numRegs, m, free, unused) && free != [] && i !in m
    ensures Stocked(numRegs, m[i := AllocInfo(free[|free| - 1], iv, false)], free[..|free| - 1], NextUnused(numRegs, free, unused))
  {
    var fr := free[|free| - 1];
    var m' := m[i := AllocInfo(fr, iv, false)];
    forall r: nat | r < NextUnused(numRegs, free, unused) ensures InUse(m', r) {
      if r < unused {
        assert InUse(m, r);
        var j :| j in m && !m[j].isSpill && m[j].loc == r;
        assert m'[j].loc == r;
      } else {
        assert m'[i].loc == r;
      }
    }
    hide InUse;
  }

  lemma StockedSpill(numRegs: nat, m: RegMap, free: seq<nat>, unused: nat, i: nat, info: AllocInfo)
    requires Stocked(numRegs, m, free, unused) && i !in m && info.isSpill
    ensures Stocked(numRegs, m[i := info], free, unused)
  {
    var m' := m[i := info];
    forall r: nat | r < unused ensures InUse(m', r) {
      assert InUse(m, r);
      var j :| j in m && !m[j].isSpill && m[j].loc == r;
      assert m'[j].loc == r;
    }
    hide InUse;
  }

  lemma StockedEvict(numRegs: nat, m: RegMap, free: seq<nat>, unused: nat, i: nat, iv: Interval, x: nat, s: nat)
    requires Stocked(numRegs, m, free, unused) && i !in m && x in Kept(m)
    ensures Stocked(numRegs, Evict(m, i, AllocInfo(0, iv, false), x, s), free, unused)
  {
    var m' := Evict(m, i, AllocInfo(0, iv, false), x, s);
    forall r: nat | r < unused ensures InUse(m', r) {
      assert InUse(m, r);
      var j :| j in m && !m[j].isSpill && m[j].loc == r;
      assert m'[if j == x then i else j].loc == r;
    }
    hide InUse;
  }

  lemma ExpiredStock(iv: seq<Interval>, numRegs: nat, m: RegMap, active: seq<nat>, free: seq<nat>, slots: nat, now: nat,
          k: nat, unused: nat)
    requires Inv(iv, numRegs, m, active, free, slots, now) && k <= |active| && Stocked(numRegs, m, free, unused)
    ensures Elems(active[..k]) <= m.Keys && Stocked(numRegs, m, free + Locations(m, active[..k]), unused)
  {
    assert Elems(active[..k]) <= Elems(active) <= Kept(m);
    hide Stocked, Locations, Inv;
    StockedExpire(numRegs, m, free, unused, active[..k]);
  }

  lemma SpilledStock(iv: seq<Interval>, numRegs: nat, m: RegMap, active: seq<nat>, free: seq<nat>, slots: nat, i: nat,
          unused: nat)
    requires Ready(iv, numRegs, m, active, free, slots, i) && active != [] && Stocked(numRegs, m, free, unused)
    ensures var x := active[|active| - 1];
      && x in m
      && Stocked(numRegs, Evict(m, i, AllocInfo(0, iv[i], false), x, slots), free, unused)
      && Stocked(numRegs, m[i := AllocInfo(slots, iv[i], true)], free, unused)
  {
    LastActive(iv, numRegs, m, active, free, slots, i);
    hide Stocked, Inv, Evict;
    StockedEvict(numRegs, m, free, unused, i, iv[i], active[|active| - 1], slots);
    StockedSpill(numRegs, m, free, unused, i, AllocInfo(slots, iv[i], true));
  }

  lemma StockedNoGaps(numRegs: nat, m: RegMap, free: seq<nat>, unused: nat)
    requires Stocked(numRegs, m, free, unused)
    ensures NoGaps(m)
  {
    hide InUse;
  }

  // ---------------------------------------------------------------- the allocator

  class RegAlloc {
    var regMap: RegMap
    const numRegs: nat

    // Safety holds for every interval table. The optimality clause needs each
    // interval to be non-empty.
    constructor (iv: seq<Interval>, numRegs: nat)
      requires numRegs >= 1
      ensures this.numRegs == numRegs
      ensures forall i: nat :: i in regMap <==> i < |iv|
      ensures Safe(iv, numRegs, regMap, |Spilled(regMap)|)
      ensures Feasible(iv, numRegs, Kept(regMap))
      ensures Proper(iv) ==> forall F: set<nat> :: Feasible(iv, numRegs, F) ==> |F| <= |Kept(regMap)|
      ensures KeepsEmpty(iv, regMap) && SpillsCrowded(iv, numRegs, regMap) && NoGaps(regMap)
      ensures forall i: nat, j: nat, t: nat :: i < |iv| && j < |iv| && i != j && LiveAt(iv[i], t) && LiveAt(iv[j], t) ==>
        regMap[i].isSpill != regMap[j].isSpill || regMap[i].loc != regMap[j].loc
      ensures forall i: nat :: i < |iv| && !regMap[i].isSpill ==> regMap[i].loc < numRegs
    {
      this.numRegs := numRegs;
      regMap := map[];
      new;
      LinearScan(iv);
      KeptFeasible(iv, numRegs, regMap);
      LocationsApart(iv, numRegs, regMap, |Spilled(regMap)|);
      if Proper(iv) {
        LeadsAll(iv, numRegs, regMap);
      }
    }

    method LinearScan(iv: seq<Interval>)
      requires regMap == map[] && numRegs >= 1
      modifies this
      ensures forall i: nat :: i in regMap <==> i < |iv|
      ensures Safe(iv, numRegs, regMap, |Spilled(regMap)|)
      ensures Proper(iv) ==> Leads(iv, numRegs, regMap)
      ensures KeepsEmpty(iv, regMap) && SpillsCrowded(iv, numRegs, regMap) && NoGaps(regMap)
    {
      hide KeepsEmpty, SpillsCrowded, Stocked, NoGaps, Inv, Safe, NoClash, SlotsOk, ActiveOk, Partition, Leads, Kept, Proper, Expire, Ready;
      var ids: seq<nat> := seq(|iv|, i => i);
      var order := SortByKey(ids, Starts(iv));
      ScanOrder(iv, ids, order);
      var slots: nat := 0;
      var active: seq<nat> := [];
      var free: seq<nat> := seq(numRegs, r requires 0 <= r < numRegs => (numRegs - 1 - r) as nat);
      ghost var now: nat, unused: nat := 0, 0;
      StockedStart(numRegs, free);
      EmptyInv(iv, numRegs, free);
      EmptyKeeps(iv, numRegs);
      for k := 0 to |order|
        invariant k < |order| ==> now <= iv[order[k]].start
        invariant regMap.Keys == Elems(order[..k])
        invariant Inv(iv, numRegs, regMap, active, free, slots, now)
        invariant Proper(iv) ==> Leads(iv, numRegs, regMap)
        invariant KeepsEmpty(iv, regMap) && SpillsCrowded(iv, numRegs, regMap)
        invariant Stocked(numRegs, regMap, free, unused)
      {
        var i := order[k];
        NextInOrder(order, k);
        ScanReady(iv, numRegs, regMap, active, free, slots, now, i);
        ghost var listed, pool := active, free;
        active, free := ExpireOldIntervals(iv, i, active, free);
        ExpiredStock(iv, numRegs, regMap, listed, pool, slots, now, |listed| - |active|, unused);
        now := iv[i].start;
        active, free, slots, unused := PlaceInterval(iv, i, active, free, slots, unused);
      }
      assert order[..|order|] == order;
      InvIsSafe(iv, numRegs, regMap, active, free, slots, now);
      StockedNoGaps(numRegs, regMap, free, unused);
    }

    // Once the intervals that have ended are gone: spill, or take a register.
    method PlaceInterval(iv: seq<Interval>, i: nat, active: seq<nat>, free: seq<nat>, slots: nat, ghost unused: nat)
      returns (active': seq<nat>, free': seq<nat>, slots': nat, ghost unused': nat)
      requires numRegs >= 1 && |active| <= numRegs && Ready(iv, numRegs, regMap, active, free, slots, i)
      requires Proper(iv) ==> Leads(iv, numRegs, regMap)
      requires KeepsEmpty(iv, regMap) && SpillsCrowded(iv, numRegs, regMap) && Stocked(numRegs, regMap, free, unused)
      modifies this
      ensures regMap.Keys == old(regMap).Keys + {i} && Inv(iv, numRegs, regMap, active', free', slots', iv[i].start)
      ensures Proper(iv) ==> Leads(iv, numRegs, regMap)
      ensures KeepsEmpty(iv, regMap) && SpillsCrowded(iv, numRegs, regMap) && Stocked(numRegs, regMap, free', unused')
    {
      hide KeepsEmpty, SpillsCrowded, Stocked, Inv, Leads, Kept, Proper, Evict;
      active', free', slots', unused' := active, free, slots, unused;
      ghost var m := regMap;
      if |active| == numRegs {
        SpillKeepsEmpty(iv, numRegs, m, active, free, slots, i);
        SpillCrowded(iv, numRegs, m, active, free, slots, i);
        SpilledStock(iv, numRegs, m, active, free, slots, i, unused);
        active', slots' := SpillAtInterval(iv, i, active, slots, free);
      } else {
        AssignKeepsEmpty(iv, numRegs, m, i);
        active', free' := AssignRegister(iv, i, active, slots, free);
        StockedAssign(numRegs, m, free, unused, i, iv[i]);
        unused' := NextUnused(numRegs, free, unused);
      }
    }

    method ExpireOldIntervals(iv: seq<Interval>, i: nat, active: seq<nat>, free: seq<nat>)
      returns (active': seq<nat>, free': seq<nat>)
      requires i < |iv| && Below(active, |iv|) && Elems(active) <= regMap.Keys
      ensures (active', free') == Expire(iv, regMap, active, free, iv[i].start)
      ensures |active'| <= |active| && active' == active[|active| - |active'|..]
      ensures forall j :: 0 <= j < |active| - |active'| ==> iv[active[j]].end <= iv[i].start
      ensures active' != [] ==> iv[active'[0]].end > iv[i].start
      ensures Elems(active[..|active| - |active'|]) <= regMap.Keys
      ensures free' == free + Locations(regMap, active[..|active| - |active'|])
    {
      hide Expire, Locations, Elems;
      active', free' := active, free;
      ghost var k: nat := 0;
      NoneExpired(regMap, active);
      while active' != [] && iv[active'[0]].end <= iv[i].start
        invariant 0 <= k <= |active| && active' == active[k..]
        invariant forall j :: 0 <= j < k ==> iv[active[j]].end <= iv[i].start
        invariant Elems(active[..k]) <= regMap.Keys && free' == free + Locations(regMap, active[..k])
        invariant Below(active', |iv|) && Elems(active') <= regMap.Keys
        invariant Expire(iv, regMap, active', free', iv[i].start) == Expire(iv, regMap, active, free, iv[i].start)
        decreases |active'|
      {
        ExpireOne(iv, regMap, active', free', iv[i].start);
        var j := active'[0];
        assert active[..k + 1] == active[..k] + [j];
        LocationsNext(regMap, active[..k], j);
        active' := active'[1..];
        free' := free' + [regMap[j].loc];
        k := k + 1;
      }
      NothingExpires(iv, regMap, active', free', iv[i].start);
    }

    method AssignRegister(iv: seq<Interval>, i: nat, active: seq<nat>, ghost slots: nat, free: seq<nat>)
      returns (active': seq<nat>, free': seq<nat>)
      requires Ready(iv, numRegs, regMap, active, free, slots, i) && |active| < numRegs
      modifies this
      ensures free != [] && free' == free[..|free| - 1]
      ensures regMap == old(regMap)[i := AllocInfo(free[|free| - 1], iv[i], false)]
      ensures Resorted(iv, active + [i], active')
      ensures regMap.Keys == old(regMap).Keys + {i}
      ensures Inv(iv, numRegs, regMap, active', free', slots, iv[i].start)
      ensures Leads(iv, numRegs, old(regMap)) ==> Leads(iv, numRegs, regMap)
    {
      active' := SortByKey(active + [i], Ends(iv));
      AssignStep(iv, numRegs, regMap, active, free, slots, i, active');
      var fr := free[|free| - 1];
      free' := free[..|free| - 1];
      if Leads(iv, numRegs, regMap) {
        LeadsAssign(iv, numRegs, regMap, i, AllocInfo(fr, iv[i], false));
      }
      regMap := regMap[i := AllocInfo(fr, iv[i], false)];
    }

    method SpillAtInterval(iv: seq<Interval>, i: nat, active: seq<nat>, slots: nat, ghost free: seq<nat>)
      returns (active': seq<nat>, slots': nat)
      requires Ready(iv, numRegs, regMap, active, free, slots, i)
      requires |active| == numRegs && numRegs >= 1
      modifies this
      ensures slots' == slots + 1
      ensures var x := active[|active| - 1];
        if iv[x].end > iv[i].end then
          regMap == old(Evict(regMap, i, AllocInfo(0, iv[i], false), x, slots)) && Resorted(iv, active[..|active| - 1] + [i], active')
        else
          regMap == old(regMap)[i := AllocInfo(slots, iv[i], true)] && active' == active
      ensures regMap.Keys == old(regMap).Keys + {i}
      ensures Inv(iv, numRegs, regMap, active', free, slots', iv[i].start)
      ensures Proper(iv) && Leads(iv, numRegs, old(regMap)) ==> Leads(iv, numRegs, regMap)
    {
      hide Inv, NoClash, SlotsOk, ActiveOk, Partition, Leads, Kept, Evict, Proper;
      var x := active[|active| - 1];
      LastActive(iv, numRegs, regMap, active, free, slots, i);
      ghost var before := regMap;
      if iv[x].end > iv[i].end {
        active' := SortByKey(active[..|active| - 1] + [i], Ends(iv));
        EvictStep(iv, numRegs, regMap, active, free, slots, i, active');
        EvictIsUpdate(regMap, i, iv[i], x, slots);
        regMap := regMap[i := AllocInfo(regMap[x].loc, iv[i], false)];
        regMap := regMap[x := regMap[x].(isSpill := true, loc := slots)];
        assert regMap.Keys == before.Keys + {i};
        EvictLeads(iv, numRegs, before, active, free, slots, i);
      } else {
        active' := active;
        SpillStep(iv, numRegs, regMap, active, free, slots, i);
        regMap := regMap[i := AllocInfo(slots, iv[i], true)];
        SpillLeads(iv, numRegs, before, active, free, slots, i);
      }
      slots' := slots + 1;
    }
  }

  // An empty interval is never the one that is spilled.
  ghost predicate KeepsEmpty(iv: seq<Interval>, m: RegMap) {
    forall i :: i in m && i < |iv| && iv[i].end <= iv[i].start ==> !m[i].isSpill
  }

  // Where interval i starts, numRegs others that started no later reach past it, and of
  // all these x ends last.
  ghost predicate CrowdedAt(iv: seq<Interval>, numRegs: nat, x: nat, i: nat, A: set<nat>) {
    && i < |iv| && i !in A && |A| == numRegs && (x == i || x in A)
    && (forall a :: a in A ==> a < |iv| && iv[a].start <= iv[i].start < iv[a].end)
    && x < |iv| && iv[i].end <= iv[x].end && iv[i].start < iv[x].end
    && forall a :: a in A ==> iv[a].end <= iv[x].end
  }

  // Only such intervals are spilled.
  ghost predicate SpillsCrowded(iv: seq<Interval>, numRegs: nat, m: RegMap) {
    forall x :: x in m && m[x].isSpill ==> exists i: nat, A: set<nat> :: CrowdedAt(iv, numRegs, x, i, A)
  }

  lemma EmptyKeeps(iv: seq<Interval>, numRegs: nat)
    ensures KeepsEmpty(iv, map[]) && SpillsCrowded(iv, numRegs, map[])
  {
  }

  lemma AssignKeepsEmpty(iv: seq<Interval>, numRegs: nat, m: RegMap, i: nat)
    requires KeepsEmpty(iv, m) && SpillsCrowded(iv, numRegs, m) && i < |iv|
    ensures forall r: nat :: KeepsEmpty(iv, m[i := AllocInfo(r, iv[i], false)])
    ensures forall r: nat :: SpillsCrowded(iv, numRegs, m[i := AllocInfo(r, iv[i], false)])
  {
    hide CrowdedAt;
  }

  lemma SpillCrowded(iv: seq<Interval>, numRegs: nat, m: RegMap, active: seq<nat>, free: seq<nat>, slots: nat, i: nat)
    requires SpillsCrowded(iv, numRegs, m) && Ready(iv, numRegs, m, active, free, slots, i)
    requires |active| == numRegs && numRegs >= 1
    ensures var x := active[|active| - 1];
      && x in m && x < |iv|
      && (iv[x].end > iv[i].end ==> SpillsCrowded(iv, numRegs, Evict(m, i, AllocInfo(0, iv[i], false), x, slots)))
      && (iv[x].end <= iv[i].end ==> SpillsCrowded(iv, numRegs, m[i := AllocInfo(slots, iv[i], true)]))
  {
    LastActive(iv, numRegs, m, active, free, slots, i);
    var x := active[|active| - 1];
    if iv[x].end > iv[i].end {
      LastCrowded(iv, numRegs, m, active, free, slots, i, x);
    } else {
      LastCrowded(iv, numRegs, m, active, free, slots, i, i);
    }
    hide CrowdedAt, Ready;
  }

  lemma LastCrowded(iv: seq<Interval>, numRegs: nat, m: RegMap, active: seq<nat>, free: seq<nat>, slots: nat, i: nat,
          x: nat)
    requires Ready(iv, numRegs, m, active, free, slots, i) && |active| == numRegs && numRegs >= 1
    requires active[|active| - 1] < |iv|
    requires if iv[active[|active| - 1]].end > iv[i].end then x == active[|active| - 1] else x == i
    ensures CrowdedAt(iv, numRegs, x, i, Elems(active))
  {
    LastActive(iv, numRegs, m, active, free, slots, i);
    LastEndsLatest(iv, numRegs, m, active, free, slots, i);
    ReadyFacts(iv, numRegs, m, active, free, slots, i);
    DistinctActive(iv, numRegs, m, active, free, slots, i);
    hide ActiveOk, Partition, Safe, Kept;
    assert forall a :: a in Elems(active) ==> iv[a].start <= iv[i].start < iv[a].end;
  }

  lemma DistinctActive(iv: seq<Interval>, numRegs: nat, m: RegMap, active: seq<nat>, free: seq<nat>, slots: nat, i: nat)
    requires Ready(iv, numRegs, m, active, free, slots, i)
    ensures |Elems(active)| == |active| && i !in Elems(active)
  {
    DistinctSize(active);
    hide Partition, Safe;
  }

  // Two intervals that are live at one point have different locations.
  lemma LocationsApart(iv: seq<Interval>, numRegs: nat, m: RegMap, slots: nat)
    requires Safe(iv, numRegs, m, slots) && forall i: nat :: i in m <==> i < |iv|
    ensures forall i: nat, j: nat, t: nat :: i < |iv| && j < |iv| && i != j && LiveAt(iv[i], t) && LiveAt(iv[j], t) ==>
      m[i].isSpill != m[j].isSpill || m[i].loc != m[j].loc
    ensures forall i: nat :: i < |iv| && !m[i].isSpill ==> m[i].loc < numRegs
  {
    assert forall i: nat :: i < |iv| ==> if m[i].isSpill then i in Spilled(m) else i in Kept(m);
  }

  // Whatever is given up, the new interval or the last active one, reaches past its start.
  lemma SpillKeepsEmpty(iv: seq<Interval>, numRegs: nat, m: RegMap, active: seq<nat>, free: seq<nat>, slots: nat, i: nat)
    requires KeepsEmpty(iv, m) && Ready(iv, numRegs, m, active, free, slots, i) && active != []
    ensures var x := active[|active| - 1];
      && x in m && x < |iv| && i < |iv|
      && (iv[x].end > iv[i].end ==> KeepsEmpty(iv, Evict(m, i, AllocInfo(0, iv[i], false), x, slots)))
      && (iv[x].end <= iv[i].end ==> KeepsEmpty(iv, m[i := AllocInfo(slots, iv[i], true)]))
  {
    LastActive(iv, numRegs, m, active, free, slots, i);
    hide ActiveOk, Partition, Safe, Kept;
    var x := active[|active| - 1];
    assert x in Elems(active);
    assert iv[x].start <= iv[i].start < iv[x].end;
  }

  lemma EvictIsUpdate(m: RegMap, i: nat, iv: Interval, x: nat, s: nat)
    requires x in m && i !in m
    ensures var m1 := m[i := AllocInfo(m[x].loc, iv, false)];
      m1[x := m1[x].(isSpill := true, loc := s)] == Evict(m, i, AllocInfo(0, iv, false), x, s)
  {
  }

  lemma LastActive(iv: seq<Interval>, numRegs: nat, m: RegMap, active: seq<nat>, free: seq<nat>, slots: nat, i: nat)
    requires Ready(iv, numRegs, m, active, free, slots, i) && active != []
    ensures var x := active[|active| - 1]; x < |iv| && x in m && x in Kept(m) && x in Elems(active)
    ensures i !in Kept(m)
    ensures Below(active[..|active| - 1] + [i], |iv|)
  {
    ReadyFacts(iv, numRegs, m, active, free, slots, i);
  }

  lemma EvictLeads(iv: seq<Interval>, numRegs: nat, m: RegMap, active: seq<nat>, free: seq<nat>, slots: nat, i: nat)
    requires Ready(iv, numRegs, m, active, free, slots, i) && |active| == numRegs && numRegs >= 1
    requires var x := active[|active| - 1]; x in m && x < |iv| && iv[x].end > iv[i].end
    ensures Proper(iv) && Leads(iv, numRegs, m) ==>
      Leads(iv, numRegs, Evict(m, i, AllocInfo(0, iv[i], false), active[|active| - 1], slots))
  {
    if Proper(iv) && Leads(iv, numRegs, m) {
      hide Inv, NoClash, SlotsOk, Partition, Leads, Kept, Evict, Proper;
      var x := active[|active| - 1];
      LastActive(iv, numRegs, m, active, free, slots, i);
      KeptSpilledEvict(m, i, AllocInfo(0, iv[i], false), x, slots);
      LastEndsLatest(iv, numRegs, m, active, free, slots, i);
      LeadsSpill(iv, numRegs, m, active, free, slots, i, x, Evict(m, i, AllocInfo(0, iv[i], false), x, slots));
    }
  }

  lemma SpillLeads(iv: seq<Interval>, numRegs: nat, m: RegMap, active: seq<nat>, free: seq<nat>, slots: nat, i: nat)
    requires Ready(iv, numRegs, m, active, free, slots, i) && |active| == numRegs && numRegs >= 1
    requires var x := active[|active| - 1]; x < |iv| && iv[x].end <= iv[i].end
    ensures Proper(iv) && Leads(iv, numRegs, m) ==> Leads(iv, numRegs, m[i := AllocInfo(slots, iv[i], true)])
  {
    if Proper(iv) && Leads(iv, numRegs, m) {
      hide Inv, NoClash, SlotsOk, Partition, Leads, Kept, Proper;
      LastActive(iv, numRegs, m, active, free, slots, i);
      KeptSpilledAdd(m, i, AllocInfo(slots, iv[i], true));
      LastEndsLatest(iv, numRegs, m, active, free, slots, i);
      LeadsSpill(iv, numRegs, m, active, free, slots, i, i, m[i := AllocInfo(slots, iv[i], true)]);
    }
  }

  lemma LastEndsLatest(iv: seq<Interval>, numRegs: nat, m: RegMap, active: seq<nat>, free: seq<nat>, slots: nat, i: nat)
    requires Ready(iv, numRegs, m, active, free, slots, i) && active != []
    ensures forall a :: a in Elems(active) ==> a < |iv| && iv[a].end <= iv[active[|active| - 1]].end
  {
    forall a | a in Elems(active) ensures a < |iv| && iv[a].end <= iv[active[|active| - 1]].end {
      var k :| 0 <= k < |active| && active[k] == a;
      assert Ends(iv)[active[k]] <= Ends(iv)[active[|active| - 1]];
    }
  }

  lemma ScanOrder(iv: seq<Interval>, ids: seq<nat>, order: seq<nat>)
    requires |ids| == |iv| && forall i :: 0 <= i < |ids| ==> ids[i] == i
    requires multiset(order) == multiset(ids) && Below(order, |iv|) && SortedBy(order, Starts(iv))
    ensures Distinct(order)
    ensures forall i: nat :: i in Elems(order) <==> i < |iv|
    ensures forall j, k :: 0 <= j < k < |order| ==> iv[order[j]].start <= iv[order[k]].start
  {
    DistinctRearranged(ids, order);
    forall i: nat ensures i in Elems(order) <==> i < |iv| {
      if i < |iv| {
        assert ids[i] == i;
      }
    }
    forall j, k | 0 <= j < k < |order| ensures iv[order[j]].start <= iv[order[k]].start {
      assert Starts(iv)[order[j]] <= Starts(iv)[order[k]];
    }
  }

  lemma NextInOrder(order: seq<nat>, k: nat)
    requires Distinct(order) && k < |order|
    ensures order[k] !in Elems(order[..k])
    ensures Elems(order[..k + 1]) == Elems(order[..k]) + {order[k]}
  {
  }

  lemma ScanReady(iv: seq<Interval>, numRegs: nat, m: RegMap, active: seq<nat>, free: seq<nat>, slots: nat,
          now: nat, i: nat)
    requires Inv(iv, numRegs, m, active, free, slots, now) && i < |iv| && i !in m && now <= iv[i].start
    ensures Below(active, |iv|) && Elems(active) <= m.Keys
    ensures var (active', free') := Expire(iv, m, active, free, iv[i].start);
      Ready(iv, numRegs, m, active', free', slots, i) && |active'| <= numRegs
  {
    AdvanceInv(iv, numRegs, m, active, free, slots, now, iv[i].start);
    ExpireKeepsInv(iv, numRegs, m, active, free, slots, iv[i].start);
    var (active', free') := Expire(iv, m, active, free, iv[i].start);
    DistinctSize(active');
  }

  lemma InvIsSafe(iv: seq<Interval>, numRegs: nat, m: RegMap, active: seq<nat>, free: seq<nat>, slots: nat, now: nat)
    requires Inv(iv, numRegs, m, active, free, slots, now)
    ensures Safe(iv, numRegs, m, |Spilled(m)|)
  {
  }

  lemma EmptyInv(iv: seq<Interval>, numRegs: nat, free: seq<nat>)
    requires |free| == numRegs && forall r :: 0 <= r < numRegs ==> free[r] == numRegs - 1 - r
    ensures Inv(iv, numRegs, map[], [], free, 0, 0) && Leads(iv, numRegs, map[])
  {
    forall r: nat | r < numRegs ensures r in free {
      assert free[numRegs - 1 - r] == r;
    }
  }

  // Why minimality needs intervals that are not empty: with one register, [5, 5) pushes
  // out [0, 10), although the two never meet at a point.
  method EmptyPushesOut() returns (R: RegAlloc)
    ensures R.numRegs == 1 && Kept(R.regMap) == {1}
    ensures Feasible([Interval(0, 10), Interval(5, 5)], 1, {0, 1})
  {
    var iv := [Interval(0, 10), Interval(5, 5)];
    R := new RegAlloc(iv, 1);
    assert 1 in Kept(R.regMap);
    assert Overlap(iv[0], iv[1]);
    assert 0 !in Kept(R.regMap);
    forall t: nat ensures |Live(iv, {0, 1}, t)| <= 1 {
      assert Live(iv, {0, 1}, t) <= {0};
      SubsetSize(Live(iv, {0, 1}, t), {0});
    }
  }
}
