// Liveness and register allocation together: values that are live at the same point
// never share a location. Points lie where a block begins, after its nodes, and where it
// ends; the blocks before anything is scheduled are empty and have none.
module Backend {
  import opened Schedule
  import opened LiveRanges
  import RegAllocation

  // Position a of the interval table is the interval of node v, and it has a location.
  ghost predicate Allocated(iv: seq<RegAllocation.Interval>, rm: RegAllocation.RegMap, m: map<nat, Interval>, v: nat, a: nat) {
    && a < |iv| && a in rm
    && iv[a] == RegAllocation.Interval(Look(m, v).first, Look(m, v).second)
  }

  // Overlapping intervals get different locations.
  lemma MeetApart(iv: seq<RegAllocation.Interval>, numRegs: nat, rm: RegAllocation.RegMap, slots: nat, a: nat, b: nat)
    requires RegAllocation.Safe(iv, numRegs, rm, slots) && a in rm && b in rm && a != b && a < |iv| && b < |iv|
    requires RegAllocation.Overlap(iv[a], iv[b])
    ensures rm[a].isSpill != rm[b].isSpill || rm[a].loc != rm[b].loc
  {
    if rm[a].isSpill && rm[b].isSpill {
      assert a in RegAllocation.Spilled(rm) && b in RegAllocation.Spilled(rm);
    } else if !rm[a].isSpill && !rm[b].isSpill {
      assert a in RegAllocation.Kept(rm) && b in RegAllocation.Kept(rm);
    }
  }

  // Any two values that are live at one point.
  lemma LiveTogetherApart(c: Code, num: map<nat, nat>, blocks: map<nat, Interval>, liveIn: map<nat, set<nat>>,
        m: map<nat, Interval>, r: nat, t: nat, v: nat, w: nat, iv: seq<RegAllocation.Interval>, numRegs: nat,
        rm: RegAllocation.RegMap, slots: nat, a: nat, b: nat)
    requires Straight(c) && Placed(c) && Analysed(c, num, blocks, liveIn, m)
    requires LiveAtPoint(c, num, blocks, r, t, v) && LiveAtPoint(c, num, blocks, r, t, w)
    requires RegAllocation.Safe(iv, numRegs, rm, slots)
    requires Allocated(iv, rm, m, v, a) && Allocated(iv, rm, m, w, b) && a != b
    ensures rm[a].isSpill != rm[b].isSpill || rm[a].loc != rm[b].loc
  {
    hide Straight, Placed, Analysed, LiveAtPoint, Look, RegAllocation.Safe;
    LiveSpans(c, num, blocks, liveIn, m, r, t, v);
    LiveSpans(c, num, blocks, liveIn, m, r, t, w);
    MeetApart(iv, numRegs, rm, slots, a, b);
  }

  // A value and a node that is computed while it is live.
  lemma LiveValuesApart(c: Code, num: map<nat, nat>, blocks: map<nat, Interval>, liveIn: map<nat, set<nat>>,
        m: map<nat, Interval>, r: nat, i: nat, v: nat, iv: seq<RegAllocation.Interval>, numRegs: nat,
        rm: RegAllocation.RegMap, slots: nat, a: nat, b: nat)
    requires Straight(c) && Placed(c) && Analysed(c, num, blocks, liveIn, m)
    requires i < |ListOf(c.data, r)| && DefinedBefore(c, r, i, v) && LiveAfter(c, r, i, v)
    requires RegAllocation.Safe(iv, numRegs, rm, slots)
    requires Allocated(iv, rm, m, v, a) && Allocated(iv, rm, m, ListOf(c.data, r)[i], b)
    ensures rm[a].isSpill != rm[b].isSpill || rm[a].loc != rm[b].loc
  {
    hide Straight, Placed, Analysed, DefinedBefore, LiveAfter, Look, RegAllocation.Safe;
    LiveValuesOverlap(c, num, blocks, liveIn, m, r, i, v);
    MeetApart(iv, numRegs, rm, slots, a, b);
  }

  // A phi and a value that is there when its region begins, another phi for instance:
  // they are kept apart when both last past 0, and only then do their intervals overlap.
  lemma LivePhisApart(c: Code, num: map<nat, nat>, blocks: map<nat, Interval>, liveIn: map<nat, set<nat>>,
        m: map<nat, Interval>, r: nat, p: nat, v: nat, iv: seq<RegAllocation.Interval>, numRegs: nat,
        rm: RegAllocation.RegMap, slots: nat, a: nat, b: nat)
    requires Straight(c) && Placed(c) && Analysed(c, num, blocks, liveIn, m) && r < |c.g.succs|
    requires PhiOf(c.ns, r, p) && Wanted(c, r, p) && ThereBefore(c, r, v) && Wanted(c, r, v)
    requires RegAllocation.Safe(iv, numRegs, rm, slots)
    requires Allocated(iv, rm, m, v, a) && Allocated(iv, rm, m, p, b) && a != b
    ensures RegAllocation.Overlap(iv[a], iv[b]) <==> Lasts(c, v) && Lasts(c, p)
    ensures r in c.data ==> Lasts(c, v) && Lasts(c, p)
    ensures Lasts(c, v) && Lasts(c, p) ==> rm[a].isSpill != rm[b].isSpill || rm[a].loc != rm[b].loc
  {
    hide Straight, Placed, Analysed, Wanted, ThereBefore, Look, Lasts, PhiOf, RegAllocation.Safe;
    PhiMeets(c, num, blocks, liveIn, m, r, p, v);
    if r in c.data {
      PhiOverlaps(c, num, blocks, liveIn, m, r, p, v);
    }
    if Lasts(c, v) && Lasts(c, p) {
      MeetApart(iv, numRegs, rm, slots, a, b);
    }
  }
}
