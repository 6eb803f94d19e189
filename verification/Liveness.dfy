// Live-in sets, live numbers and live intervals (src/Analyses/Liveness.hpp) of a
// function without loops.
module LiveRanges {
  import opened SeqUtil
  import opened ControlFlow
  import opened NaturalLoops
  import opened UseDef
  import opened RegionEdges
  import opened Schedule
  import opened LinearOrder
  import opened Dominators

  // What the analysis reads: the nodes, the linear order and the scheduled nodes of each region.
  datatype Code = Code(ns: Nodes, g: Cfg, order: seq<nat>, data: map<nat, seq<nat>>)

  datatype Interval = Interval(first: nat, second: nat)

  function Look(m: map<nat, Interval>, v: nat): Interval {
    if v in m then m[v] else Interval(0, 0)
  }

  function NumOf(num: map<nat, nat>, v: nat): nat {
    if v in num then num[v] else 0
  }

  function Min(a: nat, b: nat): nat { if a < b then a else b }

  function Max(a: nat, b: nat): nat { if a < b then b else a }

  // ---------------------------------------------------------------- definitions and uses

  // The phis of region r.
  predicate PhiOf(ns: Nodes, r: nat, v: nat) {
    v < |ns| && ns[v].kind.Phi? && RegionAt(ns, SlotOr(ns[v].ops, 0)) == Some(r)
  }

  ghost predicate Defined(c: Code, r: nat, v: nat) {
    v in ListOf(c.data, r) || PhiOf(c.ns, r, v)
  }

  ghost predicate Reads(ns: Nodes, u: nat, v: nat) {
    u < |ns| && Some(v) in ns[u].ops
  }

  // Some node of the list reads v before the list defines it.
  ghost predicate Exposed(ns: Nodes, xs: seq<nat>, v: nat) {
    exists i :: ExposedAt(ns, xs, v, i)
  }

  ghost predicate ExposedAt(ns: Nodes, xs: seq<nat>, v: nat, i: nat) {
    i < |xs| && Reads(ns, xs[i], v) && v !in xs[..i]
  }

  // A phi takes v from predecessor r.
  ghost predicate EdgeUse(c: Code, r: nat, v: nat) {
    exists u: nat, i: nat :: IsPhi(c.ns, u) && PhiNeeds(c.ns, c.g, u, i, v, r)
  }

  // Along p nothing defines v, and its last region uses v before defining it.
  ghost predicate UsePath(c: Code, p: seq<nat>, v: nat) {
    && IsPath(c.g, p)
    && (forall i :: 0 <= i < |p| - 1 ==> !Defined(c, p[i], v))
    && EndUse(c, p[|p| - 1], v)
  }

  ghost predicate EndUse(c: Code, e: nat, v: nat) {
    || (Exposed(c.ns, ListOf(c.data, e), v) && !PhiOf(c.ns, e, v))
    || (EdgeUse(c, e, v) && !Defined(c, e, v))
  }

  // v is live where r begins; the phis of r are not, their values arrive along the edges.
  ghost predicate LiveAt(c: Code, r: nat, v: nat) {
    exists p :: UsePath(c, p, v) && p[0] == r
  }

  ghost predicate LiveOut(c: Code, r: nat, v: nat) {
    EdgeUse(c, r, v) || exists s: nat :: c.g.Edge(r, s) && LiveAt(c, s, v)
  }

  // The path form and the flow equation agree.
  lemma LiveUnfold(c: Code, r: nat, v: nat)
    requires r < |c.g.succs|
    ensures LiveAt(c, r, v) <==>
      !PhiOf(c.ns, r, v) && (Exposed(c.ns, ListOf(c.data, r), v) || (v !in ListOf(c.data, r) && LiveOut(c, r, v)))
  {
    hide Exposed, EdgeUse, PhiOf;
    if LiveAt(c, r, v) {
      var p :| UsePath(c, p, v) && p[0] == r;
      if |p| > 1 {
        assert c.g.Edge(p[0], p[1]);
        PathSuffix(c.g, p, 1);
        assert UsePath(c, p[1..], v) && p[1..][0] == p[1];
      }
    }
    if EndUse(c, r, v) {
      assert UsePath(c, [r], v);
    } else if !Defined(c, r, v) && LiveOut(c, r, v) {
      var s: nat :| c.g.Edge(r, s) && LiveAt(c, s, v);
      var p :| UsePath(c, p, v) && p[0] == s;
      assert IsPath(c.g, [r]);
      PathAppend(c.g, [r], s);
      assert [r] + [s] == [r, s];
      PathJoin(c.g, [r, s], p);
      assert [r, s] + p[1..] == [r] + p;
      assert UsePath(c, [r] + p, v);
    }
  }

  lemma ExposedCons(ns: Nodes, x: nat, ys: seq<nat>, v: nat)
    ensures Exposed(ns, [x] + ys, v) <==> Reads(ns, x, v) || (v != x && Exposed(ns, ys, v))
  {
    hide Reads;
    var xs := [x] + ys;
    if Reads(ns, x, v) {
      assert ExposedAt(ns, xs, v, 0);
    }
    if v != x && Exposed(ns, ys, v) {
      var i: nat :| ExposedAt(ns, ys, v, i);
      assert xs[..i + 1] == [x] + ys[..i];
      assert ExposedAt(ns, xs, v, i + 1);
    }
    if i: nat :| ExposedAt(ns, xs, v, i) {
      if i > 0 {
        assert xs[..i] == [x] + ys[..i - 1];
        assert ExposedAt(ns, ys, v, i - 1);
      }
    }
  }

  // ---------------------------------------------------------------- the functions that are analysed

  // Definitions come before uses, in the same region or in a dominating one.
  ghost predicate Placed(c: Code) {
    && (forall r: nat :: Distinct(ListOf(c.data, r)))
    && (forall r: nat, v: nat {:trigger v in ListOf(c.data, r)} :: v in ListOf(c.data, r) ==> r < |c.g.succs| && v < |c.ns| && IsData(c.ns[v].kind))
    && (forall r: nat, s: nat, v: nat :: v in ListOf(c.data, r) && v in ListOf(c.data, s) ==> r == s)
    && (forall r: nat, i: nat, d: nat, v: nat :: i < |ListOf(c.data, r)| && Reads(c.ns, ListOf(c.data, r)[i], v) && Defined(c, d, v) ==>
      if d == r then PhiOf(c.ns, r, v) || v in ListOf(c.data, r)[..i] else Dominates(c.g, d, r))
    && forall r: nat, d: nat, v: nat :: EdgeUse(c, r, v) && Defined(c, d, v) ==> Dominates(c.g, d, r)
  }

  ghost predicate Full(ns: Nodes, u: nat)
    requires u < |ns|
  {
    forall k :: 0 <= k < |ns[u].ops| ==> ns[u].ops[k].Some?
  }

  ghost predicate ListedRegion(g: Cfg, r: Option<nat>) {
    r.Some? && g.Listed(r.value)
  }

  // A function without loops, in forward order.
  ghost predicate Straight(c: Code) {
    && Sound(c.g) && Forward(c.g, c.order)
    && Distinct(c.order) && (forall r: nat :: r in c.order <==> r < |c.g.succs|)
    && (forall r :: 0 <= r < |c.g.preds| ==> Distinct(c.g.preds[r]))
    && (forall r: nat, u: nat {:trigger u in ListOf(c.data, r)} :: u in ListOf(c.data, r) && u < |c.ns| ==> Full(c.ns, u))
    && (forall u: nat :: IsPhi(c.ns, u) ==>
      Full(c.ns, u) && UserOk(c.ns, c.g, u) && ListedRegion(c.g, RegionAt(c.ns, SlotOr(c.ns[u].ops, 0))))
  }

  lemma {:induction false} PathForward(g: Cfg, order: seq<nat>, p: seq<nat>)
    requires Forward(g, order) && IsPath(g, p) && |p| > 1
    ensures Precedes(order, p[0], p[|p| - 1])
    decreases |p|
  {
    assert g.Edge(p[0], p[1]);
    if |p| > 2 {
      PathSuffix(g, p, 1);
      PathForward(g, order, p[1..]);
    }
  }

  lemma DominatorPrecedes(g: Cfg, order: seq<nat>, d: nat, r: nat)
    requires Forward(g, order) && Reachable(g, r) && Dominates(g, d, r) && d != r
    ensures Precedes(order, d, r)
  {
    var p :| PathBetween(g, p, g.start, r);
    assert d in p;
    var k :| 0 <= k < |p| && p[k] == d;
    PathSuffix(g, p, k);
    PathForward(g, order, p[k..]);
  }

  // A region where v is live lies strictly below the definition of v.
  lemma LiveBelowDefinition(c: Code, r: nat, d: nat, v: nat)
    requires Placed(c) && LiveAt(c, r, v) && Defined(c, d, v)
    ensures d != r && Dominates(c.g, d, r)
  {
    var p :| UsePath(c, p, v) && p[0] == r;
    var e := p[|p| - 1];
    UseBelowDefinition(c, e, d, v);
    assert d !in p;
    forall q | PathBetween(c.g, q, c.g.start, r) ensures d in q {
      PathJoin(c.g, q, p);
      assert d in q + p[1..];
    }
  }

  lemma UseBelowDefinition(c: Code, e: nat, d: nat, v: nat)
    requires Placed(c) && EndUse(c, e, v) && Defined(c, d, v)
    ensures d != e && Dominates(c.g, d, e)
  {
    hide Reads, EdgeUse, PhiOf, Dominates;
    if Exposed(c.ns, ListOf(c.data, e), v) && !PhiOf(c.ns, e, v) {
      var i: nat :| ExposedAt(c.ns, ListOf(c.data, e), v, i);
    }
  }

  lemma LiveOutBelowDefinition(c: Code, r: nat, d: nat, v: nat)
    requires Placed(c) && LiveOut(c, r, v) && Defined(c, d, v)
    ensures Dominates(c.g, d, r)
  {
    if !EdgeUse(c, r, v) {
      var s: nat :| c.g.Edge(r, s) && LiveAt(c, s, v);
      LiveBelowDefinition(c, s, d, v);
      forall q | PathBetween(c.g, q, c.g.start, r) ensures d in q {
        PathAppend(c.g, q, s);
        assert d in q + [s];
      }
    }
  }

  // ---------------------------------------------------------------- live numbers

  // The first k blocks of the order are numbered consecutively from 0, the nodes
  // of a block two apart; phis carry the number of the block start. A region
  // missing from the data map has an empty block, and its phis have no number.
  ghost predicate Numbered(c: Code, num: map<nat, nat>, blocks: map<nat, Interval>, k: nat, next: nat)
    requires k <= |c.order|
  {
    && (if k == 0 then next == 0 else Look(blocks, c.order[0]).first == 0 && Look(blocks, c.order[k - 1]).second == next)
    && (forall j :: 0 <= j < k ==> BlockOk(c, num, c.order[j], Look(blocks, c.order[j])) && Look(blocks, c.order[j]).second <= next)
    && (forall i, j :: 0 <= i < j < k && j == i + 1 ==> Look(blocks, c.order[i]).second == Look(blocks, c.order[j]).first)
    && (forall i, j :: 0 <= i < j < k ==> Look(blocks, c.order[i]).second <= Look(blocks, c.order[j]).first)
    && (forall v: nat, r: nat :: v in num && PhiOf(c.ns, r, v) ==> r in c.data)
  }

  ghost predicate BlockOk(c: Code, num: map<nat, nat>, r: nat, b: Interval) {
    if r in c.data then
      && b.second == b.first + 2 * |c.data[r]| + 2
      && (forall v: nat :: PhiOf(c.ns, r, v) ==> v in num && num[v] == b.first)
      && (forall i :: 0 <= i < |c.data[r]| ==> c.data[r][i] in num && num[c.data[r][i]] == b.first + 2 * i + 2)
    else b.second == b.first
  }

  // Numbers given to other nodes do not disturb a block.
  lemma BlockStays(c: Code, num: map<nat, nat>, num': map<nat, nat>, r: nat, b: Interval)
    requires BlockOk(c, num, r, b)
    requires forall v: nat :: Defined(c, r, v) && v in num ==> v in num' && num'[v] == num[v]
    ensures BlockOk(c, num', r, b)
  {
    if r in c.data {
      forall i | 0 <= i < |c.data[r]| ensures c.data[r][i] in num' && num'[c.data[r][i]] == b.first + 2 * i + 2 {
        assert Defined(c, r, c.data[r][i]);
      }
    }
  }

  // num' adds numbers for what region r defines, and keeps all others.
  ghost predicate AddsFor(c: Code, r: nat, num: map<nat, nat>, num': map<nat, nat>) {
    && (forall v: nat :: v !in num' <==> v !in num && !(r in c.data && Defined(c, r, v)))
    && (forall v: nat :: v in num && !Defined(c, r, v) ==> num'[v] == num[v])
  }

  lemma OtherBlockStays(c: Code, num: map<nat, nat>, num': map<nat, nat>, r: nat, s: nat, b: Interval)
    requires Placed(c) && r != s && BlockOk(c, num, s, b) && AddsFor(c, r, num, num')
    ensures BlockOk(c, num', s, b)
  {
    OneDefinition(c, s, r);
    hide Placed, BlockOk;
    BlockStays(c, num, num', s, b);
  }

  lemma NumberNext(c: Code, num: map<nat, nat>, num': map<nat, nat>, blocks: map<nat, Interval>, k: nat, next: nat,
          b: Interval)
    requires Distinct(c.order) && Placed(c) && k < |c.order| && Numbered(c, num, blocks, k, next)
    requires AddsFor(c, c.order[k], num, num')
    requires b.first == next <= b.second && BlockOk(c, num', c.order[k], b)
    ensures Numbered(c, num', blocks[c.order[k] := b], k + 1, b.second)
  {
    hide Placed, BlockOk, AddsFor, PhiOf;
    var r := c.order[k];
    var blocks' := blocks[r := b];
    assert forall j :: 0 <= j < k ==> Look(blocks', c.order[j]) == Look(blocks, c.order[j]);
    forall j | 0 <= j < k ensures BlockOk(c, num', c.order[j], Look(blocks', c.order[j])) {
      OtherBlockStays(c, num, num', r, c.order[j], Look(blocks, c.order[j]));
    }
    NumberedPhis(c, num, num', r);
  }

  lemma NumberedPhis(c: Code, num: map<nat, nat>, num': map<nat, nat>, r: nat)
    requires AddsFor(c, r, num, num')
    requires forall v: nat, s: nat :: v in num && PhiOf(c.ns, s, v) ==> s in c.data
    requires Placed(c)
    ensures forall v: nat, s: nat :: v in num' && PhiOf(c.ns, s, v) ==> s in c.data
  {
    forall v: nat, s: nat | v in num' && PhiOf(c.ns, s, v) ensures s in c.data {
      assert v !in ListOf(c.data, r) || IsData(c.ns[v].kind);
    }
  }

  lemma OneDefinition(c: Code, r: nat, s: nat)
    requires Placed(c) && r != s
    ensures forall v: nat :: Defined(c, r, v) ==> !Defined(c, s, v)
  {
  }

  // ---------------------------------------------------------------- one block

  // v must last until t because a node of xs defines or reads it.
  ghost predicate BodyReason(ns: Nodes, num: map<nat, nat>, xs: seq<nat>, v: nat, t: nat) {
    || (v in xs && t == NumOf(num, v) + 2)
    || exists i :: 0 <= i < |xs| && Reads(ns, xs[i], v) && t == NumOf(num, xs[i])
  }

  // v must last until t because of block r.
  ghost predicate Reason(c: Code, num: map<nat, nat>, r: nat, bb: Interval, v: nat, t: nat) {
    (LiveOut(c, r, v) && t == bb.second) || BodyReason(c.ns, num, ListOf(c.data, r), v, t)
  }

  ghost predicate ReadIn(ns: Nodes, xs: seq<nat>, v: nat) {
    exists i :: 0 <= i < |xs| && Reads(ns, xs[i], v)
  }

  // The nodes xs, taken from the last to the first, turn m into m'.
  ghost predicate BodyEffect(ns: Nodes, num: map<nat, nat>, xs: seq<nat>, m: map<nat, Interval>, m': map<nat,
          Interval>) {
    && (forall v: nat :: BodyEnd(ns, num, xs, v, Look(m, v).second, Look(m', v).second))
    && (forall v: nat :: BodyStart(ns, num, xs, v, Look(m, v).first, Look(m', v).first))
  }

  // Ends only grow, as far as there is a reason and no further.
  ghost predicate BodyEnd(ns: Nodes, num: map<nat, nat>, xs: seq<nat>, v: nat, e: nat, e': nat) {
    && e <= e'
    && (forall t: nat :: BodyReason(ns, num, xs, v, t) ==> t <= e')
    && (e' == e || BodyReason(ns, num, xs, v, e'))
  }

  ghost predicate BodyStart(ns: Nodes, num: map<nat, nat>, xs: seq<nat>, v: nat, f: nat, f': nat) {
    if v in xs then f' == NumOf(num, v) else (f == 0 ==> f' == 0) && (!ReadIn(ns, xs, v) ==> f' == f)
  }

  lemma ReasonCons(ns: Nodes, num: map<nat, nat>, x: nat, ys: seq<nat>, v: nat, t: nat)
    ensures BodyReason(ns, num, [x] + ys, v, t) <==>
      BodyReason(ns, num, ys, v, t) || (v == x && t == NumOf(num, x) + 2) || (Reads(ns, x, v) && t == NumOf(num, x))
    ensures ReadIn(ns, [x] + ys, v) <==> Reads(ns, x, v) || ReadIn(ns, ys, v)
  {
    hide Reads, NumOf;
    var xs := [x] + ys;
    assert xs[0] == x;
    forall i | 0 <= i < |ys| ensures xs[i + 1] == ys[i] {
    }
    if i :| 0 <= i < |ys| && Reads(ns, ys[i], v) && t == NumOf(num, ys[i]) {
      assert Reads(ns, xs[i + 1], v);
    }
    if i :| 0 <= i < |ys| && Reads(ns, ys[i], v) {
      assert Reads(ns, xs[i + 1], v);
    }
  }

  function Shortened(i: Interval, n: nat): Interval {
    Interval(n, if i.second < n + 2 then n + 2 else i.second)
  }

  function Widened(i: Interval, first: nat, second: nat): Interval {
    Interval(Min(first, i.first), Max(second, i.second))
  }

  // One node: its own interval starts at it, those of its operands reach it.
  function NodeEffect(own: bool, read: bool, n: nat, first: nat, i: Interval): Interval {
    var i' := if own then Shortened(i, n) else i;
    if read then Widened(i', first, n) else i'
  }

  lemma BodyStep(ns: Nodes, num: map<nat, nat>, x: nat, ys: seq<nat>, first: nat, m0: map<nat, Interval>,
          m: map<nat, Interval>, m': map<nat, Interval>)
    requires BodyEffect(ns, num, ys, m0, m) && x !in ys
    requires forall v: nat :: Reads(ns, x, v) ==> v != x && v !in ys
    requires forall v: nat :: Look(m', v) == NodeEffect(v == x, Reads(ns, x, v), NumOf(num, x), first, Look(m, v))
    ensures BodyEffect(ns, num, [x] + ys, m0, m')
  {
    hide Reads, Look, BodyReason, ReadIn;
    forall v: nat
      ensures BodyEnd(ns, num, [x] + ys, v, Look(m0, v).second, Look(m', v).second)
      ensures BodyStart(ns, num, [x] + ys, v, Look(m0, v).first, Look(m', v).first)
    {
      assert BodyEnd(ns, num, ys, v, Look(m0, v).second, Look(m, v).second);
      assert BodyStart(ns, num, ys, v, Look(m0, v).first, Look(m, v).first);
      forall t: nat
        ensures BodyReason(ns, num, [x] + ys, v, t) <==>
          BodyReason(ns, num, ys, v, t) || (v == x && t == NumOf(num, x) + 2) || (Reads(ns, x, v) && t == NumOf(num, x))
      {
        ReasonCons(ns, num, x, ys, v, t);
      }
      ReasonCons(ns, num, x, ys, v, 0);
    }
  }

  // ---------------------------------------------------------------- the whole block

  // What the pass over block r does to the intervals.
  ghost predicate BlockEffect(c: Code, num: map<nat, nat>, r: nat, bb: Interval, m: map<nat, Interval>, m': map<nat,
          Interval>) {
    && (forall v: nat :: BlockEnd(c, num, r, bb, v, Look(m, v).second, Look(m', v).second))
    && (forall v: nat :: BlockStart(c, num, r, v, Look(m, v).first, Look(m', v).first))
  }

  ghost predicate BlockEnd(c: Code, num: map<nat, nat>, r: nat, bb: Interval, v: nat, e: nat, e': nat) {
    && e <= e'
    && (forall t: nat :: Reason(c, num, r, bb, v, t) ==> t <= e')
    && (e' == e || Reason(c, num, r, bb, v, e'))
  }

  ghost predicate BlockStart(c: Code, num: map<nat, nat>, r: nat, v: nat, f: nat, f': nat) {
    if Defined(c, r, v) then f' == NumOf(num, v)
    else (f == 0 ==> f' == 0) && (!LiveOut(c, r, v) && !ReadIn(c.ns, ListOf(c.data, r), v) ==> f' == f)
  }

  // Live at the end, then the nodes, then the phis.
  lemma BlockParts(c: Code, num: map<nat, nat>, r: nat, bb: Interval, m: map<nat, Interval>, m1: map<nat, Interval>,
          m2: map<nat, Interval>, m': map<nat, Interval>)
    requires forall v: nat :: Look(m1, v) == if LiveOut(c, r, v) then Widened(Look(m, v), bb.first, bb.second) else Look(m, v)
    requires BodyEffect(c.ns, num, ListOf(c.data, r), m1, m2)
    requires forall v: nat :: Look(m', v) == if PhiOf(c.ns, r, v) then Interval(NumOf(num, v), Look(m2, v).second) else Look(m2, v)
    requires forall v: nat :: v in ListOf(c.data, r) ==> !PhiOf(c.ns, r, v)
    ensures BlockEffect(c, num, r, bb, m, m')
  {
    hide Look, LiveOut, BodyReason, ReadIn, PhiOf;
    forall v: nat
      ensures BlockEnd(c, num, r, bb, v, Look(m, v).second, Look(m', v).second)
      ensures BlockStart(c, num, r, v, Look(m, v).first, Look(m', v).first)
    {
      assert BodyEnd(c.ns, num, ListOf(c.data, r), v, Look(m1, v).second, Look(m2, v).second);
      assert BodyStart(c.ns, num, ListOf(c.data, r), v, Look(m1, v).first, Look(m2, v).first);
    }
  }

  // ---------------------------------------------------------------- all blocks

  function BlockOf(blocks: map<nat, Interval>, r: nat): Interval {
    Look(blocks, r)
  }

  // The blocks from position k of the order on have been processed.
  ghost predicate Solved(c: Code, liveIn: map<nat, set<nat>>, k: nat) {
    forall j :: k <= j < |c.order| ==> LiveInOk(c, liveIn, c.order[j])
  }

  ghost predicate LiveInOk(c: Code, liveIn: map<nat, set<nat>>, r: nat) {
    r in liveIn && forall v: nat :: v in liveIn[r] <==> LiveAt(c, r, v)
  }

  ghost predicate ReasonFrom(c: Code, num: map<nat, nat>, blocks: map<nat, Interval>, k: nat, v: nat, t: nat) {
    exists j :: k <= j < |c.order| && Reason(c, num, c.order[j], BlockOf(blocks, c.order[j]), v, t)
  }

  ghost predicate DefinedFrom(c: Code, k: nat, v: nat) {
    exists j :: k <= j < |c.order| && Defined(c, c.order[j], v)
  }

  // The interval of v as asked for by the blocks from k on.
  ghost predicate Range(c: Code, num: map<nat, nat>, blocks: map<nat, Interval>, k: nat, v: nat, i: Interval) {
    && (forall t: nat :: ReasonFrom(c, num, blocks, k, v, t) ==> t <= i.second)
    && (i.second == 0 || ReasonFrom(c, num, blocks, k, v, i.second))
    && i.first == if DefinedFrom(c, k, v) then NumOf(num, v) else 0
  }

  ghost predicate Ranges(c: Code, num: map<nat, nat>, blocks: map<nat, Interval>, m: map<nat, Interval>, k: nat) {
    forall v: nat :: Range(c, num, blocks, k, v, Look(m, v))
  }

  // Before its definition a value is neither live nor read.
  lemma NotYet(c: Code, k: nat, j: nat, v: nat)
    requires Straight(c) && Placed(c) && k < j < |c.order| && Defined(c, c.order[j], v)
    ensures !Defined(c, c.order[k], v) && !LiveOut(c, c.order[k], v) && !ReadIn(c.ns, ListOf(c.data, c.order[k]), v)
  {
    hide LiveOut, Reads, PhiOf;
    var r, d := c.order[k], c.order[j];
    assert r in c.order && d in c.order;
    OneDefinition(c, d, r);
    assert !Dominates(c.g, d, r) by {
      if Dominates(c.g, d, r) {
        assert Reachable(c.g, r);
        DominatorPrecedes(c.g, c.order, d, r);
      }
    }
    if LiveOut(c, r, v) {
      LiveOutBelowDefinition(c, r, d, v);
    }
  }

  lemma RangesNext(c: Code, num: map<nat, nat>, blocks: map<nat, Interval>, k: nat, m: map<nat, Interval>,
          m': map<nat, Interval>)
    requires Straight(c) && Placed(c) && k < |c.order| && Ranges(c, num, blocks, m, k + 1)
    requires BlockEffect(c, num, c.order[k], BlockOf(blocks, c.order[k]), m, m')
    ensures Ranges(c, num, blocks, m', k)
  {
    hide Straight, Placed, Look, BlockOf, Reason, Defined, LiveOut, ReadIn;
    var r := c.order[k];
    forall v: nat ensures Range(c, num, blocks, k, v, Look(m', v)) {
      assert Range(c, num, blocks, k + 1, v, Look(m, v));
      assert BlockEnd(c, num, r, BlockOf(blocks, r), v, Look(m, v).second, Look(m', v).second);
      assert BlockStart(c, num, r, v, Look(m, v).first, Look(m', v).first);
      forall t: nat
        ensures ReasonFrom(c, num, blocks, k, v, t) <==> ReasonFrom(c, num, blocks, k + 1, v, t) || Reason(c, num, r, BlockOf(blocks, r), v, t)
      {
      }
      assert DefinedFrom(c, k, v) <==> DefinedFrom(c, k + 1, v) || Defined(c, r, v);
      if !Defined(c, r, v) && DefinedFrom(c, k + 1, v) {
        var j: nat :| k + 1 <= j < |c.order| && Defined(c, c.order[j], v);
        NotYet(c, k, j, v);
      }
    }
  }

  // ---------------------------------------------------------------- the result

  ghost predicate Analysed(c: Code, num: map<nat, nat>, blocks: map<nat, Interval>, liveIn: map<nat, set<nat>>,
          m: map<nat, Interval>) {
    && (exists next: nat :: Numbered(c, num, blocks, |c.order|, next))
    && (forall r: nat :: r < |c.g.succs| ==> LiveInOk(c, liveIn, r))
    && Ranges(c, num, blocks, m, 0)
  }

  class Liveness {
    var liveNumbers: map<nat, nat>
    var liveIn: map<nat, set<nat>>
    // The entries of the interval table for regions and for nodes.
    var blocks: map<nat, Interval>
    var intervals: map<nat, Interval>

    constructor (c: Code)
      requires Straight(c) && Placed(c)
      ensures Analysed(c, liveNumbers, blocks, liveIn, intervals)
    {
      liveNumbers, liveIn, blocks, intervals := map[], map[], map[], map[];
      new;
      Recalc(c);
    }

    method Recalc(c: Code)
      requires Straight(c) && Placed(c) && liveIn == map[] && blocks == map[] && intervals == map[]
      modifies this
      ensures Analysed(c, liveNumbers, blocks, liveIn, intervals)
    {
      hide Straight, Placed, Numbered, Range, ReasonFrom, LiveInOk, BlockEffect;
      ghost var next: nat;
      liveNumbers, next := LiveNumbers(c);
      NoRanges(c, liveNumbers, blocks);
      ghost var numbers, bs := liveNumbers, blocks;
      for k := |c.order| downto 0
        invariant liveNumbers == numbers && blocks == bs
        invariant Solved(c, liveIn, k) && Ranges(c, numbers, bs, intervals, k)
      {
        var r := c.order[k];
        ghost var before := intervals;
        var live := Block(c, k);
        RangesNext(c, numbers, bs, k, before, intervals);
        SolvedNext(c, liveIn, k, live);
        liveIn := liveIn[r := live];
      }
      AllSolved(c, liveIn);
    }

    // Number phis and nodes along the linear order.
    method LiveNumbers(c: Code) returns (res: map<nat, nat>, ghost next: nat)
      requires Straight(c) && Placed(c) && blocks == map[]
      modifies this`blocks
      ensures Numbered(c, res, blocks, |c.order|, next)
    {
      hide Straight, Placed, Numbered, BlockOk, AddsFor;
      res := map[];
      var cur: nat := 0;
      NothingNumbered(c, blocks);
      DistinctOrder(c);
      for k := 0 to |c.order|
        invariant Numbered(c, res, blocks, k, cur)
      {
        var r := c.order[k];
        var liveFrom := cur;
        if r !in c.data {
          EmptyBlock(c, r, res, liveFrom);
          NumberNext(c, res, res, blocks, k, cur, Interval(liveFrom, liveFrom));
          blocks := blocks[r := Interval(liveFrom, liveFrom)];
          continue;
        }
        DistinctNodes(c, r);
        var withPhis := NumberPhis(c, r, res, cur);
        var withNodes := NumberNodes(c, r, withPhis, cur);
        cur := liveFrom + 2 * |c.data[r]| + 2;
        FilledBlock(c, r, res, withPhis, withNodes, liveFrom);
        NumberNext(c, res, withNodes, blocks, k, liveFrom, Interval(liveFrom, cur));
        res := withNodes;
        blocks := blocks[r := Interval(liveFrom, cur)];
      }
      next := cur;
    }

    static method NumberPhis(c: Code, r: nat, num: map<nat, nat>, cur: nat) returns (res: map<nat, nat>)
      ensures forall v: nat :: v in res <==> v in num || PhiOf(c.ns, r, v)
      ensures forall v: nat :: v in res ==> res[v] == if PhiOf(c.ns, r, v) then cur else num[v]
    {
      var phis := Phis(c.ns, r);
      res := num;
      for i := 0 to |phis|
        invariant forall v: nat :: v in res <==> v in num || v in phis[..i]
        invariant forall v: nat :: v in res ==> res[v] == if v in phis[..i] then cur else num[v]
      {
        res := res[phis[i] := cur];
        assert phis[..i + 1] == phis[..i] + [phis[i]];
      }
      assert phis[..|phis|] == phis;
    }

    static method NumberNodes(c: Code, r: nat, num: map<nat, nat>, liveFrom: nat) returns (res: map<nat, nat>)
      requires r in c.data && Distinct(c.data[r])
      ensures forall v: nat :: v in res <==> v in num || v in c.data[r]
      ensures forall v: nat :: v in num && v !in c.data[r] ==> res[v] == num[v]
      ensures forall i :: 0 <= i < |c.data[r]| ==> c.data[r][i] in res && res[c.data[r][i]] == liveFrom + 2 * i + 2
    {
      var insts := c.data[r];
      var cur := liveFrom;
      res := num;
      for i := 0 to |insts|
        invariant cur == liveFrom + 2 * i
        invariant forall v: nat :: v in res <==> v in num || v in insts[..i]
        invariant forall v: nat :: v in num && v !in insts[..i] ==> res[v] == num[v]
        invariant forall j :: 0 <= j < i ==> insts[j] in res && res[insts[j]] == liveFrom + 2 * j + 2
      {
        cur := cur + 2;
        res := res[insts[i] := cur];
        assert insts[..i + 1] == insts[..i] + [insts[i]];
      }
      assert insts[..|insts|] == insts;
    }

    // One block, from its end to its start.
    method Block(c: Code, k: nat) returns (live: set<nat>)
      requires Straight(c) && Placed(c) && k < |c.order| && Solved(c, liveIn, k + 1)
      modifies this`intervals
      ensures forall v: nat :: v in live <==> LiveAt(c, c.order[k], v)
      ensures BlockEffect(c, liveNumbers, c.order[k], BlockOf(blocks, c.order[k]), old(intervals), intervals)
    {
      hide Straight, Placed, Solved, LiveAt, LiveOut, BodyEffect, PhiOf, Exposed;
      var r := c.order[k];
      var bb := BlockOf(blocks, r);
      ghost var m0 := intervals;
      live := CollectLive(c, k);
      ExtendLive(live, bb);
      ghost var m1 := intervals;
      ghost var out := live;
      live := Body(c, r, live, bb);
      ghost var m2 := intervals;
      live := DropPhis(c, r, live);
      NodesAreNoPhis(c, r);
      BlockParts(c, liveNumbers, r, bb, m0, m1, m2, intervals);
      forall v: nat ensures v in live <==> LiveAt(c, r, v) {
        RegionBound(c, k);
        LiveUnfold(c, r, v);
      }
    }

    method ExtendLive(live: set<nat>, bb: Interval)
      modifies this`intervals
      ensures forall v: nat :: Look(intervals, v) == if v in live then Widened(Look(old(intervals), v), bb.first, bb.second) else Look(old(intervals), v)
    {
      var rest := live;
      while rest != {}
        invariant rest <= live
        invariant forall v: nat ::
          Look(intervals, v) == if v in live && v !in rest then Widened(Look(old(intervals), v), bb.first, bb.second) else Look(old(intervals), v)
        decreases |rest|
      {
        var ins :| ins in rest;
        intervals := intervals[ins := Widened(Look(intervals, ins), bb.first, bb.second)];
        rest := rest - {ins};
      }
    }

    method Body(c: Code, r: nat, live: set<nat>, bb: Interval) returns (live': set<nat>)
      requires Straight(c) && Placed(c)
      modifies this`intervals
      ensures forall v: nat :: v in live' <==> (v in live && v !in ListOf(c.data, r)) || Exposed(c.ns, ListOf(c.data, r), v)
      ensures BodyEffect(c.ns, liveNumbers, ListOf(c.data, r), old(intervals), intervals)
    {
      hide Straight, Placed, BodyEffect, Reads, Exposed;
      var xs := ListOf(c.data, r);
      live' := live;
      NoBody(c.ns, liveNumbers, intervals);
      assert xs[|xs|..] == [];
      for i := |xs| downto 0
        invariant forall v: nat :: v in live' <==> (v in live && v !in xs[i..]) || Exposed(c.ns, xs[i..], v)
        invariant BodyEffect(c.ns, liveNumbers, xs[i..], old(intervals), intervals)
      {
        var x := xs[i];
        assert xs[i..] == [x] + xs[i + 1..];
        NodeFacts(c, r, i);
        ghost var m, before := intervals, live';
        var n := NumOf(liveNumbers, x);
        intervals := intervals[x := Shortened(Look(intervals, x), n)];
        live' := live' - {x};
        live' := ReadOperands(c, x, n, bb.first, live');
        BodyStep(c.ns, liveNumbers, x, xs[i + 1..], bb.first, old(intervals), m, intervals);
        forall v: nat ensures Exposed(c.ns, xs[i..], v) <==> Reads(c.ns, x, v) || (v != x && Exposed(c.ns, xs[i + 1..], v)) {
          ExposedCons(c.ns, x, xs[i + 1..], v);
        }
      }
      assert xs[0..] == xs;
    }

    method ReadOperands(c: Code, x: nat, n: nat, first: nat, live: set<nat>) returns (live': set<nat>)
      requires x < |c.ns| && Full(c.ns, x)
      modifies this`intervals
      ensures forall v: nat :: v in live' <==> v in live || Reads(c.ns, x, v)
      ensures forall v: nat ::
        Look(intervals, v) == if Reads(c.ns, x, v) then Widened(Look(old(intervals), v), first, n) else Look(old(intervals), v)
    {
      var ops := c.ns[x].ops;
      live' := live;
      for i := 0 to |ops|
        invariant forall v: nat :: v in live' <==> v in live || Some(v) in ops[..i]
        invariant forall v: nat ::
          Look(intervals, v) == if Some(v) in ops[..i] then Widened(Look(old(intervals), v), first, n) else Look(old(intervals), v)
      {
        var input: nat := ops[i].value;
        intervals := intervals[input := Widened(Look(intervals, input), first, n)];
        live' := live' + {input};
        assert ops[..i + 1] == ops[..i] + [ops[i]];
        assert forall v: nat :: Some(v) in ops[..i + 1] <==> Some(v) in ops[..i] || v == input;
      }
      assert ops[..|ops|] == ops;
    }

    method DropPhis(c: Code, r: nat, live: set<nat>) returns (live': set<nat>)
      modifies this`intervals
      ensures forall v: nat :: v in live' <==> v in live && !PhiOf(c.ns, r, v)
      ensures forall v: nat ::
        Look(intervals, v) == if PhiOf(c.ns, r, v) then Interval(NumOf(liveNumbers, v), Look(old(intervals), v).second) else Look(old(intervals), v)
    {
      var phis := Phis(c.ns, r);
      live' := live;
      for i := 0 to |phis|
        invariant forall v: nat :: v in live' <==> v in live && v !in phis[..i]
        invariant forall v: nat ::
          Look(intervals, v) == if v in phis[..i] then Interval(NumOf(liveNumbers, v), Look(old(intervals), v).second) else Look(old(intervals), v)
      {
        var phi := phis[i];
        live' := live' - {phi};
        intervals := intervals[phi := Look(intervals, phi).(first := NumOf(liveNumbers, phi))];
        assert phis[..i + 1] == phis[..i] + [phi];
      }
      assert phis[..|phis|] == phis;
    }

    // The union of what is live into the successors and what their phis take from the region.
    method CollectLive(c: Code, k: nat) returns (live: set<nat>)
      requires Straight(c) && k < |c.order| && Solved(c, liveIn, k + 1)
      ensures forall v: nat :: v in live <==> LiveOut(c, c.order[k], v)
    {
      hide Straight, LiveAt, PhiNeeds, Solved;
      var r := c.order[k];
      RegionBound(c, k);
      var ss := c.g.succs[r];
      live := {};
      for i := 0 to |ss|
        invariant forall v: nat :: v in live <==> LiveIntoSome(c, ss[..i], v)
      {
        SuccessorSolved(c, liveIn, k, i);
        live := live + liveIn[ss[i]];
        assert ss[..i + 1] == ss[..i] + [ss[i]];
      }
      ghost var flow := live;
      for i := 0 to |ss|
        invariant forall v: nat :: v in live <==> v in flow || TakenBySome(c, r, ss[..i], v)
      {
        SuccessorEdge(c, r, i);
        live := AddPhiInputs(c, r, ss[i], live);
        assert ss[..i + 1] == ss[..i] + [ss[i]];
      }
      assert ss[..|ss|] == ss;
      forall v: nat ensures v in live <==> LiveOut(c, r, v) {
        LiveOutParts(c, r, v);
      }
    }
  }

  // ---------------------------------------------------------------- phis

  method Phis(ns: Nodes, r: nat) returns (phis: seq<nat>)
    ensures forall v: nat :: v in phis <==> PhiOf(ns, r, v)
  {
    phis := [];
    for u := 0 to |ns|
      invariant forall v: nat :: v in phis <==> v < u && PhiOf(ns, r, v)
    {
      if PhiOf(ns, r, u) {
        phis := phis + [u];
      }
    }
  }

  ghost predicate TakenFrom(c: Code, u: nat, r: nat, v: nat) {
    exists i: nat :: PhiNeeds(c.ns, c.g, u, i, v, r)
  }

  // The phi's value for predecessor r.
  method GetValOf(c: Code, phi: nat, s: nat, r: nat) returns (v: nat)
    requires Straight(c) && PhiOf(c.ns, s, phi) && c.g.Edge(r, s)
    ensures forall k: nat :: k < |c.g.preds[s]| && k < |c.ns[phi].ops[1..]| && c.g.preds[s][k] == r ==>
      c.ns[phi].ops[1..][k] == Some(v)
    ensures exists k: nat :: k < |c.g.preds[s]| && k < |c.ns[phi].ops[1..]| && c.g.preds[s][k] == r
    ensures forall w: nat :: w == v <==> TakenFrom(c, phi, r, w)
  {
    assert IsPhi(c.ns, phi);
    assert UserOk(c.ns, c.g, phi) && Full(c.ns, phi) && Distinct(c.g.preds[s]);
    assert r in c.g.preds[s];
    hide Straight;
    var preds := c.g.preds[s];
    ghost var w :| 0 <= w < |preds| && preds[w] == r;
    var idx := 0;
    while preds[idx] != r
      invariant idx <= w
      decreases w - idx
    {
      idx := idx + 1;
    }
    v := c.ns[phi].ops[idx + 1].value;
    assert c.ns[phi].ops[1..][idx] == Some(v);
    assert PhiNeeds(c.ns, c.g, phi, idx + 1, v, r);
  }

  // Where the flow equation begins, on the nodes: the k-th value of a phi is live out of the
  // region that the k-th input of its region node leaves.
  lemma PhiValueLiveOut(c: Code, phi: nat, S: nat, k: nat, r: nat, v: nat)
    requires Lists(c.ns, c.g) && phi < |c.ns| && c.ns[phi].kind.Phi? && k + 1 < |c.ns[phi].ops|
    requires c.ns[phi].ops[0] == Some(S) && S < |c.ns| && c.ns[S].kind.IsRegion() && k < |c.ns[S].ops|
    requires c.ns[phi].ops[k + 1] == Some(v)
    requires forall j: nat :: j <= k ==> InputReported(c.ns, S, j)
    requires c.ns[S].ops[k].Some? && c.ns[S].ops[k].value < |c.ns| && Source(c.ns, c.ns[S].ops[k].value) == Some(r)
    ensures LiveOut(c, r, v)
    ensures r < |c.g.succs| && !Defined(c, r, v) ==> LiveAt(c, r, v)
  {
    PredecessorAt(c.ns, c.g, S, k, r);
    assert IsPhi(c.ns, phi) && PhiNeeds(c.ns, c.g, phi, k + 1, v, r);
    hide LiveAt, Source, Lists, PhiNeeds, Exposed;
    if r < |c.g.succs| {
      LiveUnfold(c, r, v);
    }
  }

  // Conversely, a value needed on an edge is held by such a slot.
  lemma EdgeUseSlot(c: Code, r: nat, v: nat) returns (phi: nat, S: nat, k: nat)
    requires EdgeUse(c, r, v)
    ensures phi < |c.ns| && c.ns[phi].kind.Phi? && k + 1 < |c.ns[phi].ops| && c.ns[phi].ops[k + 1] == Some(v)
    ensures c.ns[phi].ops[0] == Some(S) && S < |c.ns| && c.ns[S].kind.IsRegion() && c.ns[S].kind.region < |c.g.preds|
    ensures k < |c.g.preds[c.ns[S].kind.region]| && c.g.preds[c.ns[S].kind.region][k] == r
  {
    var u: nat, i: nat :| IsPhi(c.ns, u) && PhiNeeds(c.ns, c.g, u, i, v, r);
    phi, S, k := u, c.ns[u].ops[0].value, i - 1;
  }

  method AddPhiInputs(c: Code, r: nat, s: nat, live: set<nat>) returns (live': set<nat>)
    requires Straight(c) && c.g.Edge(r, s)
    ensures forall v: nat :: v in live' <==> v in live || TakenBy(c, r, s, v)
  {
    hide Straight, TakenFrom, PhiOf;
    var phis := Phis(c.ns, s);
    live' := live;
    for i := 0 to |phis|
      invariant forall v: nat :: v in live' <==> v in live || TakenAmong(c, phis[..i], r, v)
    {
      assert phis[i] in phis;
      var val := GetValOf(c, phis[i], s, r);
      live' := live' + {val};
      forall v: nat ensures TakenAmong(c, phis[..i + 1], r, v) <==> TakenAmong(c, phis[..i], r, v) || TakenFrom(c, phis[i], r, v) {
        TakenAmongNext(c, phis, i, r, v);
      }
    }
    assert phis[..|phis|] == phis;
  }

  ghost predicate TakenAmong(c: Code, us: seq<nat>, r: nat, v: nat) {
    exists u: nat :: u in us && TakenFrom(c, u, r, v)
  }

  lemma TakenAmongNext(c: Code, us: seq<nat>, i: nat, r: nat, v: nat)
    requires i < |us|
    ensures TakenAmong(c, us[..i + 1], r, v) <==> TakenAmong(c, us[..i], r, v) || TakenFrom(c, us[i], r, v)
  {
    hide TakenFrom;
    assert us[..i + 1] == us[..i] + [us[i]];
    assert us[i] in us[..i + 1];
    if TakenAmong(c, us[..i], r, v) {
      var u: nat :| u in us[..i] && TakenFrom(c, u, r, v);
      assert u in us[..i + 1];
    }
  }

  ghost predicate TakenBy(c: Code, r: nat, s: nat, v: nat) {
    exists u: nat :: PhiOf(c.ns, s, u) && TakenFrom(c, u, r, v)
  }

  ghost predicate TakenBySome(c: Code, r: nat, ss: seq<nat>, v: nat) {
    exists s: nat :: s in ss && TakenBy(c, r, s, v)
  }

  ghost predicate LiveIntoSome(c: Code, ss: seq<nat>, v: nat) {
    exists s: nat :: s in ss && LiveAt(c, s, v)
  }

  lemma LiveOutParts(c: Code, r: nat, v: nat)
    requires Straight(c) && r < |c.g.succs|
    ensures LiveOut(c, r, v) <==> LiveIntoSome(c, c.g.succs[r], v) || TakenBySome(c, r, c.g.succs[r], v)
  {
    hide LiveAt;
    assert forall s: nat :: s in c.g.succs[r] <==> c.g.Edge(r, s);
    if EdgeUse(c, r, v) {
      var u: nat, i: nat :| IsPhi(c.ns, u) && PhiNeeds(c.ns, c.g, u, i, v, r);
      var s := RegionAt(c.ns, SlotOr(c.ns[u].ops, 0)).value;
      assert r in c.g.preds[s];
      assert c.g.Edge(r, s) && PhiOf(c.ns, s, u) && TakenFrom(c, u, r, v);
    }
    if TakenBySome(c, r, c.g.succs[r], v) {
      var s: nat :| s in c.g.succs[r] && TakenBy(c, r, s, v);
      var u: nat :| PhiOf(c.ns, s, u) && TakenFrom(c, u, r, v);
      assert IsPhi(c.ns, u);
    }
  }

  // ---------------------------------------------------------------- glue

  lemma RegionBound(c: Code, k: nat)
    requires Straight(c) && k < |c.order|
    ensures c.order[k] < |c.g.succs|
  {
    assert c.order[k] in c.order;
  }

  lemma SuccessorSolved(c: Code, liveIn: map<nat, set<nat>>, k: nat, i: nat)
    requires Straight(c) && Solved(c, liveIn, k + 1) && k < |c.order| && c.order[k] < |c.g.succs|
      && i < |c.g.succs[c.order[k]]|
    ensures LiveInOk(c, liveIn, c.g.succs[c.order[k]][i])
  {
    var r := c.order[k];
    var s := c.g.succs[r][i];
    assert s in c.g.succs[r] && c.g.Edge(r, s);
    assert Precedes(c.order, r, s);
    assert c.order[FirstIndex(c.order, s)] == s && c.order[FirstIndex(c.order, r)] == r;
  }

  lemma SolvedNext(c: Code, liveIn: map<nat, set<nat>>, k: nat, live: set<nat>)
    requires Solved(c, liveIn, k + 1) && k < |c.order| && forall v: nat :: v in live <==> LiveAt(c, c.order[k], v)
    ensures Solved(c, liveIn[c.order[k] := live], k)
  {
    hide LiveAt;
  }

  lemma AllSolved(c: Code, liveIn: map<nat, set<nat>>)
    requires Straight(c) && Solved(c, liveIn, 0)
    ensures forall r: nat :: r < |c.g.succs| ==> LiveInOk(c, liveIn, r)
  {
    hide LiveInOk;
    forall r: nat | r < |c.g.succs| ensures LiveInOk(c, liveIn, r) {
      assert r in c.order;
    }
  }

  lemma NoRanges(c: Code, num: map<nat, nat>, blocks: map<nat, Interval>)
    ensures Ranges(c, num, blocks, map[], |c.order|)
  {
  }

  lemma NoBody(ns: Nodes, num: map<nat, nat>, m: map<nat, Interval>)
    ensures BodyEffect(ns, num, [], m, m)
    ensures forall v: nat :: !Exposed(ns, [], v)
  {
  }

  lemma NodesAreNoPhis(c: Code, r: nat)
    requires Placed(c)
    ensures forall v: nat :: v in ListOf(c.data, r) ==> !PhiOf(c.ns, r, v)
  {
  }

  // The i-th node of a block reads neither itself nor a later one.
  lemma NodeFacts(c: Code, r: nat, i: nat)
    requires Straight(c) && Placed(c) && i < |ListOf(c.data, r)|
    ensures var xs := ListOf(c.data, r);
      && xs[i] < |c.ns| && Full(c.ns, xs[i]) && xs[i] !in xs[i + 1..]
      && forall v: nat :: Reads(c.ns, xs[i], v) ==> v != xs[i] && v !in xs[i + 1..]
  {
    var xs := ListOf(c.data, r);
    assert xs[i] in xs;
    NodesAreNoPhis(c, r);
    forall v: nat | Reads(c.ns, xs[i], v) ensures v != xs[i] && v !in xs[i + 1..] {
      if v in xs[i..] {
        assert v in xs;
        assert Defined(c, r, v);
      }
    }
  }

  lemma DistinctOrder(c: Code)
    requires Straight(c)
    ensures Distinct(c.order)
  {
  }

  lemma DistinctNodes(c: Code, r: nat)
    requires Placed(c)
    ensures Distinct(ListOf(c.data, r))
  {
  }

  lemma SuccessorEdge(c: Code, r: nat, i: nat)
    requires Straight(c) && r < |c.g.succs| && i < |c.g.succs[r]|
    ensures c.g.Edge(r, c.g.succs[r][i])
  {
    assert c.g.succs[r][i] in c.g.succs[r];
  }

  lemma NothingNumbered(c: Code, blocks: map<nat, Interval>)
    ensures Numbered(c, map[], blocks, 0, 0)
  {
  }

  lemma EmptyBlock(c: Code, r: nat, num: map<nat, nat>, from: nat)
    requires r !in c.data
    ensures AddsFor(c, r, num, num) && BlockOk(c, num, r, Interval(from, from))
  {
  }

  lemma FilledBlock(c: Code, r: nat, num: map<nat, nat>, withPhis: map<nat, nat>, withNodes: map<nat, nat>, from: nat)
    requires Placed(c) && r in c.data
    requires forall v: nat :: v in withPhis <==> v in num || PhiOf(c.ns, r, v)
    requires forall v: nat :: v in withPhis ==> withPhis[v] == if PhiOf(c.ns, r, v) then from else num[v]
    requires forall v: nat :: v in withNodes <==> v in withPhis || v in c.data[r]
    requires forall v: nat :: v in withPhis && v !in c.data[r] ==> withNodes[v] == withPhis[v]
    requires forall i :: 0 <= i < |c.data[r]| ==> c.data[r][i] in withNodes && withNodes[c.data[r][i]] == from + 2 * i + 2
    ensures AddsFor(c, r, num, withNodes) && BlockOk(c, withNodes, r, Interval(from, from + 2 * |c.data[r]| + 2))
  {
    NodesAreNoPhis(c, r);
    hide PhiOf, Placed;
  }

  // ---------------------------------------------------------------- what the intervals are good for

  ghost predicate Ends(c: Code, num: map<nat, nat>, blocks: map<nat, Interval>, v: nat, t: nat) {
    exists r: nat :: r < |c.g.succs| && Reason(c, num, r, BlockOf(blocks, r), v, t)
  }

  ghost predicate HasDefinition(c: Code, v: nat) {
    exists r: nat :: r < |c.g.succs| && Defined(c, r, v)
  }

  // The interval starts at the number of the definition and ends at the last
  // reason: the least end that covers every read, every block the value leaves
  // alive, and two numbers from the definition.
  lemma IntervalIsExact(c: Code, num: map<nat, nat>, blocks: map<nat, Interval>, liveIn: map<nat, set<nat>>,
          m: map<nat, Interval>, v: nat)
    requires Straight(c) && Analysed(c, num, blocks, liveIn, m)
    ensures Look(m, v).first == if HasDefinition(c, v) then NumOf(num, v) else 0
    ensures forall t: nat :: Ends(c, num, blocks, v, t) ==> t <= Look(m, v).second
    ensures Look(m, v).second == 0 || Ends(c, num, blocks, v, Look(m, v).second)
  {
    hide Reason, Defined, BlockOf, Look, LiveInOk, Straight;
    assert Range(c, num, blocks, 0, v, Look(m, v));
    SameDefinitions(c, v);
    forall t: nat ensures Ends(c, num, blocks, v, t) <==> ReasonFrom(c, num, blocks, 0, v, t) {
      SameReasons(c, num, blocks, v, t);
    }
  }

  // The numbers, block by block: a block to which something is scheduled takes two for its
  // start and two for each node, and the blocks follow one another in the linear order.
  lemma NumbersAre(c: Code, num: map<nat, nat>, blocks: map<nat, Interval>, liveIn: map<nat, set<nat>>,
          m: map<nat, Interval>, k: nat)
    requires Analysed(c, num, blocks, liveIn, m) && k < |c.order|
    ensures k == 0 ==> BlockOf(blocks, c.order[k]).first == 0
    ensures k > 0 ==> BlockOf(blocks, c.order[k]).first == BlockOf(blocks, c.order[k - 1]).second
    ensures c.order[k] !in c.data ==> BlockOf(blocks, c.order[k]).second == BlockOf(blocks, c.order[k]).first
    ensures c.order[k] in c.data ==>
      BlockOf(blocks, c.order[k]).second == BlockOf(blocks, c.order[k]).first + 2 + 2 * |c.data[c.order[k]]|
    ensures c.order[k] in c.data ==> forall i :: 0 <= i < |c.data[c.order[k]]| ==>
      NumOf(num, c.data[c.order[k]][i]) == BlockOf(blocks, c.order[k]).first + 2 + 2 * i
    ensures c.order[k] in c.data ==> forall v: nat :: PhiOf(c.ns, c.order[k], v) ==>
      NumOf(num, v) == BlockOf(blocks, c.order[k]).first
  {
    hide PhiOf, Look, Ranges, LiveInOk;
    var next: nat :| Numbered(c, num, blocks, |c.order|, next);
    assert BlockOk(c, num, c.order[k], Look(blocks, c.order[k]));
  }

  // An interval reaches every scheduled node that holds its value in a slot.
  lemma LastsToRead(c: Code, num: map<nat, nat>, blocks: map<nat, Interval>, liveIn: map<nat, set<nat>>,
          m: map<nat, Interval>, r: nat, i: nat, j: nat, v: nat)
    requires Straight(c) && Analysed(c, num, blocks, liveIn, m) && r < |c.g.succs| && i < |ListOf(c.data, r)|
    requires ListOf(c.data, r)[i] < |c.ns| && j < |c.ns[ListOf(c.data, r)[i]].ops|
    requires c.ns[ListOf(c.data, r)[i]].ops[j] == Some(v)
    ensures NumOf(num, ListOf(c.data, r)[i]) <= Look(m, v).second
  {
    var u, t := ListOf(c.data, r)[i], NumOf(num, ListOf(c.data, r)[i]);
    assert Reads(c.ns, u, v);
    assert BodyReason(c.ns, num, ListOf(c.data, r), v, t);
    assert Reason(c, num, r, BlockOf(blocks, r), v, t);
    hide Reason, BodyReason, Straight, Analysed, Look, BlockOf;
    assert Ends(c, num, blocks, v, t);
    IntervalIsExact(c, num, blocks, liveIn, m, v);
  }

  lemma PositionOf(c: Code, r: nat) returns (j: nat)
    requires Straight(c) && r < |c.g.succs|
    ensures j < |c.order| && c.order[j] == r
  {
    assert r in c.order;
    j := FirstIndex(c.order, r);
  }

  lemma SameDefinitions(c: Code, v: nat)
    requires Straight(c)
    ensures HasDefinition(c, v) <==> DefinedFrom(c, 0, v)
  {
    hide Straight, Defined;
    if HasDefinition(c, v) {
      var r: nat :| r < |c.g.succs| && Defined(c, r, v);
      var j := PositionOf(c, r);
    }
    if DefinedFrom(c, 0, v) {
      var j: nat :| j < |c.order| && Defined(c, c.order[j], v);
      RegionBound(c, j);
    }
  }

  lemma SameReasons(c: Code, num: map<nat, nat>, blocks: map<nat, Interval>, v: nat, t: nat)
    requires Straight(c)
    ensures Ends(c, num, blocks, v, t) <==> ReasonFrom(c, num, blocks, 0, v, t)
  {
    hide Straight, Reason, BlockOf;
    if Ends(c, num, blocks, v, t) {
      var r: nat :| r < |c.g.succs| && Reason(c, num, r, BlockOf(blocks, r), v, t);
      var j := PositionOf(c, r);
    }
    if ReasonFrom(c, num, blocks, 0, v, t) {
      var j: nat :| j < |c.order| && Reason(c, num, c.order[j], BlockOf(blocks, c.order[j]), v, t);
      RegionBound(c, j);
    }
  }

  // v is still wanted after the i-th node of region r.
  ghost predicate LiveAfter(c: Code, r: nat, i: nat, v: nat) {
    LiveOut(c, r, v) || exists j :: i < j < |ListOf(c.data, r)| && Reads(c.ns, ListOf(c.data, r)[j], v)
  }

  // v is defined by an earlier node of region r, by one of its phis, or in another region.
  ghost predicate DefinedBefore(c: Code, r: nat, i: nat, v: nat)
    requires i < |ListOf(c.data, r)|
  {
    v in ListOf(c.data, r)[..i] || PhiOf(c.ns, r, v) || exists d: nat :: d != r && d < |c.g.succs| && Defined(c, d, v)
  }

  ghost predicate Numbers(c: Code, num: map<nat, nat>, blocks: map<nat, Interval>) {
    exists next: nat :: Numbered(c, num, blocks, |c.order|, next)
  }

  lemma BlockNumbers(c: Code, num: map<nat, nat>, blocks: map<nat, Interval>, r: nat)
    requires Straight(c) && Numbers(c, num, blocks) && r < |c.g.succs|
    ensures BlockOk(c, num, r, BlockOf(blocks, r))
    ensures forall d: nat :: Precedes(c.order, d, r) ==> BlockOf(blocks, d).second <= BlockOf(blocks, r).first
  {
    var next: nat :| Numbered(c, num, blocks, |c.order|, next);
    assert r in c.order;
    var j := FirstIndex(c.order, r);
    assert c.order[j] == r;
    hide BlockOk, PhiOf, Straight;
    forall d: nat | Precedes(c.order, d, r) ensures BlockOf(blocks, d).second <= BlockOf(blocks, r).first {
      var i := FirstIndex(c.order, d);
      assert c.order[i] == d;
    }
  }

  // The phis of a region to which nothing is scheduled have no number.
  lemma PhisUnnumbered(c: Code, num: map<nat, nat>, blocks: map<nat, Interval>, r: nat, v: nat)
    requires Numbers(c, num, blocks) && PhiOf(c.ns, r, v) && r !in c.data
    ensures NumOf(num, v) == 0
  {
    var next: nat :| Numbered(c, num, blocks, |c.order|, next);
  }

  // The interval of a phi starts at its block exactly when something is scheduled to the
  // region or the block starts at 0.
  lemma PhiStartsAtBlock(c: Code, num: map<nat, nat>, blocks: map<nat, Interval>, liveIn: map<nat, set<nat>>,
          m: map<nat, Interval>, r: nat, v: nat)
    requires Straight(c) && Analysed(c, num, blocks, liveIn, m) && r < |c.g.succs| && PhiOf(c.ns, r, v)
    ensures Look(m, v).first == BlockOf(blocks, r).first <==> r in c.data || BlockOf(blocks, r).first == 0
    ensures r !in c.data ==> Look(m, v).first == 0
  {
    assert Numbers(c, num, blocks);
    hide Straight, Analysed, Numbers, Look, PhiOf;
    IntervalIsExact(c, num, blocks, liveIn, m, v);
    assert Defined(c, r, v) && HasDefinition(c, v);
    if r in c.data {
      PhiNumber(c, num, blocks, r, v);
    } else {
      PhisUnnumbered(c, num, blocks, r, v);
    }
  }

  // The number of a definition lies before the end of its block, or is 0.
  lemma NumberInBlock(c: Code, num: map<nat, nat>, blocks: map<nat, Interval>, d: nat, v: nat)
    requires Straight(c) && Numbers(c, num, blocks) && d < |c.g.succs| && Defined(c, d, v)
    ensures NumOf(num, v) <= BlockOf(blocks, d).second
    ensures NumOf(num, v) == 0 || NumOf(num, v) < BlockOf(blocks, d).second
  {
    BlockNumbers(c, num, blocks, d);
    hide Straight, Numbers, PhiOf;
    if v in ListOf(c.data, d) {
      var i :| 0 <= i < |ListOf(c.data, d)| && ListOf(c.data, d)[i] == v;
    } else if d !in c.data {
      PhisUnnumbered(c, num, blocks, d, v);
    }
  }

  lemma NodeRegion(c: Code, r: nat, v: nat)
    requires Placed(c) && v in ListOf(c.data, r)
    ensures r < |c.g.succs|
  {
  }

  lemma NodeNumber(c: Code, num: map<nat, nat>, blocks: map<nat, Interval>, r: nat, i: nat)
    requires Straight(c) && Placed(c) && Numbers(c, num, blocks) && i < |ListOf(c.data, r)|
    ensures r < |c.g.succs| && r in c.data && Defined(c, r, ListOf(c.data, r)[i])
    ensures NumOf(num, ListOf(c.data, r)[i]) == BlockOf(blocks, r).first + 2 * i + 2
    ensures BlockOf(blocks, r).second == BlockOf(blocks, r).first + 2 * |ListOf(c.data, r)| + 2
  {
    NodeRegion(c, r, ListOf(c.data, r)[i]);
    BlockNumbers(c, num, blocks, r);
    hide Straight, Placed, Numbers;
  }

  // r hands v on, or one of its nodes reads it.
  ghost predicate Wanted(c: Code, r: nat, v: nat) {
    LiveOut(c, r, v) || ReadIn(c.ns, ListOf(c.data, r), v)
  }

  lemma WantedBelow(c: Code, r: nat, v: nat, d: nat)
    requires Straight(c) && Placed(c) && Wanted(c, r, v) && d != r && r < |c.g.succs| && Defined(c, d, v)
    ensures Precedes(c.order, d, r)
  {
    hide Defined;
    if LiveOut(c, r, v) {
      LiveOutBelowDefinition(c, r, d, v);
    }
    assert Reachable(c.g, r);
    DominatorPrecedes(c.g, c.order, d, r);
  }

  lemma AfterIsWanted(c: Code, r: nat, i: nat, v: nat)
    requires LiveAfter(c, r, i, v)
    ensures Wanted(c, r, v)
  {
    hide LiveOut, Reads;
  }

  lemma StartBelow(c: Code, num: map<nat, nat>, blocks: map<nat, Interval>, r: nat, i: nat, v: nat)
    requires Straight(c) && Placed(c) && Numbers(c, num, blocks) && i < |ListOf(c.data, r)|
    requires DefinedBefore(c, r, i, v) && LiveAfter(c, r, i, v)
    ensures HasDefinition(c, v) && NumOf(num, v) < NumOf(num, ListOf(c.data, r)[i])
  {
    hide Straight, Placed, Numbers, LiveAfter, Defined, PhiOf;
    NodeNumber(c, num, blocks, r, i);
    if v in ListOf(c.data, r)[..i] {
      var j: nat :| j < i && ListOf(c.data, r)[..i][j] == v;
      NodeNumber(c, num, blocks, r, j);
    } else if PhiOf(c.ns, r, v) {
      PhiNumber(c, num, blocks, r, v);
    } else {
      var d: nat :| d != r && d < |c.g.succs| && Defined(c, d, v);
      AfterIsWanted(c, r, i, v);
      WantedBelow(c, r, v, d);
      NumberInBlock(c, num, blocks, d, v);
      BlockNumbers(c, num, blocks, r);
    }
  }

  lemma PhiNumber(c: Code, num: map<nat, nat>, blocks: map<nat, Interval>, r: nat, v: nat)
    requires Straight(c) && Numbers(c, num, blocks) && r in c.data && r < |c.g.succs| && PhiOf(c.ns, r, v)
    ensures Defined(c, r, v) && NumOf(num, v) == BlockOf(blocks, r).first
  {
    BlockNumbers(c, num, blocks, r);
    hide Straight, Numbers;
  }

  lemma EndAbove(c: Code, num: map<nat, nat>, blocks: map<nat, Interval>, r: nat, i: nat, v: nat) returns (t: nat)
    requires Straight(c) && Placed(c) && Numbers(c, num, blocks) && i < |ListOf(c.data, r)| && LiveAfter(c, r, i, v)
    ensures Ends(c, num, blocks, v, t) && NumOf(num, ListOf(c.data, r)[i]) < t
  {
    hide Straight, Placed, Numbers, LiveOut, Defined;
    NodeNumber(c, num, blocks, r, i);
    var xs := ListOf(c.data, r);
    if LiveOut(c, r, v) {
      t := BlockOf(blocks, r).second;
    } else {
      var j: nat :| i < j < |xs| && Reads(c.ns, xs[j], v);
      NodeNumber(c, num, blocks, r, j);
      t := NumOf(num, xs[j]);
    }
    assert Reason(c, num, r, BlockOf(blocks, r), v, t);
  }

  // A node computed while v is live lies strictly inside the interval of v, so the
  // two intervals overlap and register allocation keeps the two values apart.
  lemma LiveValuesOverlap(c: Code, num: map<nat, nat>, blocks: map<nat, Interval>, liveIn: map<nat, set<nat>>,
          m: map<nat, Interval>, r: nat, i: nat, v: nat)
    requires Straight(c) && Placed(c) && Analysed(c, num, blocks, liveIn, m)
    requires i < |ListOf(c.data, r)| && DefinedBefore(c, r, i, v) && LiveAfter(c, r, i, v)
    ensures var w := ListOf(c.data, r)[i];
      && Look(m, v).first < Look(m, w).first < Look(m, v).second
      && Look(m, w).first < Look(m, w).second
  {
    hide Straight, Placed, LiveAfter, DefinedBefore, Look, Ranges, LiveInOk, Numbered, Ends, HasDefinition;
    assert Numbers(c, num, blocks);
    var w := ListOf(c.data, r)[i];
    IntervalIsExact(c, num, blocks, liveIn, m, v);
    IntervalIsExact(c, num, blocks, liveIn, m, w);
    StartBelow(c, num, blocks, r, i, v);
    var t := EndAbove(c, num, blocks, r, i, v);
    OwnEnd(c, num, blocks, r, i);
  }

  lemma OwnEnd(c: Code, num: map<nat, nat>, blocks: map<nat, Interval>, r: nat, i: nat)
    requires Straight(c) && Placed(c) && Numbers(c, num, blocks) && i < |ListOf(c.data, r)|
    ensures var w := ListOf(c.data, r)[i]; HasDefinition(c, w) && Ends(c, num, blocks, w, NumOf(num, w) + 2)
  {
    hide Straight, Placed, Numbers, Defined;
    NodeNumber(c, num, blocks, r, i);
    var w := ListOf(c.data, r)[i];
    assert Reason(c, num, r, BlockOf(blocks, r), w, NumOf(num, w) + 2);
  }

  // v is a phi of r or defined in another region: it is there when r begins.
  ghost predicate ThereBefore(c: Code, r: nat, v: nat) {
    PhiOf(c.ns, r, v) || exists d: nat :: d != r && d < |c.g.succs| && Defined(c, d, v)
  }

  lemma StartsByBlock(c: Code, num: map<nat, nat>, blocks: map<nat, Interval>, r: nat, v: nat)
    requires Straight(c) && Placed(c) && Numbers(c, num, blocks) && r < |c.g.succs|
    requires ThereBefore(c, r, v) && Wanted(c, r, v)
    ensures HasDefinition(c, v) && NumOf(num, v) <= BlockOf(blocks, r).first
    ensures r !in c.data ==> NumOf(num, v) == 0 || NumOf(num, v) < BlockOf(blocks, r).first
  {
    hide Straight, Placed, Numbers, Wanted, PhiOf;
    if PhiOf(c.ns, r, v) {
      assert Defined(c, r, v);
      if r in c.data {
        PhiNumber(c, num, blocks, r, v);
      } else {
        PhisUnnumbered(c, num, blocks, r, v);
      }
    } else {
      var d: nat :| d != r && d < |c.g.succs| && Defined(c, d, v);
      WantedBelow(c, r, v, d);
      NumberInBlock(c, num, blocks, d, v);
      BlockNumbers(c, num, blocks, r);
    }
  }

  lemma WantedEnds(c: Code, num: map<nat, nat>, blocks: map<nat, Interval>, r: nat, v: nat) returns (t: nat)
    requires Straight(c) && Placed(c) && Numbers(c, num, blocks) && r < |c.g.succs| && Wanted(c, r, v)
    ensures Ends(c, num, blocks, v, t)
    ensures if r in c.data then BlockOf(blocks, r).first < t else t == BlockOf(blocks, r).first
  {
    hide Straight, Placed, Numbers, LiveOut, Defined, Reads;
    BlockNumbers(c, num, blocks, r);
    var xs := ListOf(c.data, r);
    if LiveOut(c, r, v) {
      t := BlockOf(blocks, r).second;
    } else {
      var i: nat :| i < |xs| && Reads(c.ns, xs[i], v);
      NodeNumber(c, num, blocks, r, i);
      t := NumOf(num, xs[i]);
    }
    assert Reason(c, num, r, BlockOf(blocks, r), v, t);
  }

  // Where something is scheduled, the interval of a phi begins inside the interval of
  // every value that is there before, the other phis of the region included.
  lemma PhiOverlaps(c: Code, num: map<nat, nat>, blocks: map<nat, Interval>, liveIn: map<nat, set<nat>>,
          m: map<nat, Interval>, r: nat, p: nat, v: nat)
    requires Straight(c) && Placed(c) && Analysed(c, num, blocks, liveIn, m) && r in c.data && r < |c.g.succs|
    requires PhiOf(c.ns, r, p) && Wanted(c, r, p) && ThereBefore(c, r, v) && Wanted(c, r, v)
    ensures Look(m, v).first <= Look(m, p).first < Look(m, v).second && Look(m, p).first < Look(m, p).second
  {
    assert Numbers(c, num, blocks);
    hide Straight, Placed, Analysed, Numbers, Look, Wanted, ThereBefore, PhiOf, Ends, HasDefinition;
    IntervalIsExact(c, num, blocks, liveIn, m, v);
    IntervalIsExact(c, num, blocks, liveIn, m, p);
    PhiNumber(c, num, blocks, r, p);
    PhiHasDefinition(c, r, p);
    StartsByBlock(c, num, blocks, r, v);
    var t := WantedEnds(c, num, blocks, r, v);
    var e := WantedEnds(c, num, blocks, r, p);
  }

  lemma PhiHasDefinition(c: Code, r: nat, p: nat)
    requires r < |c.g.succs| && PhiOf(c.ns, r, p)
    ensures HasDefinition(c, p) && ThereBefore(c, r, p)
  {
    assert Defined(c, r, p);
  }

  ghost predicate Meet(a: Interval, b: Interval) {
    a.first < b.second && b.first < a.second
  }

  // The intervals of a phi and of a value that is there before overlap exactly when
  // neither is empty at 0; an empty one can only belong to a phi that no block past 0 sees.
  lemma PhiMeets(c: Code, num: map<nat, nat>, blocks: map<nat, Interval>, liveIn: map<nat, set<nat>>,
          m: map<nat, Interval>, r: nat, p: nat, v: nat)
    requires Straight(c) && Placed(c) && Analysed(c, num, blocks, liveIn, m) && r < |c.g.succs|
    requires PhiOf(c.ns, r, p) && Wanted(c, r, p) && ThereBefore(c, r, v) && Wanted(c, r, v)
    ensures Meet(Look(m, v), Look(m, p)) <==> Lasts(c, v) && Lasts(c, p)
  {
    assert Numbers(c, num, blocks);
    hide Straight, Placed, Analysed, Numbers, Look, Wanted, ThereBefore, PhiOf, Ends, HasDefinition, Lasts;
    LastsIff(c, num, blocks, liveIn, m, v);
    LastsIff(c, num, blocks, liveIn, m, p);
    if r in c.data {
      PhiOverlaps(c, num, blocks, liveIn, m, r, p, v);
    } else {
      IntervalIsExact(c, num, blocks, liveIn, m, v);
      PhiStartsAtBlock(c, num, blocks, liveIn, m, r, p);
      StartsByBlock(c, num, blocks, r, v);
      IntervalIsExact(c, num, blocks, liveIn, m, p);
      var e := WantedEnds(c, num, blocks, r, p);
    }
  }

  // Something is scheduled to e or to a region before it.
  ghost predicate Started(c: Code, e: nat) {
    exists d: nat :: d in c.data && (d == e || Precedes(c.order, d, e))
  }

  // Some region that has started defines v as a node, reads it or hands it on.
  ghost predicate Lasts(c: Code, v: nat) {
    exists e: nat :: e < |c.g.succs| && LastsIn(c, e, v)
  }

  ghost predicate LastsIn(c: Code, e: nat, v: nat) {
    Started(c, e) && (Wanted(c, e, v) || v in ListOf(c.data, e))
  }

  lemma {:induction false} StartedAt(c: Code, num: map<nat, nat>, blocks: map<nat, Interval>, next: nat, j: nat)
    requires Numbered(c, num, blocks, |c.order|, next) && j < |c.order|
    ensures BlockOf(blocks, c.order[j]).second > 0 <==> exists i: nat :: i <= j && c.order[i] in c.data
  {
    hide PhiOf;
    assert BlockOk(c, num, c.order[j], BlockOf(blocks, c.order[j]));
    if j > 0 {
      StartedAt(c, num, blocks, next, j - 1);
      assert BlockOf(blocks, c.order[j - 1]).second == BlockOf(blocks, c.order[j]).first;
    }
  }

  lemma StartedIff(c: Code, num: map<nat, nat>, blocks: map<nat, Interval>, e: nat)
    requires Straight(c) && Numbers(c, num, blocks) && e < |c.g.succs|
    ensures BlockOf(blocks, e).second > 0 <==> Started(c, e)
  {
    hide Straight, Numbered, BlockOf;
    var next: nat :| Numbered(c, num, blocks, |c.order|, next);
    DistinctOrder(c);
    var j := PositionOf(c, e);
    StartedAt(c, num, blocks, next, j);
    if i: nat :| i <= j && c.order[i] in c.data {
      EarlierPrecedes(c.order, i, j);
    }
    if d: nat :| d in c.data && (d == e || Precedes(c.order, d, e)) {
      assert d != e ==> c.order[FirstIndex(c.order, d)] == d;
      assert c.order[FirstIndex(c.order, e)] == e;
    }
  }

  lemma EarlierPrecedes(xs: seq<nat>, i: nat, j: nat)
    requires i <= j < |xs| && Distinct(xs)
    ensures xs[i] == xs[j] || Precedes(xs, xs[i], xs[j])
  {
    assert xs[FirstIndex(xs, xs[i])] == xs[i] && xs[FirstIndex(xs, xs[j])] == xs[j];
  }

  lemma LastsIff(c: Code, num: map<nat, nat>, blocks: map<nat, Interval>, liveIn: map<nat, set<nat>>,
          m: map<nat, Interval>, v: nat)
    requires Straight(c) && Placed(c) && Analysed(c, num, blocks, liveIn, m)
    ensures Look(m, v).second > 0 <==> Lasts(c, v)
  {
    assert Numbers(c, num, blocks);
    hide Straight, Placed, Analysed, Numbers, Look, LiveOut, Reads, Started;
    IntervalIsExact(c, num, blocks, liveIn, m, v);
    if t: nat :| t > 0 && Ends(c, num, blocks, v, t) {
      var e: nat :| e < |c.g.succs| && Reason(c, num, e, BlockOf(blocks, e), v, t);
      ReasonLasts(c, num, blocks, e, v, t);
    }
    if Lasts(c, v) {
      var e: nat :| e < |c.g.succs| && LastsIn(c, e, v);
      var t := LastsReason(c, num, blocks, e, v);
    }
  }

  lemma ReasonLasts(c: Code, num: map<nat, nat>, blocks: map<nat, Interval>, e: nat, v: nat, t: nat)
    requires Straight(c) && Numbers(c, num, blocks) && e < |c.g.succs|
    requires Reason(c, num, e, BlockOf(blocks, e), v, t) && t > 0
    ensures LastsIn(c, e, v)
  {
    hide Straight, Numbers, LiveOut, Reads;
    StartedIff(c, num, blocks, e);
    if !LiveOut(c, e, v) || t != BlockOf(blocks, e).second {
      assert e in c.data;
      assert Started(c, e);
    }
  }

  lemma LastsReason(c: Code, num: map<nat, nat>, blocks: map<nat, Interval>, e: nat, v: nat) returns (t: nat)
    requires Straight(c) && Placed(c) && Numbers(c, num, blocks) && e < |c.g.succs| && LastsIn(c, e, v)
    ensures t > 0 && Ends(c, num, blocks, v, t)
  {
    hide Straight, Placed, Numbers, Started, Wanted;
    StartedIff(c, num, blocks, e);
    BlockNumbers(c, num, blocks, e);
    if Wanted(c, e, v) {
      t := WantedEnds(c, num, blocks, e, v);
    } else {
      var i :| 0 <= i < |ListOf(c.data, e)| && ListOf(c.data, e)[i] == v;
      OwnEnd(c, num, blocks, e, i);
      t := NumOf(num, v) + 2;
    }
  }

  // ---------------------------------------------------------------- values at one point

  ghost predicate Spans(i: Interval, t: nat) {
    i.first <= t < i.second
  }

  // v is live at number t: where the block of region r begins, just after its i-th node,
  // or where the block ends.
  ghost predicate LiveAtPoint(c: Code, num: map<nat, nat>, blocks: map<nat, Interval>, r: nat, t: nat, v: nat) {
    && r < |c.g.succs|
    && (LiveAtStart(c, blocks, r, t, v) || LiveAtNode(c, num, r, t, v) || LiveAtEnd(c, blocks, r, t, v))
  }

  ghost predicate LiveAtStart(c: Code, blocks: map<nat, Interval>, r: nat, t: nat, v: nat) {
    r in c.data && t == BlockOf(blocks, r).first && ThereBefore(c, r, v) && Wanted(c, r, v)
  }

  ghost predicate LiveAtNode(c: Code, num: map<nat, nat>, r: nat, t: nat, v: nat) {
    exists i: nat :: i < |ListOf(c.data, r)| && AfterNode(c, num, r, i, t, v)
  }

  ghost predicate AfterNode(c: Code, num: map<nat, nat>, r: nat, i: nat, t: nat, v: nat)
    requires i < |ListOf(c.data, r)|
  {
    && t == NumOf(num, ListOf(c.data, r)[i]) && LiveAfter(c, r, i, v)
    && (v == ListOf(c.data, r)[i] || DefinedBefore(c, r, i, v))
  }

  ghost predicate LiveAtEnd(c: Code, blocks: map<nat, Interval>, r: nat, t: nat, v: nat) {
    t + 1 == BlockOf(blocks, r).second && LiveOut(c, r, v) && HasDefinition(c, v)
  }

  // The interval of a value spans every point at which the value is live.
  lemma LiveSpans(c: Code, num: map<nat, nat>, blocks: map<nat, Interval>, liveIn: map<nat, set<nat>>,
          m: map<nat, Interval>, r: nat, t: nat, v: nat)
    requires Straight(c) && Placed(c) && Analysed(c, num, blocks, liveIn, m) && LiveAtPoint(c, num, blocks, r, t, v)
    ensures Spans(Look(m, v), t)
  {
    assert Numbers(c, num, blocks);
    hide Straight, Placed, Analysed, Numbers, Look, Wanted, ThereBefore, LiveAfter, DefinedBefore, Ends, HasDefinition, LiveOut;
    IntervalIsExact(c, num, blocks, liveIn, m, v);
    if LiveAtStart(c, blocks, r, t, v) {
      StartsByBlock(c, num, blocks, r, v);
      var e := WantedEnds(c, num, blocks, r, v);
    } else if LiveAtNode(c, num, r, t, v) {
      var i: nat :| i < |ListOf(c.data, r)| && AfterNode(c, num, r, i, t, v);
      StartsByNode(c, num, blocks, r, i, v);
      var e := EndAbove(c, num, blocks, r, i, v);
    } else {
      StartsInBlock(c, num, blocks, r, v);
      OutEnds(c, num, blocks, r, v);
    }
  }

  lemma StartsByNode(c: Code, num: map<nat, nat>, blocks: map<nat, Interval>, r: nat, i: nat, v: nat)
    requires Straight(c) && Placed(c) && Numbers(c, num, blocks) && i < |ListOf(c.data, r)| && LiveAfter(c, r, i, v)
    requires v == ListOf(c.data, r)[i] || DefinedBefore(c, r, i, v)
    ensures HasDefinition(c, v) && NumOf(num, v) <= NumOf(num, ListOf(c.data, r)[i])
  {
    hide Straight, Placed, Numbers, LiveAfter, DefinedBefore;
    if v == ListOf(c.data, r)[i] {
      OwnEnd(c, num, blocks, r, i);
    } else {
      StartBelow(c, num, blocks, r, i, v);
    }
  }

  // What leaves a block alive was defined before the block ended.
  lemma StartsInBlock(c: Code, num: map<nat, nat>, blocks: map<nat, Interval>, r: nat, v: nat)
    requires Straight(c) && Placed(c) && Numbers(c, num, blocks) && r < |c.g.succs| && HasDefinition(c, v)
    requires LiveOut(c, r, v) && BlockOf(blocks, r).second > 0
    ensures NumOf(num, v) < BlockOf(blocks, r).second
  {
    hide Straight, Placed, Numbers, LiveOut, Defined;
    var d: nat :| d < |c.g.succs| && Defined(c, d, v);
    NumberInBlock(c, num, blocks, d, v);
    if d != r {
      assert Wanted(c, r, v);
      WantedBelow(c, r, v, d);
      BlockNumbers(c, num, blocks, r);
    }
  }

  lemma OutEnds(c: Code, num: map<nat, nat>, blocks: map<nat, Interval>, r: nat, v: nat)
    requires r < |c.g.succs| && LiveOut(c, r, v)
    ensures Ends(c, num, blocks, v, BlockOf(blocks, r).second)
  {
    hide LiveOut;
    assert Reason(c, num, r, BlockOf(blocks, r), v, BlockOf(blocks, r).second);
  }

  // ---------------------------------------------------------------- scheduled functions

  // Every phi's region dominates the regions that need the phi.
  ghost predicate PhisDominate(ns: Nodes, g: Cfg, mapped: map<nat, nat>) {
    forall v: nat, u: nat, r: nat :: IsPhi(ns, v) && v in mapped && u in ns[v].users && NeededIn(ns, g, mapped, v, u, r) ==>
      Dominates(g, mapped[v], r)
  }

  lemma ReaderNeeds(ns: Nodes, g: Cfg, mapped: map<nat, nat>, u: nat, v: nat)
    requires Dual(ns) && Reads(ns, u, v) && IsData(ns[u].kind) && u in mapped
    ensures v < |ns| && u in ns[v].users && NeededIn(ns, g, mapped, v, u, mapped[u])
  {
    var k :| 0 <= k < |ns[u].ops| && ns[u].ops[k] == Some(v);
    SlotHasUser(ns, u, k, v);
  }

  lemma EdgeUserNeeds(ns: Nodes, g: Cfg, mapped: map<nat, nat>, u: nat, i: nat, v: nat, r: nat)
    requires Dual(ns) && IsPhi(ns, u) && PhiNeeds(ns, g, u, i, v, r)
    ensures v < |ns| && u in ns[v].users && NeededIn(ns, g, mapped, v, u, r)
  {
    SlotHasUser(ns, u, i, v);
  }

  // Definitions, in the terms of the schedule.
  lemma DefinedIsMapped(ns: Nodes, g: Cfg, DT: DomTree, mapped: map<nat, nat>, c: Code, d: nat, v: nat)
    requires Covers(DT, g) && c.ns == ns && ValidSchedule(ns, g, DT, mapped, c.data) && Defined(c, d, v)
    ensures v in mapped && mapped[v] == d && (Used(ns, v) || IsPhi(ns, v))
    ensures v in ListOf(c.data, d) <==> Used(ns, v)
  {
    hide Lowest;
  }

  lemma NeededBelow(ns: Nodes, g: Cfg, DT: DomTree, mapped: map<nat, nat>, c: Code, d: nat, v: nat, u: nat, r: nat)
    requires Covers(DT, g) && DT.ExactFor(g) && c.ns == ns && ValidSchedule(ns, g, DT, mapped, c.data)
      && PhisDominate(ns, g, mapped)
    requires Defined(c, d, v) && v < |ns| && u in ns[v].users && NeededIn(ns, g, mapped, v, u, r)
    ensures Dominates(g, d, r)
  {
    DefinedIsMapped(ns, g, DT, mapped, c, d, v);
    hide ValidSchedule, NeededIn, Dominates;
    if Used(ns, v) {
      DefinitionsDominateUses(ns, g, DT, mapped, c.data, v, u, r);
    }
  }

  lemma ReadBelow(ns: Nodes, g: Cfg, DT: DomTree, mapped: map<nat, nat>, c: Code, r: nat, i: nat, d: nat, v: nat)
    requires Dual(ns) && Covers(DT, g) && DT.ExactFor(g) && PhisDominate(ns, g, mapped)
    requires c.ns == ns && c.g == g && ValidSchedule(ns, g, DT, mapped, c.data)
    requires i < |ListOf(c.data, r)| && Reads(ns, ListOf(c.data, r)[i], v) && Defined(c, d, v)
    ensures if d == r then PhiOf(ns, r, v) || v in ListOf(c.data, r)[..i] else Dominates(g, d, r)
  {
    hide Dual, PhisDominate, PhiOf, NeededIn, Lowest, Dominates;
    var xs := ListOf(c.data, r);
    var u := xs[i];
    assert u in xs;
    assert Used(ns, u) && u in mapped && mapped[u] == r;
    ReaderNeeds(ns, g, mapped, u, v);
    NeededBelow(ns, g, DT, mapped, c, d, v, u, r);
    if d == r && v in xs {
      assert FirstIndex(xs, v) < FirstIndex(xs, u);
      assert FirstIndex(xs, u) <= i;
      assert xs[..i][FirstIndex(xs, v)] == v;
    }
  }

  // A valid schedule over exact dominators meets the assumption of this analysis.
  lemma ScheduleIsPlaced(ns: Nodes, g: Cfg, DT: DomTree, mapped: map<nat, nat>, c: Code)
    requires Dual(ns) && Covers(DT, g) && DT.ExactFor(g) && PhisDominate(ns, g, mapped)
    requires c.ns == ns && c.g == g && ValidSchedule(ns, g, DT, mapped, c.data)
    ensures Placed(c)
  {
    hide Dual, PhisDominate, ValidSchedule, Defined, Reads, NeededIn, Dominates, PhiNeeds, Covers, PhiOf;
    ScheduledRegions(ns, g, DT, mapped, c);
    forall r: nat, i: nat, d: nat, v: nat | i < |ListOf(c.data, r)| && Reads(ns, ListOf(c.data, r)[i], v) && Defined(c, d, v)
      ensures if d == r then PhiOf(ns, r, v) || v in ListOf(c.data, r)[..i] else Dominates(g, d, r)
    {
      ReadBelow(ns, g, DT, mapped, c, r, i, d, v);
    }
    forall r: nat, d: nat, v: nat | EdgeUse(c, r, v) && Defined(c, d, v) ensures Dominates(g, d, r) {
      EdgeUseBelow(ns, g, DT, mapped, c, d, v, r);
    }
  }

  lemma EdgeUseBelow(ns: Nodes, g: Cfg, DT: DomTree, mapped: map<nat, nat>, c: Code, d: nat, v: nat, r: nat)
    requires Dual(ns) && Covers(DT, g) && DT.ExactFor(g) && PhisDominate(ns, g, mapped)
    requires c.ns == ns && c.g == g && ValidSchedule(ns, g, DT, mapped, c.data)
    requires EdgeUse(c, r, v) && Defined(c, d, v)
    ensures Dominates(g, d, r)
  {
    hide Dual, PhisDominate, ValidSchedule, Defined, NeededIn, Dominates, PhiNeeds;
    var u: nat, i: nat :| IsPhi(ns, u) && PhiNeeds(ns, g, u, i, v, r);
    EdgeUserNeeds(ns, g, mapped, u, i, v, r);
    NeededBelow(ns, g, DT, mapped, c, d, v, u, r);
  }

  lemma ScheduledRegions(ns: Nodes, g: Cfg, DT: DomTree, mapped: map<nat, nat>, c: Code)
    requires Covers(DT, g) && c.ns == ns && c.g == g && ValidSchedule(ns, g, DT, mapped, c.data)
    ensures forall r: nat :: Distinct(ListOf(c.data, r))
    ensures forall r: nat, v: nat {:trigger v in ListOf(c.data, r)} :: v in ListOf(c.data, r) ==> r < |g.succs| && v < |ns| && IsData(ns[v].kind)
    ensures forall r: nat, s: nat, v: nat :: v in ListOf(c.data, r) && v in ListOf(c.data, s) ==> r == s
  {
    forall r: nat, v: nat {:trigger v in ListOf(c.data, r)} | v in ListOf(c.data, r) ensures r < |g.succs| && v < |ns| && IsData(ns[v].kind) {
      assert Used(ns, v) && v in mapped && mapped[v] == r;
      assert Lowest(ns, g, DT, mapped, v, mapped[v]);
      assert r in DT.nodeToIdx;
    }
    forall r: nat, s: nat, v: nat | v in ListOf(c.data, r) && v in ListOf(c.data, s) ensures r == s {
      assert Used(ns, v) && mapped[v] == r && mapped[v] == s;
    }
  }
}
