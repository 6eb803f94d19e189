// Folding of Add, Shl and Xor over constants (src/Optimizations/ConstantFolding.hpp).
// Folded constants are kept in 64 bits, not reduced to the width of their type.
module ConstantFoldingPass {
  import opened SeqUtil
  import opened Bits
  import opened UseDef
  import opened Values
  import opened Rewriting

  const WORD := 64

  // ---------------------------------------------------------------- 64-bit constants

  // uint64_t arithmetic of _folde.
  function FoldValue(k: Kind, c1: nat, c2: nat): nat
    requires Rewritten(k)
  {
    match k
    case Add => (c1 + c2) % Pow2(WORD)
    case Xor => Bits.Xor(c1, c2) % Pow2(WORD)
    case Shl => Shifted(c1, c2) % Pow2(WORD)
  }

  // r is what a 64-bit machine computes from c1 and c2: their sum, the number c1 doubled
  // c2 times, or the bits in which they differ.
  ghost predicate WordResult(k: Kind, c1: nat, c2: nat, r: nat) {
    && r < 0x1_0000_0000_0000_0000
    && (k.Add? ==> r == (c1 + c2) % 0x1_0000_0000_0000_0000)
    && (k.Shl? ==> exists d: nat :: IsDoubled(c1, c2, d) && r == d % 0x1_0000_0000_0000_0000)
    && (k.Xor? ==> forall i: nat :: i < 64 ==> BitAt(r, i) == if BitAt(c1, i) != BitAt(c2, i) then 1 else 0)
  }

  lemma FoldValueIsWord(k: Kind, c1: nat, c2: nat)
    requires Rewritten(k)
    ensures WordResult(k, c1, c2, FoldValue(k, c1, c2))
  {
    Powers();
    hide Pow2, BitAt, IsDoubled;
    DoubledTimes(c1, c2, Shifted(c1, c2));
    if k.Xor? {
      forall i: nat | i < 64
        ensures BitAt(FoldValue(k, c1, c2), i) == if BitAt(c1, i) != BitAt(c2, i) then 1 else 0
      {
        BitOfMod(Bits.Xor(c1, c2), WORD, i);
        XorBit(c1, c2, i);
      }
    }
  }

  ghost predicate CanFold(ns: Nodes, n: nat) {
    && n < |ns| && Rewritten(ns[n].kind) && |ns[n].ops| == 2
    && ns[n].ops[0].Some? && ns[n].ops[1].Some? && Lhs(ns, n) < |ns| && Rhs(ns, n) < |ns|
    && ns[Lhs(ns, n)].kind.Constant? && ns[Rhs(ns, n)].kind.Constant?
  }

  // ---------------------------------------------------------------- what is constant, unreduced

  // raw[n] is the 64-bit number that folding gives node n, if folding reaches it.
  function RawMeaning(ns: Nodes, raw: seq<Option<nat>>, n: nat): Option<nat>
    requires n < |ns| == |raw| && InRange(ns) && (Rewritten(ns[n].kind) ==> |ns[n].ops| == 2)
  {
    var node := ns[n];
    if node.kind.Constant? then Some(node.kind.value)
    else if !Rewritten(node.kind) || !Complete(node) then None
    else RawApply(node.kind, raw[node.ops[0].value], raw[node.ops[1].value])
  }

  function RawApply(k: Kind, a: Option<nat>, b: Option<nat>): Option<nat>
    requires Rewritten(k)
  {
    if a.Some? && b.Some? then Some(FoldValue(k, a.value, b.value)) else None
  }

  ghost predicate IsRaw(ns: Nodes, raw: seq<Option<nat>>) {
    && Typed(ns) && |raw| == |ns|
    && forall n :: 0 <= n < |ns| ==> raw[n] == RawMeaning(ns, raw, n)
  }

  // The table, law by law: constants stand for themselves, an operator over two known
  // numbers for what a 64-bit machine computes from them, and nothing else is known.
  lemma RawIs(ns: Nodes, raw: seq<Option<nat>>, n: nat)
    requires IsRaw(ns, raw) && n < |ns|
    ensures ns[n].kind.Constant? ==> raw[n] == Some(ns[n].kind.value)
    ensures raw[n].Some? && !ns[n].kind.Constant? ==>
      && (ns[n].kind.Add? || ns[n].kind.Xor? || ns[n].kind.Shl?)
      && exists a: nat, b: nat :: ns[n].ops == [Some(a), Some(b)] && a < |ns| && b < |ns| && raw[a].Some? && raw[b].Some?
    ensures forall a: nat, b: nat ::
      (ns[n].kind.Add? || ns[n].kind.Xor? || ns[n].kind.Shl?) && a < |ns| && b < |ns| && ns[n].ops == [Some(a), Some(b)]
      && raw[a].Some? && raw[b].Some? ==>
        raw[n].Some? && WordResult(ns[n].kind, raw[a].value, raw[b].value, raw[n].value)
  {
    hide FoldValue, WordResult;
    assert raw[n] == RawMeaning(ns, raw, n);
    if Rewritten(ns[n].kind) && Complete(ns[n]) {
      var a, b := ns[n].ops[0].value, ns[n].ops[1].value;
      assert ns[n].ops == [Some(a), Some(b)];
      if raw[a].Some? && raw[b].Some? {
        FoldValueIsWord(ns[n].kind, raw[a].value, raw[b].value);
      }
    }
  }

  // Shift amounts that folding will use are below 64, as the C++ shift requires,
  // and below 2^w, so that reducing them changes nothing.
  ghost predicate ShiftOk(ns: Nodes, raw: seq<Option<nat>>, n: nat)
    requires n < |ns| == |raw| && InRange(ns) && (Rewritten(ns[n].kind) ==> |ns[n].ops| == 2)
  {
    ns[n].kind.Shl? && Complete(ns[n]) && raw[ns[n].ops[0].value].Some? && raw[ns[n].ops[1].value].Some? ==>
      raw[ns[n].ops[1].value].value < WORD && raw[ns[n].ops[1].value].value < Mod(ns[n].ty)
  }

  ghost predicate ShiftsOk(ns: Nodes, raw: seq<Option<nat>>) {
    && Typed(ns) && |raw| == |ns|
    && forall n :: 0 <= n < |ns| ==> ShiftOk(ns, raw, n)
  }

  ghost function RawEval(ns: Nodes, rank: seq<nat>, n: nat): Option<nat>
    requires Typed(ns) && Acyclic(ns, rank) && n < |ns|
    decreases if Computed(ns[n].kind) then 1 + rank[n] else 0
  {
    var node := ns[n];
    if node.kind.Constant? then Some(node.kind.value)
    else if !Rewritten(node.kind) || !Complete(node) then None
    else
      assert RankBelow(ns, rank, node.ops[0].value, n) && RankBelow(ns, rank, node.ops[1].value, n);
      RawApply(node.kind, RawEval(ns, rank, node.ops[0].value), RawEval(ns, rank, node.ops[1].value))
  }

  // Every acyclic graph has such a table.
  lemma RawExists(ns: Nodes, rank: seq<nat>) returns (raw: seq<Option<nat>>)
    requires Typed(ns) && Acyclic(ns, rank)
    ensures IsRaw(ns, raw)
  {
    raw := seq(|ns|, n requires 0 <= n < |ns| => RawEval(ns, rank, n));
    forall n | 0 <= n < |ns| ensures raw[n] == RawMeaning(ns, raw, n) {
      if Rewritten(ns[n].kind) && Complete(ns[n]) {
        assert RankBelow(ns, rank, ns[n].ops[0].value, n) && RankBelow(ns, rank, ns[n].ops[1].value, n);
      }
    }
  }

  // ---------------------------------------------------------------- folding agrees with reduction

  lemma WidthFits(ty: ValueType)
    ensures Width(ty) <= WORD
  {
  }

  lemma FoldReduces(k: Kind, ty: ValueType, c1: nat, c2: nat, env: Env)
    requires Rewritten(k) && (k.Shl? ==> c2 < Mod(ty))
    ensures Reduce(FoldValue(k, c1, c2), ty) == Apply(k, ty, [Reduce(c1, ty), Reduce(c2, ty)], env)
  {
    WidthFits(ty);
    match k
    case Add => FoldAdd(ty, c1, c2);
    case Xor => FoldXor(ty, c1, c2);
    case Shl => FoldShl(ty, c1, c2);
  }

  lemma FoldAdd(ty: ValueType, c1: nat, c2: nat)
    ensures Reduce((c1 + c2) % Pow2(WORD), ty) == Reduce(Reduce(c1, ty) + Reduce(c2, ty), ty)
  {
    hide Pow2, Width;
    WidthFits(ty);
    ModOfMod(c1 + c2, Width(ty), WORD);
    AddMod(c1, c2, Mod(ty));
  }

  lemma FoldXor(ty: ValueType, c1: nat, c2: nat)
    ensures Reduce(Bits.Xor(c1, c2) % Pow2(WORD), ty) == Reduce(Bits.Xor(Reduce(c1, ty), Reduce(c2, ty)), ty)
  {
    hide Pow2, Width, Bits.Xor;
    WidthFits(ty);
    ModOfMod(Bits.Xor(c1, c2), Width(ty), WORD);
    XorMod(c1, c2, Width(ty));
    ModSmall(Bits.Xor(Reduce(c1, ty), Reduce(c2, ty)), Mod(ty));
  }

  lemma FoldShl(ty: ValueType, c1: nat, c2: nat)
    requires c2 < Mod(ty)
    ensures Reduce(Shifted(c1, c2) % Pow2(WORD), ty) == Reduce(Shifted(Reduce(c1, ty), Reduce(c2, ty)), ty)
  {
    WidthFits(ty);
    ModSmall(c2, Mod(ty));
    ModOfMod(c1 * Pow2(c2), Width(ty), WORD);
    MulMod(c1, Pow2(c2), Mod(ty));
  }

  lemma BelowPow2(w: nat)
    ensures w < Pow2(w)
  {
  }

  // An amount of at least w leaves a multiple of 2^w.
  lemma ShiftedOut(c1: nat, c2: nat, w: nat)
    requires w <= c2
    ensures Shifted(c1, c2) % Pow2(w) == 0
  {
    var k := Pow2Split(w, c2);
    MulAssoc(c1, k, Pow2(w));
    hide Pow2;
    MultipleMod(c1 * k, Pow2(w));
  }

  // An amount of 2^w or more shifts everything out before the reduction.
  lemma WideShiftIsZero(ty: ValueType, c1: nat, c2: nat)
    requires c2 >= Mod(ty)
    ensures Reduce(FoldValue(Shl, c1, c2), ty) == 0
  {
    hide Pow2, Width, Shifted;
    WidthFits(ty);
    BelowPow2(Width(ty));
    ShiftedOut(c1, c2, Width(ty));
    ModOfMod(Shifted(c1, c2), Width(ty), WORD);
  }

  // Folding a shift agrees with reduction exactly when the amount is below 2^w or
  // the reduced operation yields zero as well.
  lemma FoldShlExactly(ty: ValueType, c1: nat, c2: nat, env: Env)
    ensures Reduce(FoldValue(Shl, c1, c2), ty) == Apply(Shl, ty, [Reduce(c1, ty), Reduce(c2, ty)], env) <==>
      c2 < Mod(ty) || Apply(Shl, ty, [Reduce(c1, ty), Reduce(c2, ty)], env) == 0
  {
    if c2 < Mod(ty) {
      FoldReduces(Shl, ty, c1, c2, env);
    } else {
      WideShiftIsZero(ty, c1, c2);
    }
    hide FoldValue, Apply, Mod, Reduce;
  }

  // A stored shift amount of 2^w or more is not reducible: on one bit, 1 << 2 folds
  // to 0, while reducing the amount first gives 1 << 0.
  lemma WideShiftDiffers(env: Env)
    ensures Reduce(FoldValue(Shl, 1, 2), Int1) != Apply(Shl, Int1, [Reduce(1, Int1), Reduce(2, Int1)], env)
  {
    assert Mod(Int1) == 2 by {
      assert Pow2(1) == 2 * Pow2(0);
    }
    assert Reduce(1, Int1) == 1 && Reduce(2, Int1) == 0;
    assert FoldValue(Shl, 1, 2) == 4 by {
      assert Pow2(2) == 2 * Pow2(1) == 4;
      Pow2Large();
    }
    assert Apply(Shl, Int1, [1, 0], env) == Reduce(1 * Pow2(0), Int1) == 1;
  }

  lemma Pow2Large()
    ensures 4 % Pow2(WORD) == 4
  {
    var k := Pow2Split(3, WORD);
    assert Pow2(3) == 2 * Pow2(2) == 8 by {
      assert Pow2(2) == 2 * Pow2(1);
    }
    assert Pow2(WORD) >= 8;
    ModSmall(4, Pow2(WORD));
  }

  // ---------------------------------------------------------------- one fold

  ghost predicate State(ns: Nodes, rank: seq<nat>, raw: seq<Option<nat>>) {
    Good(ns, rank) && IsRaw(ns, raw) && ShiftsOk(ns, raw)
  }

  function FoldedValue(ns: Nodes, n: nat): nat
    requires n < |ns| && Rewritten(ns[n].kind) && |ns[n].ops| == 2 && ns[n].ops[0].Some? && ns[n].ops[1].Some?
    requires Lhs(ns, n) < |ns| && Rhs(ns, n) < |ns|
    requires ns[Lhs(ns, n)].kind.Constant? && ns[Rhs(ns, n)].kind.Constant?
  {
    FoldValue(ns[n].kind, ns[Lhs(ns, n)].kind.value, ns[Rhs(ns, n)].kind.value)
  }

  // In every meaning, a foldable node reads as its folded constant.
  lemma FoldEqual(ns: Nodes, rank: seq<nat>, raw: seq<Option<nat>>, n: nat, env: Env, val: seq<nat>)
    requires State(ns, rank, raw) && CanFold(ns, n) && IsModel(ns, env, val)
    ensures val[n] == Reduce(FoldedValue(ns, n), ns[n].ty)
  {
    RawOperands(ns, rank, raw, n);
    hide Good, IsRaw, ShiftsOk, IsModel, Reduce, FoldValue, Apply;
    NodeEquation(ns, n, env, val);
    ConstantValue(ns, Lhs(ns, n), env, val);
    ConstantValue(ns, Rhs(ns, n), env, val);
    FoldReduces(ns[n].kind, ns[n].ty, ns[Lhs(ns, n)].kind.value, ns[Rhs(ns, n)].kind.value, env);
  }

  lemma RawOperands(ns: Nodes, rank: seq<nat>, raw: seq<Option<nat>>, n: nat)
    requires State(ns, rank, raw) && CanFold(ns, n)
    ensures |raw| == |ns| && raw[n] == Some(FoldedValue(ns, n))
    ensures ns[Lhs(ns, n)].ty == ns[n].ty && ns[Rhs(ns, n)].ty == ns[n].ty
    ensures ns[n].kind.Shl? ==> ns[Rhs(ns, n)].kind.value < WORD && ns[Rhs(ns, n)].kind.value < Mod(ns[n].ty)
  {
    hide FoldValue, Mod;
    var a, b := Lhs(ns, n), Rhs(ns, n);
    assert raw[a] == RawMeaning(ns, raw, a) && raw[b] == RawMeaning(ns, raw, b) && raw[n] == RawMeaning(ns, raw, n);
    assert ShiftOk(ns, raw, n);
  }

  // ---------------------------------------------------------------- the table after a fold

  lemma RawCreated(ns: Nodes, raw: seq<Option<nat>>, ns1: Nodes, c: nat, ty: ValueType)
    requires IsRaw(ns, raw) && ShiftsOk(ns, raw) && Created(ns, ns1, Constant(c), ty, []) && Typed(ns1)
    ensures IsRaw(ns1, raw + [Some(c)]) && ShiftsOk(ns1, raw + [Some(c)])
  {
    hide FoldValue, Mod;
    var raw1 := raw + [Some(c)];
    forall u | 0 <= u < |ns1| ensures raw1[u] == RawMeaning(ns1, raw1, u) && ShiftOk(ns1, raw1, u) {
      if u < |ns| {
        assert SameButUsers(ns1[u], ns[u]);
        assert raw[u] == RawMeaning(ns, raw, u) && ShiftOk(ns, raw, u);
      }
    }
  }

  lemma RawReplaced(ns: Nodes, raw: seq<Option<nat>>, ns': Nodes, n: nat, m: nat)
    requires IsRaw(ns, raw) && ShiftsOk(ns, raw) && n < |ns| && m < |ns| && n != m && Typed(ns')
    requires Rewritten(ns[n].kind) && Replaced(ns, ns', n, m) && raw[n] == raw[m]
    ensures IsRaw(ns', raw[n := None]) && ShiftsOk(ns', raw[n := None])
  {
    var raw' := raw[n := None];
    forall u | 0 <= u < |ns'| ensures raw'[u] == RawMeaning(ns', raw', u) && ShiftOk(ns', raw', u) {
      RawReplacedAt(ns, raw, ns', n, m, u);
    }
  }

  lemma RawReplacedAt(ns: Nodes, raw: seq<Option<nat>>, ns': Nodes, n: nat, m: nat, u: nat)
    requires IsRaw(ns, raw) && ShiftsOk(ns, raw) && n < |ns| && m < |ns| && n != m && Typed(ns') && u < |ns|
    requires Rewritten(ns[n].kind) && Replaced(ns, ns', n, m) && raw[n] == raw[m]
    ensures raw[n := None][u] == RawMeaning(ns', raw[n := None], u) && ShiftOk(ns', raw[n := None], u)
  {
    hide FoldValue, Mod;
    assert raw[u] == RawMeaning(ns, raw, u) && ShiftOk(ns, raw, u);
    var raw' := raw[n := None];
    if u == n {
      assert ns'[n].ops[0] == None;
    } else if Rewritten(ns[u].kind) && Complete(ns[u]) {
      assert Complete(ns'[u]);
      assert raw'[ns'[u].ops[0].value] == raw[ns[u].ops[0].value];
      assert raw'[ns'[u].ops[1].value] == raw[ns[u].ops[1].value];
    } else if Rewritten(ns[u].kind) {
      var i :| 0 <= i < |ns[u].ops| && ns[u].ops[i].None?;
      assert ns'[u].ops[i].None?;
    }
  }

  // ---------------------------------------------------------------- the fold of one node

  // n is replaced by a fresh constant and detached.
  ghost predicate FoldedInto(ns: Nodes, ns': Nodes, n: nat) {
    && CanFold(ns, n) && ReplacedByNew(ns, ns', n, 1)
    && ns'[|ns|].kind == Constant(FoldedValue(ns, n)) && ns'[|ns|].ty == ns[n].ty && ns'[|ns|].ops == []
  }

  // The fold, slot by slot: what held n holds a fresh constant, the 64-bit result.
  lemma FoldedResult(ns: Nodes, ns': Nodes, n: nat)
    requires Dual(ns) && FoldedInto(ns, ns', n)
    ensures |ns'| == |ns| + 1 && TakesPlace(ns, ns', n, |ns|)
    ensures ns'[|ns|].kind.Constant? && ns'[|ns|].ty == ns[n].ty && ns'[|ns|].ops == []
    ensures WordResult(ns[n].kind, ns[Lhs(ns, n)].kind.value, ns[Rhs(ns, n)].kind.value, ns'[|ns|].kind.value)
  {
    hide FoldValue, WordResult, ReplacedByNew;
    FoldValueIsWord(ns[n].kind, ns[Lhs(ns, n)].kind.value, ns[Rhs(ns, n)].kind.value);
    assert |ns'| == |ns| + 1 by {
      FoldedNode(ns, ns', n);
    }
    NewTakesPlace(ns, ns', n, 1);
  }

  // ---------------------------------------------------------------- what observers hold

  // A slot that holds a known number goes on to hold that number; any other slot stays.
  ghost predicate WordKept(raw: seq<Option<nat>>, raw': seq<Option<nat>>, s: Slot, s': Slot) {
    if s.None? then s' == None
    else
      && s.value < |raw| && s'.Some? && s'.value < |raw'|
      && raw'[s'.value] == raw[s.value] && (raw[s.value].None? ==> s' == s)
  }

  ghost predicate WordsKept(ns: Nodes, raw: seq<Option<nat>>, ns': Nodes, raw': seq<Option<nat>>) {
    && |ns| <= |ns'|
    && (forall u :: 0 <= u < |ns| ==> ns'[u].kind == ns[u].kind)
    && forall u :: 0 <= u < |ns| && !Rewritten(ns[u].kind) ==>
      && |ns'[u].ops| == |ns[u].ops|
      && forall i :: 0 <= i < |ns[u].ops| ==> WordKept(raw, raw', ns[u].ops[i], ns'[u].ops[i])
  }

  lemma WordsKeptRefl(ns: Nodes, raw: seq<Option<nat>>)
    requires InRange(ns) && |raw| == |ns|
    ensures WordsKept(ns, raw, ns, raw)
  {
  }

  lemma WordsKeptTrans(ns: Nodes, raw: seq<Option<nat>>, ns1: Nodes, raw1: seq<Option<nat>>, ns2: Nodes,
          raw2: seq<Option<nat>>)
    requires WordsKept(ns, raw, ns1, raw1) && WordsKept(ns1, raw1, ns2, raw2)
    ensures WordsKept(ns, raw, ns2, raw2)
  {
    forall u | 0 <= u < |ns| && !Rewritten(ns[u].kind)
      ensures |ns2[u].ops| == |ns[u].ops|
      ensures forall i :: 0 <= i < |ns[u].ops| ==> WordKept(raw, raw2, ns[u].ops[i], ns2[u].ops[i])
    {
      forall i | 0 <= i < |ns[u].ops| ensures WordKept(raw, raw2, ns[u].ops[i], ns2[u].ops[i]) {
        assert WordKept(raw, raw1, ns[u].ops[i], ns1[u].ops[i]);
        assert WordKept(raw1, raw2, ns1[u].ops[i], ns2[u].ops[i]);
      }
    }
  }

  lemma FoldedWords(ns: Nodes, raw: seq<Option<nat>>, ns': Nodes, n: nat, c: nat)
    requires TakesPlace(ns, ns', n, |ns|) && |raw| == |ns| && raw[n] == Some(c) && Rewritten(ns[n].kind) && InRange(ns)
    ensures WordsKept(ns, raw, ns', (raw + [Some(c)])[n := None])
  {
    var raw' := (raw + [Some(c)])[n := None];
    forall u, i | 0 <= u < |ns| && !Rewritten(ns[u].kind) && 0 <= i < |ns[u].ops|
      ensures WordKept(raw, raw', ns[u].ops[i], ns'[u].ops[i])
    {
    }
  }

  // Where nothing used can be folded any more, a known number in use is a constant.
  lemma {:induction false} KnownIsConstant(ns: Nodes, rank: seq<nat>, raw: seq<Option<nat>>, m: nat)
    requires State(ns, rank, raw) && m < |ns| == |raw| && raw[m].Some? && ns[m].users != multiset{}
    requires forall n: nat :: n < |ns| && ns[n].users != multiset{} ==> !CanFold(ns, n)
    ensures ns[m].kind == Constant(raw[m].value)
    decreases if Computed(ns[m].kind) then 1 + rank[m] else 0
  {
    hide FoldValue, ShiftsOk, LiveComplete, CanFold;
    assert raw[m] == RawMeaning(ns, raw, m);
    if Rewritten(ns[m].kind) {
      var a, b := Lhs(ns, m), Rhs(ns, m);
      KnownOperand(ns, rank, raw, m, 0);
      KnownOperand(ns, rank, raw, m, 1);
      KnownIsConstant(ns, rank, raw, a);
      KnownIsConstant(ns, rank, raw, b);
      ConstantsFold(ns, m);
    }
  }

  lemma ConstantsFold(ns: Nodes, n: nat)
    requires n < |ns| && Rewritten(ns[n].kind) && |ns[n].ops| == 2 && ns[n].ops[0].Some? && ns[n].ops[1].Some?
    requires Lhs(ns, n) < |ns| && ns[Lhs(ns, n)].kind.Constant? && Rhs(ns, n) < |ns| && ns[Rhs(ns, n)].kind.Constant?
    ensures CanFold(ns, n)
  {
  }

  lemma KnownOperand(ns: Nodes, rank: seq<nat>, raw: seq<Option<nat>>, m: nat, i: nat)
    requires State(ns, rank, raw) && m < |ns| && raw[m].Some? && Rewritten(ns[m].kind) && i < 2
    ensures |ns[m].ops| == 2 && ns[m].ops[i].Some? && ns[m].ops[i].value < |ns|
    ensures raw[ns[m].ops[i].value].Some? && ns[ns[m].ops[i].value].users != multiset{}
    ensures RankBelow(ns, rank, ns[m].ops[i].value, m)
  {
    hide FoldValue, ShiftsOk, LiveComplete;
    assert raw[m] == RawMeaning(ns, raw, m);
    SlotHasUser(ns, m, i, ns[m].ops[i].value);
  }

  // Every slot of a node that is not rewritten itself holds what it held, or the constant
  // that was known of it.
  ghost predicate ObserversSee(ns: Nodes, raw: seq<Option<nat>>, ns': Nodes) {
    && |ns| == |raw| && |ns| <= |ns'|
    && forall u, i :: 0 <= u < |ns| && !ns[u].kind.Add? && !ns[u].kind.Xor? && !ns[u].kind.Shl? && 0 <= i < |ns[u].ops| ==>
      |ns'[u].ops| == |ns[u].ops| && SlotSees(raw, ns', ns[u].ops[i], ns'[u].ops[i])
  }

  ghost predicate SlotSees(raw: seq<Option<nat>>, ns': Nodes, s: Slot, s': Slot) {
    if s.Some? && s.value < |raw| && raw[s.value].Some? then
      s'.Some? && s'.value < |ns'| && ns'[s'.value].kind == Constant(raw[s.value].value)
    else s' == s
  }

  lemma WordsInSlots(ns: Nodes, raw: seq<Option<nat>>, ns': Nodes, rank': seq<nat>, raw': seq<Option<nat>>)
    requires WordsKept(ns, raw, ns', raw') && State(ns', rank', raw') && |raw| == |ns|
    requires forall n: nat :: n < |ns'| && ns'[n].users != multiset{} ==> !CanFold(ns', n)
    ensures ObserversSee(ns, raw, ns')
  {
    hide CanFold, Typed, Acyclic, LiveComplete, ShiftsOk, RawMeaning;
    forall u, i | 0 <= u < |ns| && !ns[u].kind.Add? && !ns[u].kind.Xor? && !ns[u].kind.Shl? && 0 <= i < |ns[u].ops|
      ensures |ns'[u].ops| == |ns[u].ops| && SlotSees(raw, ns', ns[u].ops[i], ns'[u].ops[i])
    {
      assert WordKept(raw, raw', ns[u].ops[i], ns'[u].ops[i]);
      if ns[u].ops[i].Some? && raw[ns[u].ops[i].value].Some? {
        SlotHasUser(ns', u, i, ns'[u].ops[i].value);
        KnownIsConstant(ns', rank', raw', ns'[u].ops[i].value);
      }
    }
  }

  lemma FoldCreate(ns: Nodes, rank: seq<nat>, raw: seq<Option<nat>>, ns1: Nodes, n: nat)
    requires State(ns, rank, raw) && CanFold(ns, n)
    requires Created(ns, ns1, Constant(FoldedValue(ns, n)), ns[n].ty, [])
    ensures CanReplace(ns1, rank + [0], n, |ns|) && Preserves(ns, ns1)
    ensures IsRaw(ns1, raw + [Some(FoldedValue(ns, n))]) && ShiftsOk(ns1, raw + [Some(FoldedValue(ns, n))])
    ensures raw[n] == Some(FoldedValue(ns, n)) && |raw| == |ns|
    ensures ns[n].kind.Shl? ==> ns[Rhs(ns, n)].kind.value < WORD
  {
    RawOperands(ns, rank, raw, n);
    var c := FoldedValue(ns, n);
    CreatedGood(ns, rank, ns1, Constant(c), ns[n].ty, [], 0);
    CreatedPreserves(ns, rank, ns1, Constant(c), ns[n].ty, [], 0);
    RawCreated(ns, raw, ns1, c, ns[n].ty);
    assert SameButUsers(ns1[n], ns[n]);
    hide Acyclic, Typed, Dual, LiveComplete, Preserves, IsRaw, ShiftsOk, FoldValue;
  }

  lemma FoldCreatedEqual(ns: Nodes, rank: seq<nat>, raw: seq<Option<nat>>, ns1: Nodes, n: nat, env: Env, val: seq<nat>)
    requires State(ns, rank, raw) && CanFold(ns, n)
    requires Created(ns, ns1, Constant(FoldedValue(ns, n)), ns[n].ty, [])
      && State(ns1, rank + [0], raw + [Some(FoldedValue(ns, n))])
    requires IsModel(ns1, env, val)
    ensures val[n] == val[|ns|]
  {
    hide Good, IsRaw, ShiftsOk, IsModel, Reduce, FoldValue;
    assert SameButUsers(ns1[n], ns[n]);
    assert SameButUsers(ns1[Lhs(ns, n)], ns[Lhs(ns, n)]) && SameButUsers(ns1[Rhs(ns, n)], ns[Rhs(ns, n)]);
    FoldEqual(ns1, rank + [0], raw + [Some(FoldedValue(ns, n))], n, env, val);
    ConstantValue(ns1, |ns|, env, val);
  }

  // Replaces n by a new constant. A left shift that is carried out is by less than
  // 64, so the C++ shift is defined. `raw'` is the table afterwards.
  method Fold(F: Graph, n: nat, ghost rank: seq<nat>, ghost raw: seq<Option<nat>>)
    returns (folded: nat, ghost raw': seq<Option<nat>>)
    requires State(F.nodes, rank, raw) && CanFold(F.nodes, n)
    modifies F
    ensures folded == |old(F.nodes)| && FoldedInto(old(F.nodes), F.nodes, n)
    ensures old(F.nodes)[n].kind.Shl? ==> old(F.nodes)[Rhs(old(F.nodes), n)].kind.value < WORD
    ensures |F.nodes| == |old(F.nodes)| + 1 && TakesPlace(old(F.nodes), F.nodes, n, folded)
    ensures F.nodes[folded].kind.Constant? && F.nodes[folded].ty == old(F.nodes)[n].ty && F.nodes[folded].ops == []
    ensures var ns := old(F.nodes);
      WordResult(ns[n].kind, ns[ns[n].ops[0].value].kind.value, ns[ns[n].ops[1].value].kind.value, F.nodes[folded].kind.value)
    ensures State(F.nodes, rank + [0], raw') && Preserves(old(F.nodes), F.nodes)
    ensures WordsKept(old(F.nodes), raw, F.nodes, raw')
  {
    ghost var ns := F.nodes;
    hide Acyclic, Typed, LiveComplete, Preserves, IsModel, IsRaw, ShiftsOk, FoldValue, TakesPlace, WordResult, WordsKept, Uses;
    var ty, kind := F.nodes[n].ty, F.nodes[n].kind;
    var c1, c2 := F.nodes[Lhs(F.nodes, n)].kind.value, F.nodes[Rhs(F.nodes, n)].kind.value;
    var c := FoldValue(kind, c1, c2);
    folded := F.Create(Constant(c), ty, []);
    ghost var ns1 := F.nodes;
    FoldCreate(ns, rank, raw, ns1, n);
    raw' := FoldReplace(F, n, folded, ns, rank, raw);
    FoldedResult(ns, F.nodes, n);
    FoldedWords(ns, raw, F.nodes, n, c);
  }

  method FoldReplace(F: Graph, n: nat, folded: nat, ghost ns: Nodes, ghost rank: seq<nat>, ghost raw: seq<Option<nat>>)
    returns (ghost raw': seq<Option<nat>>)
    requires State(ns, rank, raw) && CanFold(ns, n) && folded == |ns|
    requires Created(ns, F.nodes, Constant(FoldedValue(ns, n)), ns[n].ty, [])
    requires CanReplace(F.nodes, rank + [0], n, |ns|) && Preserves(ns, F.nodes)
    requires IsRaw(F.nodes, raw + [Some(FoldedValue(ns, n))]) && ShiftsOk(F.nodes, raw + [Some(FoldedValue(ns, n))])
    requires |raw| == |ns| && raw[n] == Some(FoldedValue(ns, n))
    modifies F
    ensures FoldedInto(ns, F.nodes, n) && raw' == (raw + [Some(FoldedValue(ns, n))])[n := None]
    ensures State(F.nodes, rank + [0], raw') && Preserves(ns, F.nodes)
  {
    ghost var ns1 := F.nodes;
    ghost var c := FoldedValue(ns, n);
    hide Acyclic, Typed, Dual, LiveComplete, Preserves, IsModel, IsRaw, ShiftsOk, Created, Replaced, ReplacedByNew, FoldValue;
    forall env, val | IsModel(ns1, env, val) ensures val[n] == val[|ns|] {
      FoldCreatedEqual(ns, rank, raw, ns1, n, env, val);
    }
    ForwardTo(F, n, folded, rank + [0]);
    ReplacedPreserves(ns1, rank + [0], F.nodes, n, folded);
    PreservesTrans(ns, ns1, F.nodes);
    RawReplaced(ns1, raw + [Some(c)], F.nodes, n, folded);
    raw' := (raw + [Some(c)])[n := None];
    NewThenReplaced(ns, ns1, F.nodes, n, Constant(c), ns[n].ty, []);
  }

  // ---------------------------------------------------------------- the worklist

  // Visited nodes are detached. A node on the stack is visited or can be folded.
  ghost predicate StackOk(ns: Nodes, size: nat, stack: seq<nat>, visited: set<nat>) {
    && size <= |ns| && Below(stack, size)
    && (forall n: nat :: size <= n < |ns| ==> ns[n].kind.Constant? && ns[n].ops == [])
    && (forall n :: n in visited ==> n < size && !CanFold(ns, n) && Vacant(ns[n]))
    && forall k :: 0 <= k < |stack| ==> stack[k] in visited || CanFold(ns, stack[k])
  }

  // Everything used that can be folded waits on the stack.
  ghost predicate WaitingOk(ns: Nodes, stack: seq<nat>, visited: set<nat>) {
    forall n: nat :: n < |ns| && n !in visited && ns[n].users != multiset{} && CanFold(ns, n) ==> n in stack
  }

  ghost predicate Pending(ns: Nodes, size: nat, stack: seq<nat>, visited: set<nat>) {
    StackOk(ns, size, stack, visited) && WaitingOk(ns, stack, visited)
  }

  // A node that does not use the new constant keeps its slots.
  lemma FoldedElsewhere(ns: Nodes, ns': Nodes, n: nat, u: nat)
    requires Dual(ns) && FoldedInto(ns, ns', n) && u < |ns| && u != n && u !in ns'[|ns|].users
    ensures ns'[u].ops == ns[u].ops
  {
    hide FoldedValue, Uses;
    forall i | 0 <= i < |ns[u].ops| ensures ns[u].ops[i] != Some(n) {
      if ns[u].ops[i] == Some(n) {
        assert ns'[u].ops[i] == Some(|ns|);
        SlotHasUser(ns', u, i, |ns|);
      }
    }
  }

  lemma FoldedFoldable(ns: Nodes, ns': Nodes, n: nat, u: nat)
    requires Dual(ns) && FoldedInto(ns, ns', n) && u < |ns| && u != n
    ensures CanFold(ns, u) ==> CanFold(ns', u)
    ensures CanFold(ns', u) && u !in ns'[|ns|].users ==> CanFold(ns, u)
  {
    assert InRange(ns);
    hide FoldedValue, Dual;
    if u !in ns'[|ns|].users {
      FoldedElsewhere(ns, ns', n, u);
    }
  }

  // An earlier node has users after the fold only if it had before.
  lemma FoldedUsers(ns: Nodes, ns': Nodes, n: nat, u: nat)
    requires Dual(ns) && FoldedInto(ns, ns', n) && u < |ns| && u != n && ns'[u].users != multiset{}
    ensures ns[u].users != multiset{}
  {
    hide FoldedValue, Uses;
    var w :| w in ns'[u].users;
    var i := UserHasSlot(ns', u, w);
    assert w != n && w < |ns|;
    assert ns[w].ops[i] == Some(u);
    SlotHasUser(ns, w, i, u);
  }

  lemma FoldedNode(ns: Nodes, ns': Nodes, n: nat)
    requires Dual(ns) && FoldedInto(ns, ns', n)
    ensures |ns'| == |ns| + 1 && n < |ns| && Vacant(ns'[n]) && !CanFold(ns', n)
    ensures ns'[|ns|].kind.Constant? && ns'[|ns|].ops == []
    ensures forall u :: 0 <= u < |ns| ==> ns'[u].kind == ns[u].kind && (ns[u].ops == [] ==> ns'[u].ops == [])
    ensures forall u :: 0 <= u < |ns| && Vacant(ns[u]) ==> Vacant(ns'[u])
    ensures forall u :: u in ns'[|ns|].users ==> u < |ns| && u != n
  {
    hide FoldedValue, Uses;
    assert ns'[n].ops[0] == None;
    forall u | u in ns'[|ns|].users ensures u < |ns| && u != n {
      var i := UserHasSlot(ns', |ns|, u);
    }
  }

  lemma FoldedVisited(ns: Nodes, ns': Nodes, n: nat, u: nat)
    requires Dual(ns) && FoldedInto(ns, ns', n) && u < |ns| && Vacant(ns[u]) && !CanFold(ns, u)
    ensures !CanFold(ns', u)
  {
    FoldedNode(ns, ns', n);
    hide FoldedInto;
    assert |ns'[u].ops| == 2 ==> ns'[u].ops[0] == None;
  }

  lemma StackAfterFold(ns: Nodes, ns': Nodes, size: nat, stack: seq<nat>, visited: set<nat>, n: nat, stack': seq<nat>)
    requires Dual(ns) && FoldedInto(ns, ns', n) && n !in visited && n < size
    requires StackOk(ns, size, stack + [n], visited)
    requires Below(stack', size)
    requires forall k :: 0 <= k < |stack'| ==> stack'[k] in stack || CanFold(ns', stack'[k])
    ensures StackOk(ns', size, stack', visited + {n})
  {
    hide FoldedInto, Dual, CanFold;
    FoldedNode(ns, ns', n);
    forall k | 0 <= k < |stack'| ensures stack'[k] in visited + {n} || CanFold(ns', stack'[k]) {
      if stack'[k] in stack && stack'[k] !in visited + {n} {
        StillFoldable(ns, ns', size, stack, visited, n, stack'[k]);
      }
    }
    forall u | u in visited ensures !CanFold(ns', u) {
      FoldedVisited(ns, ns', n, u);
    }
  }

  lemma StillFoldable(ns: Nodes, ns': Nodes, size: nat, stack: seq<nat>, visited: set<nat>, n: nat, u: nat)
    requires Dual(ns) && FoldedInto(ns, ns', n) && StackOk(ns, size, stack + [n], visited)
    requires u in stack && u !in visited && u != n
    ensures CanFold(ns', u)
  {
    hide FoldedInto, Dual, CanFold;
    FoldedNode(ns, ns', n);
    var j :| 0 <= j < |stack| && stack[j] == u;
    assert (stack + [n])[j] == u;
    FoldedFoldable(ns, ns', n, u);
  }

  // After the fold, what is newly foldable is among the users of the new constant.
  lemma WaitingAfterFoldAt(ns: Nodes, ns': Nodes, stack: seq<nat>, visited: set<nat>, n: nat, u: nat)
    requires Dual(ns) && FoldedInto(ns, ns', n) && WaitingOk(ns, stack + [n], visited)
    requires u < |ns| && u != n && u !in visited && ns'[u].users != multiset{} && CanFold(ns', u)
    requires |ns| < |ns'| && u !in ns'[|ns|].users
    ensures u in stack
  {
    FoldedFoldable(ns, ns', n, u);
    FoldedUsers(ns, ns', n, u);
    hide FoldedInto, Dual, CanFold;
    assert u in stack + [n];
  }

  lemma ConstantNotFoldable(ns: Nodes, c: nat)
    requires c < |ns| && ns[c].kind.Constant?
    ensures !CanFold(ns, c)
  {
  }

  lemma WaitingAfterFold(ns: Nodes, ns': Nodes, stack: seq<nat>, visited: set<nat>, n: nat, stack': seq<nat>)
    requires Dual(ns) && FoldedInto(ns, ns', n)
    requires WaitingOk(ns, stack + [n], visited)
    requires forall x :: x in stack ==> x in stack'
    requires |ns| < |ns'| && forall u :: u in ns'[|ns|].users && CanFold(ns', u) ==> u in stack'
    ensures WaitingOk(ns', stack', visited + {n})
  {
    hide FoldedInto, Dual, CanFold;
    assert |ns'| == |ns| + 1 && n < |ns| && !CanFold(ns', n) && !CanFold(ns', |ns|) by {
      FoldedNode(ns, ns', n);
      ConstantNotFoldable(ns', |ns|);
    }
    forall u: nat | u < |ns'| && u !in visited + {n} && ns'[u].users != multiset{} && CanFold(ns', u) ensures u in stack' {
      if u !in ns'[|ns|].users {
        WaitingAfterFoldAt(ns, ns', stack, visited, n, u);
      }
    }
  }

  method CanFoldNode(F: Graph, n: nat) returns (r: bool)
    requires n < |F.nodes| && InRange(F.nodes) && (Rewritten(F.nodes[n].kind) ==> |F.nodes[n].ops| == 2 && Complete(F.nodes[n]))
    ensures r <==> CanFold(F.nodes, n)
  {
    if Rewritten(F.nodes[n].kind) {
      if F.nodes[Lhs(F.nodes, n)].kind.Constant? && F.nodes[Rhs(F.nodes, n)].kind.Constant? {
        return true;
      }
    }
    return false;
  }

  method InitialWork(F: Graph, ghost rank: seq<nat>) returns (res: seq<nat>)
    requires Good(F.nodes, rank)
    ensures Pending(F.nodes, |F.nodes|, res, {})
  {
    hide Acyclic, CanFold, Dual;
    res := [];
    GoodOperands(F.nodes, rank);
    for n := 0 to |F.nodes|
      invariant Below(res, n)
      invariant forall k :: 0 <= k < |res| ==> CanFold(F.nodes, res[k])
      invariant forall u: nat :: u < n && F.nodes[u].users != multiset{} && CanFold(F.nodes, u) ==> u in res
    {
      if F.nodes[n].users != multiset{} {
        var can := CanFoldNode(F, n);
        if can {
          res := res + [n];
        }
      }
    }
  }

  lemma GoodOperands(ns: Nodes, rank: seq<nat>)
    requires Good(ns, rank)
    ensures InRange(ns)
    ensures forall n :: 0 <= n < |ns| && Rewritten(ns[n].kind) && ns[n].users != multiset{} ==> |ns[n].ops| == 2 && Complete(ns[n])
  {
  }

  // Pushes the users of c that can be folded.
  method PushFoldable(F: Graph, c: nat, ghost rank: seq<nat>, stack: seq<nat>,
          ghost size: nat) returns (stack': seq<nat>)
    requires Good(F.nodes, rank) && c < |F.nodes| && size <= |F.nodes| && Below(stack, size)
    requires forall u :: u in F.nodes[c].users ==> u < size
    ensures Below(stack', size) && forall x :: x in stack ==> x in stack'
    ensures forall k :: 0 <= k < |stack'| ==> stack'[k] in stack || CanFold(F.nodes, stack'[k])
    ensures forall u :: u in F.nodes[c].users && CanFold(F.nodes, u) ==> u in stack'
  {
    hide Acyclic, CanFold, Dual, LiveComplete;
    stack' := stack;
    GoodOperands(F.nodes, rank);
    var rest := F.nodes[c].users;
    while rest != multiset{}
      invariant rest <= F.nodes[c].users
      invariant Below(stack', size) && forall x :: x in stack ==> x in stack'
      invariant forall k :: 0 <= k < |stack'| ==> stack'[k] in stack || CanFold(F.nodes, stack'[k])
      invariant forall u :: u in F.nodes[c].users && CanFold(F.nodes, u) ==> u in stack' || u in rest
      decreases |rest|
    {
      var u :| u in rest;
      rest := rest - multiset{u};
      assert u in F.nodes[c].users;
      UserComplete(F.nodes, rank, c, u);
      var can := CanFoldNode(F, u);
      if can {
        stack' := stack' + [u];
      }
    }
  }

  // A user has a filled slot, so it is not detached.
  lemma UserComplete(ns: Nodes, rank: seq<nat>, c: nat, u: nat)
    requires Good(ns, rank) && c < |ns| && u in ns[c].users
    ensures u < |ns| && (Rewritten(ns[u].kind) ==> |ns[u].ops| == 2 && Complete(ns[u]))
  {
    var i := UserHasSlot(ns, c, u);
  }

  // No used addition, exclusive or or shift has two constants for operands.
  ghost predicate NoConstantPair(ns: Nodes) {
    forall n: nat, a: nat, b: nat ::
      n < |ns| && a < |ns| && b < |ns| && ns[n].users != multiset{}
      && (ns[n].kind.Add? || ns[n].kind.Xor? || ns[n].kind.Shl?) && ns[n].ops == [Some(a), Some(b)] ==>
        !ns[a].kind.Constant? || !ns[b].kind.Constant?
  }

  // Observed values are unchanged, no used addition, exclusive or or shift is left over two
  // constants, and observers hold the constants that 64-bit arithmetic gives.
  method Run(F: Graph, ghost rank: seq<nat>, ghost raw: seq<Option<nat>>)
    returns (ghost rank': seq<nat>, ghost raw': seq<Option<nat>>)
    requires State(F.nodes, rank, raw)
    modifies F
    ensures State(F.nodes, rank', raw') && Preserves(old(F.nodes), F.nodes)
    ensures NoConstantPair(F.nodes)
    ensures ObserversSee(old(F.nodes), raw, F.nodes)
  {
    ghost var ns := F.nodes;
    hide State, Preserves, Pending, CanFold, Good, Dual, WordsKept, ObserversSee, NoConstantPair;
    rank', raw' := rank, raw;
    StateIsGood(ns, rank, raw);
    PreservesRefl(ns);
    WordsKeptRefl(ns, raw);
    var workStack := InitialWork(F, rank);
    ghost var size := |F.nodes|;
    var visited: set<nat> := {};
    while workStack != []
      invariant State(F.nodes, rank', raw') && Preserves(ns, F.nodes) && WordsKept(ns, raw, F.nodes, raw')
      invariant Pending(F.nodes, size, workStack, visited)
      decreases size - |visited|, |workStack|
    {
      var n := workStack[|workStack| - 1];
      assert workStack == workStack[..|workStack| - 1] + [n];
      workStack := workStack[..|workStack| - 1];
      if n in visited {
        PendingSkip(F.nodes, size, workStack, visited, n);
      } else {
        PendingTop(F.nodes, size, workStack, visited, n);
        workStack, rank', raw' := FoldStep(F, n, ns, raw, rank', raw', workStack, size, visited);
        visited := visited + {n};
      }
    }
    PendingDone(F.nodes, size, visited);
    WordsInSlots(ns, raw, F.nodes, rank', raw');
    NothingFoldable(F.nodes);
  }

  lemma NothingFoldable(ns: Nodes)
    requires forall n: nat :: n < |ns| && ns[n].users != multiset{} ==> !CanFold(ns, n)
    ensures NoConstantPair(ns)
  {
    forall n: nat, a: nat, b: nat | n < |ns| && a < |ns| && b < |ns| && ns[n].users != multiset{}
      && (ns[n].kind.Add? || ns[n].kind.Xor? || ns[n].kind.Shl?) && ns[n].ops == [Some(a), Some(b)]
      ensures !ns[a].kind.Constant? || !ns[b].kind.Constant?
    {
      assert !CanFold(ns, n);
    }
  }

  lemma StateIsGood(ns: Nodes, rank: seq<nat>, raw: seq<Option<nat>>)
    requires State(ns, rank, raw)
    ensures Good(ns, rank) && Dual(ns) && InRange(ns) && |raw| == |ns|
  {
  }

  lemma PendingSkip(ns: Nodes, size: nat, stack: seq<nat>, visited: set<nat>, n: nat)
    requires Pending(ns, size, stack + [n], visited) && n in visited
    ensures Pending(ns, size, stack, visited)
  {
    assert forall k :: 0 <= k < |stack| ==> (stack + [n])[k] == stack[k];
    assert forall x: nat :: x in stack + [n] <==> x in stack || x == n;
  }

  lemma PendingTop(ns: Nodes, size: nat, stack: seq<nat>, visited: set<nat>, n: nat)
    requires Pending(ns, size, stack + [n], visited) && n !in visited
    ensures CanFold(ns, n) && n < size && |visited + {n}| == |visited| + 1 <= size
    ensures Below(stack, size) && size <= |ns|
  {
    assert (stack + [n])[|stack|] == n;
    assert forall k :: 0 <= k < |stack| ==> (stack + [n])[k] == stack[k];
    SetBelow(visited + {n}, size);
  }

  lemma PendingDone(ns: Nodes, size: nat, visited: set<nat>)
    requires Pending(ns, size, [], visited)
    ensures forall n: nat :: n < |ns| && ns[n].users != multiset{} ==> !CanFold(ns, n)
  {
    hide CanFold;
  }

  method FoldStep(F: Graph, n: nat, ghost ns: Nodes, ghost raw0: seq<Option<nat>>, ghost rank: seq<nat>,
                  ghost raw: seq<Option<nat>>, stack: seq<nat>, ghost size: nat, ghost visited: set<nat>)
    returns (stack': seq<nat>, ghost rank': seq<nat>, ghost raw': seq<Option<nat>>)
    requires State(F.nodes, rank, raw) && Preserves(ns, F.nodes) && WordsKept(ns, raw0, F.nodes, raw)
    requires Pending(F.nodes, size, stack + [n], visited) && n !in visited
    modifies F
    ensures State(F.nodes, rank', raw') && Preserves(ns, F.nodes) && WordsKept(ns, raw0, F.nodes, raw')
    ensures Pending(F.nodes, size, stack', visited + {n})
  {
    hide State, Preserves, Pending, FoldedInto, WordsKept, WordResult, TakesPlace;
    ghost var cur := F.nodes;
    StateIsGood(cur, rank, raw);
    PendingTop(cur, size, stack, visited, n);
    var folded;
    folded, raw' := Fold(F, n, rank, raw);
    rank' := rank + [0];
    PreservesTrans(ns, cur, F.nodes);
    WordsKeptTrans(ns, raw0, cur, raw, F.nodes, raw');
    StateIsGood(F.nodes, rank', raw');
    FoldedUsersBelow(cur, F.nodes, size, stack, visited, n);
    stack' := PushFoldable(F, folded, rank', stack, size);
    FoldPending(cur, F.nodes, size, stack, visited, n, stack');
  }

  lemma FoldPending(ns: Nodes, ns': Nodes, size: nat, stack: seq<nat>, visited: set<nat>, n: nat, stack': seq<nat>)
    requires Dual(ns) && FoldedInto(ns, ns', n) && n !in visited && n < size && |ns'| == |ns| + 1
    requires Pending(ns, size, stack + [n], visited)
    requires Below(stack', size) && (forall x :: x in stack ==> x in stack')
    requires forall k :: 0 <= k < |stack'| ==> stack'[k] in stack || CanFold(ns', stack'[k])
    requires forall u :: u in ns'[|ns|].users && CanFold(ns', u) ==> u in stack'
    ensures Pending(ns', size, stack', visited + {n})
  {
    hide StackOk, WaitingOk, FoldedInto, CanFold, Dual;
    StackAfterFold(ns, ns', size, stack, visited, n, stack');
    WaitingAfterFold(ns, ns', stack, visited, n, stack');
  }

  // Users of the new constant are rewritten or not constants, so they are older.
  lemma FoldedUsersBelow(ns: Nodes, ns': Nodes, size: nat, stack: seq<nat>, visited: set<nat>, n: nat)
    requires Dual(ns) && FoldedInto(ns, ns', n) && Pending(ns, size, stack + [n], visited)
    ensures |ns'| == |ns| + 1 && size <= |ns| && forall u :: u in ns'[|ns|].users ==> u < size
  {
    FoldedNode(ns, ns', n);
    assert forall u :: size <= u < |ns| ==> ns'[u].ops == [];
    forall u | u in ns'[|ns|].users ensures u < size {
      var i := UserHasSlot(ns', |ns|, u);
    }
  }
}
