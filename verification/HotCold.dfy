/**
  Splitting a transaction into operations for the switch and for the row store, in place, and the
  two ways back when it is not accelerated after all. One-pass mode: a register may be used once.
 */
module HotCold {

  const N_OPS: nat := 8

  type Key = nat

  datatype Mode = INVALID | READ | WRITE

  datatype Op = Op(id: Key, mode: Mode, value: nat)

  /** Where a key lives on the switch, and whether that is in the tenant's block. */
  datatype Place = Place(hot: bool, reg: nat, idx: nat)

  datatype HotOp = HotOp(op: Op, place: Place)

  type Layout = Key -> Place

  // ---------------------------------------------------------------- lists that end at an invalid operation

  function Live(ops: seq<Op>): (n: nat)
    ensures n <= |ops| && (n < |ops| ==> ops[n].mode == INVALID) && forall i :: 0 <= i < n ==> ops[i].mode != INVALID
  {
    if ops == [] || ops[0].mode == INVALID then 0 else 1 + Live(ops[1..])
  }

  function Ops(hot: seq<HotOp>): (ops: seq<Op>)
    ensures |ops| == |hot| && forall i :: 0 <= i < |hot| ==> ops[i] == hot[i].op
  {
    seq(|hot|, i requires 0 <= i < |hot| => hot[i].op)
  }

  lemma LiveIs(ops: seq<Op>, n: nat)
    requires n <= |ops| && (n < |ops| ==> ops[n].mode == INVALID) && forall i :: 0 <= i < n ==> ops[i].mode != INVALID
    ensures Live(ops) == n
  {
  }

  // ---------------------------------------------------------------- the split on values

  function ColdPart(lay: Layout, ops: seq<Op>): seq<Op> {
    if ops == [] then [] else
      var op := ops[|ops| - 1];
      ColdPart(lay, ops[..|ops| - 1]) + (if lay(op.id).hot then [] else [op])
  }

  function HotPart(lay: Layout, ops: seq<Op>): seq<HotOp> {
    if ops == [] then [] else
      var op := ops[|ops| - 1];
      HotPart(lay, ops[..|ops| - 1]) + (if lay(op.id).hot then [HotOp(op, lay(op.id))] else [])
  }

  predicate DistinctRegs(hot: seq<HotOp>) {
    forall i, j :: 0 <= i < j < |hot| ==> hot[i].place.reg != hot[j].place.reg
  }

  function RegsOf(hot: seq<HotOp>): set<nat> {
    if hot == [] then {} else RegsOf(hot[..|hot| - 1]) + {hot[|hot| - 1].place.reg}
  }

  lemma SplitNext(lay: Layout, ops: seq<Op>, i: nat)
    requires i < |ops|
    ensures ColdPart(lay, ops[..i + 1]) == ColdPart(lay, ops[..i]) + (if lay(ops[i].id).hot then [] else [ops[i]])
    ensures HotPart(lay, ops[..i + 1]) ==
      HotPart(lay, ops[..i]) + (if lay(ops[i].id).hot then [HotOp(ops[i], lay(ops[i].id))] else [])
  {
    assert ops[..i + 1][..i] == ops[..i];
  }

  lemma OpsNext(hot: seq<HotOp>, x: HotOp)
    ensures Ops(hot + [x]) == Ops(hot) + [x.op]
  {
  }

  lemma {:induction false} RegsAre(hot: seq<HotOp>, r: nat)
    ensures r in RegsOf(hot) <==> exists i :: 0 <= i < |hot| && hot[i].place.reg == r
  {
    if hot != [] {
      var n := |hot| - 1;
      RegsAre(hot[..n], r);
      if i :| 0 <= i < |hot| && hot[i].place.reg == r {
        assert i < n ==> hot[..n][i].place.reg == r;
      }
    }
  }

  /** Registers stay distinct exactly if the next one was not used yet. */
  lemma DistinctNext(hot: seq<HotOp>, x: HotOp)
    ensures DistinctRegs(hot + [x]) <==> DistinctRegs(hot) && x.place.reg !in RegsOf(hot)
    ensures RegsOf(hot + [x]) == RegsOf(hot) + {x.place.reg}
  {
    var hot' := hot + [x];
    assert hot'[..|hot|] == hot;
    RegsAre(hot, x.place.reg);
    if DistinctRegs(hot') {
      forall i, j | 0 <= i < j < |hot|
        ensures hot[i].place.reg != hot[j].place.reg
      {
        assert hot'[i].place.reg != hot'[j].place.reg;
      }
      forall i | 0 <= i < |hot|
        ensures hot[i].place.reg != x.place.reg
      {
        assert hot'[i].place.reg != hot'[|hot|].place.reg;
      }
    }
  }

  lemma PartsNext(cold: seq<Op>, hot: seq<Op>, ops: seq<Op>, x: Op, isHot: bool)
    requires multiset(cold) + multiset(hot) == multiset(ops)
    ensures multiset(cold + if isHot then [] else [x]) + multiset(hot + if isHot then [x] else []) ==
      multiset(ops + [x])
  {
    assert cold + [] == cold && hot + [] == hot;
  }

  /** No operation is lost or made up. */
  lemma {:induction false} SplitKeepsAll(lay: Layout, ops: seq<Op>)
    ensures |ColdPart(lay, ops)| + |HotPart(lay, ops)| == |ops|
    ensures multiset(ColdPart(lay, ops)) + multiset(Ops(HotPart(lay, ops))) == multiset(ops)
  {
    if ops != [] {
      var n := |ops| - 1;
      var op := ops[n];
      var hot := HotPart(lay, ops[..n]);
      SplitKeepsAll(lay, ops[..n]);
      PartsNext(ColdPart(lay, ops[..n]), Ops(hot), ops[..n], op, lay(op.id).hot);
      HotOpsNext(lay, ops);
      assert ops == ops[..n] + [op];
    }
  }

  lemma HotOpsNext(lay: Layout, ops: seq<Op>)
    requires ops != []
    ensures var n := |ops| - 1;
      Ops(HotPart(lay, ops)) == Ops(HotPart(lay, ops[..n])) + if lay(ops[n].id).hot then [ops[n]] else []
  {
    var n := |ops| - 1;
    var hot, x := HotPart(lay, ops[..n]), HotOp(ops[n], lay(ops[n].id));
    if x.place.hot {
      OpsNext(hot, x);
      assert HotPart(lay, ops) == hot + [x];
    } else {
      assert HotPart(lay, ops) == hot;
    }
  }

  /** Each part keeps the modes, and the hot part the places, of the operations it took. */
  lemma {:induction false} SplitIsOfOps(lay: Layout, ops: seq<Op>)
    ensures forall x :: x in ColdPart(lay, ops) ==> x in ops && !lay(x.id).hot
    ensures forall x :: x in HotPart(lay, ops) ==> x.op in ops && x.place == lay(x.op.id) && x.place.hot
  {
    if ops != [] {
      SplitIsOfOps(lay, ops[..|ops| - 1]);
    }
  }

  function Reversed(ops: seq<Op>): (r: seq<Op>)
    ensures |r| == |ops|
  {
    if ops == [] then [] else [ops[|ops| - 1]] + Reversed(ops[..|ops| - 1])
  }

  /** Both parts keep the order: those of two lists after each other are the parts after each other. */
  lemma {:induction false} SplitKeepsOrder(lay: Layout, a: seq<Op>, b: seq<Op>)
    ensures HotPart(lay, a + b) == HotPart(lay, a) + HotPart(lay, b)
    ensures ColdPart(lay, a + b) == ColdPart(lay, a) + ColdPart(lay, b)
  {
    if b == [] {
      assert a + b == a;
    } else {
      var n := |b| - 1;
      assert (a + b)[..|a| + n] == a + b[..n];
      SplitKeepsOrder(lay, a, b[..n]);
    }
  }

  lemma {:induction false} ReversedKeepsAll(ops: seq<Op>)
    ensures multiset(Reversed(ops)) == multiset(ops)
  {
    if ops != [] {
      var n := |ops| - 1;
      ReversedKeepsAll(ops[..n]);
      assert ops == ops[..n] + [ops[n]];
    }
  }

  /** What the split leaves behind for an accelerated transaction: both lists, each ended if it is not full. */
  ghost predicate IsSplit(lay: Layout, ops: seq<Op>, cold: seq<Op>, hot: seq<HotOp>) {
    && cold[..Live(cold)] == ColdPart(lay, ops)
    && hot[..Live(Ops(hot))] == HotPart(lay, ops)
  }

  /** What it leaves behind otherwise: no hot operation, and the same operations as before. */
  ghost predicate IsUndone(lay: Layout, ops: seq<Op>, cold: seq<Op>, hot: seq<HotOp>) {
    && Live(cold) == |ops| && multiset(cold[..|ops|]) == multiset(ops) && Live(Ops(hot)) == 0
    && cold[..|ops|] == ColdPart(lay, ops) + Ops(HotPart(lay, ops))
  }

  // ---------------------------------------------------------------- the way back after an abort

  /** The hot operations, last first, in place of the end of the cold list. */
  function FellBack(cold: seq<Op>, hot: seq<HotOp>): seq<Op>
    requires |cold| == |hot|
  {
    var h := Live(Ops(hot));
    cold[..|cold| - h] + Reversed(Ops(hot[..h]))
  }

  lemma ValidOps(ops: seq<Op>, ops': seq<Op>)
    requires multiset(ops) == multiset(ops') && Live(ops') == |ops'|
    ensures Live(ops) == |ops|
  {
    forall i | 0 <= i < |ops|
      ensures ops[i].mode != INVALID
    {
      assert ops[i] in multiset(ops) && ops[i] in ops';
    }
  }

  /**
    The fallback undoes the split of a full transaction. Its last check looks at the entry before
    the ones it wrote: that is a cold operation unless all were hot, and then it is before the array.
   */
  lemma FallbackRestores(lay: Layout, ops: seq<Op>, cold: seq<Op>, hot: seq<HotOp>)
    requires |cold| == |hot| == |ops| && Live(ops) == |ops| && IsSplit(lay, ops, cold, hot)
    ensures multiset(FellBack(cold, hot)) == multiset(ops) && Live(FellBack(cold, hot)) == |ops|
    ensures var checked := |cold| - 1 - Live(Ops(hot));
      && (checked >= 0 <==> ColdPart(lay, ops) != [])
      && (checked >= 0 ==> FellBack(cold, hot)[checked] == cold[checked] && cold[checked].mode != INVALID)
  {
    var h := Live(Ops(hot));
    SplitKeepsAll(lay, ops);
    assert cold[..|cold| - h] == ColdPart(lay, ops);
    ReversedKeepsAll(Ops(hot[..h]));
    ValidOps(FellBack(cold, hot), ops);
  }

  // ---------------------------------------------------------------- the split, operation by operation

  /** The first `i` operations are split; the others are still where they were. */
  ghost predicate Compacted(lay: Layout, ops: seq<Op>, cold: seq<Op>, hot: seq<HotOp>, i: nat, coldP: nat, hotP: nat) {
    && i <= |ops| == |cold| == |hot| && coldP + hotP == i
    && cold[..coldP] == ColdPart(lay, ops[..i]) && hot[..hotP] == HotPart(lay, ops[..i])
    && cold[i..] == ops[i..]
  }

  lemma CompactCold(lay: Layout, ops: seq<Op>, cold: seq<Op>, hot: seq<HotOp>, i: nat, coldP: nat, hotP: nat)
    requires Compacted(lay, ops, cold, hot, i, coldP, hotP) && i < |ops| && !lay(ops[i].id).hot
    ensures cold[i] == ops[i] && Compacted(lay, ops, cold[coldP := ops[i]], hot, i + 1, coldP + 1, hotP)
  {
    SplitNext(lay, ops, i);
    assert cold[i..][0] == ops[i..][0];
    assert cold[coldP := ops[i]][..coldP + 1] == cold[..coldP] + [ops[i]];
    assert cold[coldP := ops[i]][i + 1..] == cold[i..][1..] && ops[i..][1..] == ops[i + 1..];
  }

  lemma CompactHot(lay: Layout, ops: seq<Op>, cold: seq<Op>, hot: seq<HotOp>, i: nat, coldP: nat, hotP: nat)
    requires Compacted(lay, ops, cold, hot, i, coldP, hotP) && i < |ops| && lay(ops[i].id).hot
    ensures var x := HotOp(ops[i], lay(ops[i].id));
      && cold[i] == ops[i] && Compacted(lay, ops, cold, hot[hotP := x], i + 1, coldP, hotP + 1)
      && (DistinctRegs(hot[hotP := x][..hotP + 1]) <==>
         DistinctRegs(hot[..hotP]) && x.place.reg !in RegsOf(hot[..hotP]))
      && RegsOf(hot[hotP := x][..hotP + 1]) == RegsOf(hot[..hotP]) + {x.place.reg}
  {
    var x := HotOp(ops[i], lay(ops[i].id));
    SplitNext(lay, ops, i);
    DistinctNext(hot[..hotP], x);
    assert cold[i..][0] == ops[i..][0];
    assert hot[hotP := x][..hotP + 1] == hot[..hotP] + [x];
    assert cold[i + 1..] == cold[i..][1..] && ops[i..][1..] == ops[i + 1..];
  }

  /** The lists of an accelerated transaction, ended. */
  lemma SplitEnded(lay: Layout, ops: seq<Op>, cold: seq<Op>, hot: seq<HotOp>, coldP: nat, hotP: nat)
    requires Live(ops) == |ops| && coldP <= |cold| && hotP <= |hot|
    requires cold[..coldP] == ColdPart(lay, ops) && hot[..hotP] == HotPart(lay, ops)
    requires (coldP < |cold| ==> cold[coldP].mode == INVALID) && (hotP < |hot| ==> hot[hotP].op.mode == INVALID)
    ensures IsSplit(lay, ops, cold, hot)
  {
    SplitIsOfOps(lay, ops);
    assert forall i :: 0 <= i < coldP ==> cold[i] == cold[..coldP][i];
    assert forall i :: 0 <= i < hotP ==> hot[i] == hot[..hotP][i];
    LiveIs(cold, coldP);
    LiveIs(Ops(hot), hotP);
  }

  /** The list after the hot operations were copied behind the cold ones. */
  lemma Restored(lay: Layout, before: seq<Op>, after: seq<Op>)
    requires var ops := before[..Live(before)]; after == ColdPart(lay, ops) + Ops(HotPart(lay, ops)) + before[|ops|..]
    ensures var ops := before[..Live(before)];
      && |after| == |before| && Live(after) == |ops| && multiset(after[..|ops|]) == multiset(ops)
      && after[..|ops|] == ColdPart(lay, ops) + Ops(HotPart(lay, ops))
  {
    var ops := before[..Live(before)];
    SplitKeepsAll(lay, ops);
    LiveIs(ops, |ops|);
    assert after[..|ops|] == ColdPart(lay, ops) + Ops(HotPart(lay, ops));
    ValidOps(after[..|ops|], ops);
    assert forall i :: 0 <= i < |ops| ==> after[i] == after[..|ops|][i];
    assert |ops| < |before| ==> after[|ops|] == before[|ops|];
    LiveIs(after, |ops|);
  }

  lemma FallbackNext(cold: seq<Op>, hot: seq<HotOp>, p: nat)
    requires |cold| == |hot| && p < |hot|
    ensures var n := |cold| - 1 - p;
      (cold[..n + 1] + Reversed(Ops(hot[..p])))[n := hot[p].op] == cold[..n] + Reversed(Ops(hot[..p + 1]))
  {
    assert hot[..p + 1] == hot[..p] + [hot[p]];
    OpsNext(hot[..p], hot[p]);
    assert (Ops(hot[..p]) + [hot[p].op])[..p] == Ops(hot[..p]);
  }

  // ---------------------------------------------------------------- in place

  class Txn {
    const cold: array<Op>
    const hot: array<HotOp>
    var doAccel: bool

    constructor (c: array<Op>, h: array<HotOp>)
      requires c.Length == h.Length == N_OPS
      ensures cold == c && hot == h && !doAccel && Valid()
    {
      cold := c;
      hot := h;
      doAccel := false;
    }

    ghost predicate Valid() {
      cold.Length == hot.Length == N_OPS
    }

    /** The one loop: cold operations move to the front of `cold`, hot ones to `hot`. */
    method Compact(lay: Layout) returns (coldP: nat, hotP: nat)
      requires Valid()
      modifies this`doAccel, cold, hot
      ensures var ops := old(cold[..])[..Live(old(cold[..]))];
        && coldP + hotP == |ops|
        && cold[..coldP] == ColdPart(lay, ops) && hot[..hotP] == HotPart(lay, ops)
        && cold[|ops|..] == old(cold[..])[|ops|..]
        && (doAccel <==> DistinctRegs(HotPart(lay, ops)))
    {
      ghost var ops := cold[..];
      var used: set<nat> := {};
      doAccel := true;
      coldP, hotP := 0, 0;
      var i := 0;
      while i < N_OPS && cold[i].mode != INVALID
        invariant Compacted(lay, ops, cold[..], hot[..], i, coldP, hotP)
        invariant forall j :: 0 <= j < i ==> ops[j].mode != INVALID
        invariant used == RegsOf(hot[..][..hotP]) && (doAccel <==> DistinctRegs(hot[..][..hotP]))
        decreases N_OPS - i
      {
        used, coldP, hotP := MoveOne(lay, ops, i, coldP, hotP, used);
        i := i + 1;
      }
      assert cold[i..] == ops[i..];
      assert i < N_OPS ==> cold[i..][0] == ops[i..][0];
      LiveIs(ops, i);
    }

    method MoveOne(lay: Layout, ghost ops: seq<Op>, i: nat, coldP0: nat, hotP0: nat, used0: set<nat>)
      returns (used: set<nat>, coldP: nat, hotP: nat)
      requires Valid() && |ops| == N_OPS && i < N_OPS && Compacted(lay, ops, cold[..], hot[..], i, coldP0, hotP0)
      requires used0 == RegsOf(hot[..][..hotP0]) && (doAccel <==> DistinctRegs(hot[..][..hotP0]))
      modifies this`doAccel, cold, hot
      ensures Compacted(lay, ops, cold[..], hot[..], i + 1, coldP, hotP)
      ensures used == RegsOf(hot[..][..hotP]) && (doAccel <==> DistinctRegs(hot[..][..hotP]))
      ensures old(cold[i]) == ops[i]
    {
      used, coldP, hotP := used0, coldP0, hotP0;
      var op := cold[i];
      assert op == cold[..][i..][0] == ops[i..][0];
      var place := lay(op.id);
      if place.hot {
        CompactHot(lay, ops, cold[..], hot[..], i, coldP, hotP);
        if place.reg !in used {
          used := used + {place.reg};
        } else {
          doAccel := false;
        }
        hot[hotP] := HotOp(op, place);
        hotP := hotP + 1;
        assert hot[..] == old(hot[..])[hotP0 := HotOp(op, place)];
      } else {
        CompactCold(lay, ops, cold[..], hot[..], i, coldP, hotP);
        cold[coldP] := op;
        coldP := coldP + 1;
        assert cold[..] == old(cold[..])[coldP0 := op];
      }
    }

    /** Copies the first `hotP` hot operations behind the first `coldP` cold ones. */
    method CopyBack(coldP: nat, hotP: nat)
      requires Valid() && coldP + hotP <= N_OPS
      modifies cold
      ensures cold[..] == old(cold[..])[..coldP] + Ops(hot[..hotP]) + old(cold[..])[coldP + hotP..]
    {
      ghost var before, ops := cold[..], Ops(hot[..hotP]);
      for i := 0 to hotP
        invariant forall j :: 0 <= j < N_OPS ==> cold[j] == if coldP <= j < coldP + i then ops[j - coldP] else before[j]
      {
        cold[i + coldP] := hot[i].op;
      }
    }

    /** Ends both lists, if they are not full. */
    method End(coldP: nat, hotP: nat)
      requires Valid() && coldP <= N_OPS && hotP <= N_OPS
      modifies cold, hot
      ensures cold[..coldP] == old(cold[..coldP]) && (coldP < N_OPS ==> cold[coldP].mode == INVALID)
      ensures hot[..hotP] == old(hot[..hotP]) && (hotP < N_OPS ==> hot[hotP].op.mode == INVALID)
    {
      if coldP < N_OPS {
        cold[coldP] := cold[coldP].(mode := INVALID);
      }
      if hotP < N_OPS {
        hot[hotP] := hot[hotP].(op := hot[hotP].op.(mode := INVALID));
      }
    }

    /** Not accelerated after all: everything is cold again. */
    method Undo(lay: Layout, coldP: nat, hotP: nat, ghost before: seq<Op>)
      requires Valid() && |before| == N_OPS
      requires var ops := before[..Live(before)];
        && coldP + hotP == |ops| && cold[|ops|..] == before[|ops|..]
        && cold[..coldP] == ColdPart(lay, ops) && hot[..hotP] == HotPart(lay, ops)
      modifies cold, hot
      ensures IsUndone(lay, before[..Live(before)], cold[..], hot[..])
    {
      CopyBack(coldP, hotP);
      Restored(lay, before, cold[..]);
      hot[0] := hot[0].(op := hot[0].op.(mode := INVALID));
    }

    /** `extract_hot_cold`; `asserted` is what it asserts about an accelerated transaction. */
    method Extract(lay: Layout) returns (asserted: bool)
      requires Valid()
      modifies this`doAccel, cold, hot
      ensures var ops := old(cold[..])[..Live(old(cold[..]))];
        && (doAccel <==> DistinctRegs(HotPart(lay, ops)))
        && (asserted <==> (doAccel ==> |ops| == N_OPS))
        && if doAccel then IsSplit(lay, ops, cold[..], hot[..]) else IsUndone(lay, ops, cold[..], hot[..])
    {
      ghost var before := cold[..];
      ghost var ops := before[..Live(before)];
      var coldP, hotP := Compact(lay);
      if doAccel {
        End(coldP, hotP);
        LiveIs(ops, |ops|);
        SplitEnded(lay, ops, cold[..], hot[..], coldP, hotP);
        asserted := coldP + hotP == N_OPS;
      } else {
        Undo(lay, coldP, hotP, before);
        asserted := true;
      }
    }

    /**
      The part of `run_txn` that turns an accelerated transaction back into a cold one. `checked` is
      the index of the entry that it looks at last.
     */
    method Fallback() returns (checked: int)
      requires Valid()
      modifies this`doAccel, cold
      ensures cold[..] == FellBack(old(cold[..]), hot[..]) && !doAccel
      ensures checked == N_OPS - 1 - Live(Ops(hot[..]))
    {
      ghost var before, h := cold[..], hot[..];
      checked := N_OPS - 1;
      var p := 0;
      assert before[..N_OPS] + Reversed(Ops(h[..0])) == before;
      while p < N_OPS && hot[p].op.mode != INVALID
        invariant p <= N_OPS && checked == N_OPS - 1 - p
        invariant forall j :: 0 <= j < p ==> h[j].op.mode != INVALID
        invariant cold[..] == before[..N_OPS - p] + Reversed(Ops(h[..p]))
        decreases N_OPS - p
      {
        FallbackNext(before, h, p);
        ghost var now := cold[..];
        cold[checked] := hot[p].op;
        assert cold[..] == now[checked := h[p].op];
        checked := checked - 1;
        p := p + 1;
      }
      LiveIs(Ops(h), p);
      doAccel := false;
    }
  }
}
