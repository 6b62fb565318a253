/**
  What the packets add up to. Every tenant of the switch owns one block of every register; to it the
  switch is a map from hot keys to values on which its operations run one after another, whatever
  the other tenants send.
 */
module HotStore {
  import M = SwitchModel
  import opened HotCold
  import opened Packet
  import HostLayout

  /** Registers have 32768 cells. */
  const N_BLOCKS: nat := 32768 / HostLayout.SLOTS_PER_SCHED_BLOCK

  datatype Tenant = Tenant(plan: HostLayout.Plan, block: nat)

  ghost predicate TenantOk(t: Tenant) {
    HostLayout.Inv(t.plan) && HostLayout.Inverse(t.plan) && t.block < N_BLOCKS
  }

  function At(t: Tenant, k: Key): Place {
    HostLayout.Location(t.plan.virt, t.block, k)
  }

  predicate HotKey(t: Tenant, k: Key) {
    k in t.plan.virt && At(t, k).hot
  }

  function KeyCell(t: Tenant, k: Key): Cell {
    Cell(At(t, k).reg, At(t, k).idx)
  }

  predicate InBlock(block: nat, c: Cell) {
    HostLayout.SLOTS_PER_SCHED_BLOCK * block <= c.idx < HostLayout.SLOTS_PER_SCHED_BLOCK * (block + 1)
  }

  /** The tenant's view of the registers. */
  function Values(t: Tenant, regs: Store): map<Key, nat> {
    map k | k in t.plan.virt && HotKey(t, k) :: Lookup(regs, KeyCell(t, k))
  }

  /** The operations of one packet, as the split leaves them. */
  predicate OpsOk(t: Tenant, ops: seq<HotOp>) {
    && Typed(ops) && DistinctRegs(ops)
    && forall i :: 0 <= i < |ops| ==> HotKey(t, ops[i].op.id) && ops[i].place == At(t, ops[i].op.id)
  }

  /** The reference: operations on a map, one after another. */
  function Exec(kv: map<Key, nat>, ops: seq<HotOp>): map<Key, nat> {
    if ops == [] then kv else
      var x := ops[|ops| - 1].op;
      var kv' := Exec(kv, ops[..|ops| - 1]);
      if x.mode == WRITE then kv'[x.id := x.value] else kv'
  }

  // ---------------------------------------------------------------- no assertion of the node fails

  /** The offset fits into the packet exactly if the block's cells can be numbered with 16 bits. */
  lemma OffsetFits(block: nat)
    ensures Base(block) < 0xFFFF <==> block < HostLayout.N_BLOCKS_16
    ensures Base(block) % 128 == 0
    ensures forall c: Cell :: InBlock(block, c) ==> Base(block) <= c.idx < Base(block) + 128
  {
  }

  /** The packet of a hot transaction can be made. */
  lemma AssertsHold(t: Tenant, ops: seq<HotOp>)
    requires TenantOk(t) && OpsOk(t, ops)
    ensures Base(t.block) < 0xFFFF && InReach(ops, Base(t.block))
  {
    OffsetFits(t.block);
    forall i | 0 <= i < |ops|
      ensures OpOk(ops[i], Base(t.block))
    {
      HostLayout.InBlock(t.plan.virt, t.block, ops[i].op.id);
      assert InBlock(t.block, KeyCell(t, ops[i].op.id));
    }
  }

  // ---------------------------------------------------------------- one packet

  /** The switch got a packet with these operations and answered `d`. */
  ghost predicate Executed(t: Tenant, ops: seq<HotOp>, regs: Store, regs': Store, d: seq<nat>) {
    exists b ::
      && IsPacket(b, Base(t.block), ops)
      && Parse(b).Some? && Applied(regs, Parse(b).value, regs', d)
  }

  /** Registers written and read are those of the operations. */
  lemma CellAfter(t: Tenant, ops: seq<HotOp>, regs: Store, regs': Store, d: seq<nat>, c: Cell)
    requires TenantOk(t) && OpsOk(t, ops) && Executed(t, ops, regs, regs', d)
    ensures var x := OpFor(ops, c.reg);
      && (x.Some? && x.value.place.idx == c.idx ==>
            c.reg < |d| && d[c.reg] == Lookup(regs, c)
            && Lookup(regs', c) == if x.value.op.mode == WRITE then x.value.op.value else Lookup(regs, c))
      && (!(x.Some? && x.value.place.idx == c.idx) ==> Lookup(regs', c) == Lookup(regs, c))
  {
    var b :| IsPacket(b, Base(t.block), ops) && Parse(b).Some? && Applied(regs, Parse(b).value, regs', d);
    var h := Parse(b).value;
    OffsetFits(t.block);
    OpForIsOne(ops, c.reg);
    assert Lookup(regs', c) == Action(h, N_REGISTERS, c, Lookup(regs, c));
    if c.reg < N_REGISTERS {
      ReadsBack(b, Base(t.block), ops, c.reg);
      assert d[c.reg] == Lookup(regs, Cell(c.reg, Index(h, c.reg)));
    }
  }

  /** A packet stays within its block. */
  lemma StaysInBlock(t: Tenant, ops: seq<HotOp>, regs: Store, regs': Store, d: seq<nat>, c: Cell)
    requires TenantOk(t) && OpsOk(t, ops) && Executed(t, ops, regs, regs', d) && !InBlock(t.block, c)
    ensures Lookup(regs', c) == Lookup(regs, c)
  {
    CellAfter(t, ops, regs, regs', d, c);
    OpForIsOne(ops, c.reg);
    var x := OpFor(ops, c.reg);
    if x.Some? {
      HostLayout.InBlock(t.plan.virt, t.block, x.value.op.id);
    }
  }

  lemma OpsOkPrefix(t: Tenant, ops: seq<HotOp>, n: nat)
    requires OpsOk(t, ops) && n <= |ops|
    ensures OpsOk(t, ops[..n])
  {
  }

  /** One after another or all at once is the same for operations on different registers. */
  lemma {:induction false} ExecAt(t: Tenant, kv: map<Key, nat>, ops: seq<HotOp>, k: Key)
    requires OpsOk(t, ops) && HotKey(t, k) && k in kv
    ensures var x := OpFor(ops, At(t, k).reg);
      && k in Exec(kv, ops)
      && Exec(kv, ops)[k] ==
         if x.Some? && x.value.op.id == k && x.value.op.mode == WRITE then x.value.op.value else kv[k]
  {
    if ops != [] {
      var n := |ops| - 1;
      OpsOkPrefix(t, ops, n);
      ExecAt(t, kv, ops[..n], k);
      OpForIsOne(ops[..n], At(t, k).reg);
      if ops[n].place.reg == At(t, k).reg {
        assert forall i :: 0 <= i < n ==> ops[..n][i].place.reg != ops[n].place.reg;
        assert OpFor(ops[..n], At(t, k).reg).None?;
      }
    }
  }

  lemma {:induction false} ExecKeys(kv: map<Key, nat>, ops: seq<HotOp>)
    requires forall i :: 0 <= i < |ops| ==> ops[i].op.id in kv
    ensures Exec(kv, ops).Keys == kv.Keys
  {
    if ops != [] {
      var n := |ops| - 1;
      ExecKeys(kv, ops[..n]);
      assert ops[n].op.id in kv;
    }
  }

  lemma ValueAfter(t: Tenant, ops: seq<HotOp>, regs: Store, regs': Store, d: seq<nat>, k: Key)
    requires TenantOk(t) && OpsOk(t, ops) && Executed(t, ops, regs, regs', d) && HotKey(t, k)
    ensures k in Exec(Values(t, regs), ops) && Values(t, regs')[k] == Exec(Values(t, regs), ops)[k]
  {
    var x := OpFor(ops, At(t, k).reg);
    ExecAt(t, Values(t, regs), ops, k);
    CellAfter(t, ops, regs, regs', d, KeyCell(t, k));
    OpForIsOne(ops, At(t, k).reg);
    if x.Some? && x.value.op.id != k {
      HostLayout.HotKeysApart(t.plan, t.block, k, x.value.op.id);
    }
  }

  lemma ReplyIs(t: Tenant, ops: seq<HotOp>, regs: Store, regs': Store, d: seq<nat>, i: nat)
    requires TenantOk(t) && OpsOk(t, ops) && Executed(t, ops, regs, regs', d) && i < |ops|
    ensures var x := ops[i];
      && x.place.reg < |d| && x.op.id in Exec(Values(t, regs), ops[..i])
      && d[x.place.reg] == Exec(Values(t, regs), ops[..i])[x.op.id]
  {
    var x := ops[i];
    CellAfter(t, ops, regs, regs', d, Cell(x.place.reg, x.place.idx));
    OpForDistinct(ops, i);
    OpsOkPrefix(t, ops, i);
    ExecAt(t, Values(t, regs), ops[..i], x.op.id);
    OpForIsOne(ops[..i], x.place.reg);
    assert forall j :: 0 <= j < i ==> ops[..i][j].place.reg != x.place.reg;
  }

  lemma {:induction false} OpForDistinct(ops: seq<HotOp>, i: nat)
    requires DistinctRegs(ops) && i < |ops|
    ensures OpFor(ops, ops[i].place.reg) == M.Some(ops[i])
  {
    var n := |ops| - 1;
    if i < n {
      assert ops[i].place.reg != ops[n].place.reg;
      OpForDistinct(ops[..n], i);
    }
  }

  /**
    A packet does to its tenant's keys what its operations do one after another, answers what they
    would read, and touches no cell outside the block.
   */
  lemma PacketIsTxn(t: Tenant, ops: seq<HotOp>, regs: Store, regs': Store, d: seq<nat>)
    requires TenantOk(t) && OpsOk(t, ops) && Executed(t, ops, regs, regs', d)
    ensures Values(t, regs') == Exec(Values(t, regs), ops)
    ensures forall i :: 0 <= i < |ops| ==> Answers(d, ops[i], Exec(Values(t, regs), ops[..i]))
    ensures forall c :: !InBlock(t.block, c) ==> Lookup(regs', c) == Lookup(regs, c)
  {
    ValuesAfter(t, ops, regs, regs', d);
    forall i | 0 <= i < |ops|
      ensures Answers(d, ops[i], Exec(Values(t, regs), ops[..i]))
    {
      ReplyIs(t, ops, regs, regs', d, i);
    }
    forall c | !InBlock(t.block, c)
      ensures Lookup(regs', c) == Lookup(regs, c)
    {
      StaysInBlock(t, ops, regs, regs', d, c);
    }
  }

  lemma ValuesAfter(t: Tenant, ops: seq<HotOp>, regs: Store, regs': Store, d: seq<nat>)
    requires TenantOk(t) && OpsOk(t, ops) && Executed(t, ops, regs, regs', d)
    ensures Values(t, regs') == Exec(Values(t, regs), ops)
  {
    var kv, kv' := Values(t, regs), Values(t, regs');
    ExecKeys(kv, ops);
    forall k | k in kv
      ensures kv'[k] == Exec(kv, ops)[k]
    {
      ValueAfter(t, ops, regs, regs', d, k);
    }
    assert kv'.Keys == kv.Keys;
  }

  /** The reply holds, for this operation, the value its key has in `kv`. */
  predicate Answers(d: seq<nat>, x: HotOp, kv: map<Key, nat>) {
    x.place.reg < |d| && x.op.id in kv && d[x.place.reg] == kv[x.op.id]
  }

  // ---------------------------------------------------------------- from the split to the reply

  /** What the split calls the layout. */
  function LayoutOf(t: Tenant): HotCold.Layout {
    (k: Key) => At(t, k)
  }

  predicate RowsOk(t: Tenant, ops: seq<Op>) {
    forall i :: 0 <= i < |ops| ==> ops[i].id in t.plan.virt && ops[i].mode != INVALID && ops[i].value < WORD
  }

  lemma SplitOpOk(t: Tenant, ops: seq<Op>, x: HotOp)
    requires RowsOk(t, ops) && HostLayout.Inv(t.plan) && x in HotPart(LayoutOf(t), ops)
    ensures TypedOp(x) && HotKey(t, x.op.id) && x.place == At(t, x.op.id)
  {
    SplitIsOfOps(LayoutOf(t), ops);
    assert x.op in ops && x.place == LayoutOf(t)(x.op.id);
  }

  /** The hot part of an accelerated transaction makes a packet. */
  lemma SplitMakesPacket(t: Tenant, ops: seq<Op>)
    requires RowsOk(t, ops) && HostLayout.Inv(t.plan) && DistinctRegs(HotPart(LayoutOf(t), ops))
    ensures OpsOk(t, HotPart(LayoutOf(t), ops))
  {
    var hot := HotPart(LayoutOf(t), ops);
    forall i | 0 <= i < |hot|
      ensures TypedOp(hot[i]) && HotKey(t, hot[i].op.id) && hot[i].place == At(t, hot[i].op.id)
    {
      SplitOpOk(t, ops, hot[i]);
    }
  }

  /** One trip: the node makes the packet, the switch parses it, runs its actions and answers. */
  method Trip(t: Tenant, txn: Txn, buf: array<Byte>, dst: seq<Byte>, src: seq<Byte>, switch: Ingress)
    returns (d: seq<nat>)
    requires TenantOk(t) && txn.Valid() && txn.doAccel && OpsOk(t, txn.hot[..Live(Ops(txn.hot[..]))])
    requires buf.Length == PKT_BYTES && |dst| == |src| == MAC_BYTES
    modifies buf, switch
    ensures var ops, before := txn.hot[..Live(Ops(txn.hot[..]))], old(Values(t, switch.regs));
      && Values(t, switch.regs) == Exec(before, ops)
      && forall i :: 0 <= i < |ops| ==> Answers(d, ops[i], Exec(before, ops[..i]))
  {
    ghost var ops, regs := txn.hot[..Live(Ops(txn.hot[..]))], switch.regs;
    AssertsHold(t, ops);
    var asserted := MakeTxn(txn, buf, dst, src, t.block);
    assert asserted;
    OffsetFits(t.block);
    ReadsBack(buf[..], Base(t.block), ops, 0);
    d := switch.Apply(Parse(buf[..]).value);
    assert Executed(t, ops, regs, switch.regs, d);
    PacketIsTxn(t, ops, regs, switch.regs, d);
  }

  // ---------------------------------------------------------------- all packets of all tenants

  /** A packet: who sent it, the layout and block it was made with, its operations and the reply. */
  datatype Sent = Sent(who: nat, t: Tenant, ops: seq<HotOp>, d: seq<nat>)

  ghost predicate Step(p: Sent, regs: Store, regs': Store) {
    TenantOk(p.t) && OpsOk(p.t, p.ops) && Executed(p.t, p.ops, regs, regs', p.d)
  }

  ghost predicate IsRun(sent: seq<Sent>, trace: seq<Store>) {
    && |trace| == |sent| + 1
    && forall i: nat :: i < |sent| ==> StepAt(sent, trace, i)
  }

  ghost predicate StepAt(sent: seq<Sent>, trace: seq<Store>, i: nat) {
    i < |sent| && i + 1 < |trace| && Step(sent[i], trace[i], trace[i + 1])
  }

  /** All through these packets the block is this tenant's alone; the others may use and change theirs as they like. */
  ghost predicate Owns(who: nat, t: Tenant, sent: seq<Sent>) {
    forall i :: 0 <= i < |sent| ==> if sent[i].who == who then sent[i].t == t else sent[i].t.block != t.block
  }

  /** Everything one tenant sent, in order. */
  function From(sent: seq<Sent>, who: nat): seq<HotOp> {
    if sent == [] then [] else
      From(sent[..|sent| - 1], who) + if sent[|sent| - 1].who == who then sent[|sent| - 1].ops else []
  }

  lemma {:induction false} ExecAppend(kv: map<Key, nat>, a: seq<HotOp>, b: seq<HotOp>)
    ensures Exec(kv, a + b) == Exec(Exec(kv, a), b)
  {
    if b == [] {
      assert a + b == a;
    } else {
      var n := |b| - 1;
      assert (a + b)[..|a| + n] == a + b[..n];
      ExecAppend(kv, a, b[..n]);
    }
  }

  /** A packet for another block leaves the tenant's values alone. */
  lemma OthersStay(p: Sent, regs: Store, regs': Store, t: Tenant)
    requires TenantOk(t) && Step(p, regs, regs') && p.t.block != t.block
    ensures Values(t, regs') == Values(t, regs)
  {
    forall k | HotKey(t, k)
      ensures Lookup(regs', KeyCell(t, k)) == Lookup(regs, KeyCell(t, k))
    {
      HostLayout.InBlock(t.plan.virt, t.block, k);
      StaysInBlock(p.t, p.ops, regs, regs', p.d, KeyCell(t, k));
    }
  }

  lemma RunPrefix(sent: seq<Sent>, trace: seq<Store>, n: nat)
    requires IsRun(sent, trace) && n <= |sent|
    ensures IsRun(sent[..n], trace[..n + 1])
  {
    var sent', trace' := sent[..n], trace[..n + 1];
    forall i: nat | i < n
      ensures StepAt(sent', trace', i)
    {
      assert StepAt(sent, trace, i);
    }
  }

  lemma OwnsPrefix(who: nat, t: Tenant, sent: seq<Sent>, n: nat)
    requires Owns(who, t, sent) && n <= |sent|
    ensures Owns(who, t, sent[..n])
  {
  }

  /** What a packet does to the values of a tenant that owns its block. */
  lemma OwnStep(p: Sent, regs: Store, regs': Store, who: nat, t: Tenant)
    requires TenantOk(t) && Step(p, regs, regs') && if p.who == who then p.t == t else p.t.block != t.block
    ensures Values(t, regs') == if p.who == who then Exec(Values(t, regs), p.ops) else Values(t, regs)
  {
    if p.who == who {
      PacketIsTxn(t, p.ops, regs, regs', p.d);
    } else {
      OthersStay(p, regs, regs', t);
    }
  }

  /** The operations of the packets that a tenant made with this layout and block, in order. */
  function FromAs(sent: seq<Sent>, who: nat, t: Tenant): seq<HotOp> {
    if sent == [] then [] else
      var p := sent[|sent| - 1];
      FromAs(sent[..|sent| - 1], who, t) + if p.who == who && p.t == t then p.ops else []
  }

  /** The key has one of the first indices of its register, whatever the block. */
  predicate HotSlot(plan: HostLayout.Plan, k: Key) {
    k in plan.virt && plan.virt[k].idx < HostLayout.SLOTS_PER_SCHED_BLOCK
  }

  /** Two layouts give hot keys the same place in a block. */
  predicate SameSlot(plan: HostLayout.Plan, k: Key, plan': HostLayout.Plan, k': Key) {
    HotSlot(plan, k) && HotSlot(plan', k') && HostLayout.SlotOf(plan.virt[k]) == HostLayout.SlotOf(plan'.virt[k'])
  }

  ghost predicate ShareSlot(plan: HostLayout.Plan, plan': HostLayout.Plan) {
    exists k, k' :: SameSlot(plan, k, plan', k')
  }

  /** A packet of the tenant itself, or one that cannot meet its keys. */
  ghost predicate Harmless(p: Sent, who: nat, t: Tenant) {
    (p.who == who && p.t == t) || p.t.block != t.block || !ShareSlot(p.t.plan, t.plan)
  }

  lemma HotSlotIs(t: Tenant, k: Key)
    requires t.block < N_BLOCKS && k in t.plan.virt
    ensures HotKey(t, k) <==> HotSlot(t.plan, k)
    ensures HotKey(t, k) ==>
      KeyCell(t, k) == Cell(t.plan.virt[k].reg, HostLayout.SLOTS_PER_SCHED_BLOCK * t.block + t.plan.virt[k].idx)
  {
    if HotKey(t, k) {
      HostLayout.InBlock(t.plan.virt, t.block, k);
    }
  }

  /** With other slots a packet leaves the tenant's values alone even if it is for the same block. */
  lemma OtherSlotsStay(p: Sent, regs: Store, regs': Store, t: Tenant, k: Key)
    requires TenantOk(t) && Step(p, regs, regs') && p.t.block == t.block && !ShareSlot(p.t.plan, t.plan) && HotKey(t, k)
    ensures Lookup(regs', KeyCell(t, k)) == Lookup(regs, KeyCell(t, k))
  {
    var c := KeyCell(t, k);
    CellAfter(p.t, p.ops, regs, regs', p.d, c);
    OpForIsOne(p.ops, c.reg);
    var x := OpFor(p.ops, c.reg);
    if x.Some? && x.value.place.idx == c.idx {
      HotSlotIs(t, k);
      HotSlotIs(p.t, x.value.op.id);
      assert SameSlot(p.t.plan, x.value.op.id, t.plan, k);
      assert false;
    }
  }

  lemma HarmlessStep(p: Sent, regs: Store, regs': Store, who: nat, t: Tenant)
    requires TenantOk(t) && Step(p, regs, regs') && Harmless(p, who, t)
    ensures Values(t, regs') == if p.who == who && p.t == t then Exec(Values(t, regs), p.ops) else Values(t, regs)
  {
    if p.who == who && p.t == t {
      PacketIsTxn(t, p.ops, regs, regs', p.d);
    } else if p.t.block != t.block {
      OthersStay(p, regs, regs', t);
    } else {
      forall k | HotKey(t, k)
        ensures Lookup(regs', KeyCell(t, k)) == Lookup(regs, KeyCell(t, k))
      {
        OtherSlotsStay(p, regs, regs', t, k);
      }
    }
  }

  /** Among harmless packets a tenant's values are those of its own operations, one after another. */
  lemma {:induction false} HarmlessRun(sent: seq<Sent>, trace: seq<Store>, who: nat, t: Tenant)
    requires TenantOk(t) && IsRun(sent, trace) && forall i :: 0 <= i < |sent| ==> Harmless(sent[i], who, t)
    ensures Values(t, trace[|sent|]) == Exec(Values(t, trace[0]), FromAs(sent, who, t))
  {
    if sent != [] {
      var n := |sent| - 1;
      var p := sent[n];
      RunPrefix(sent, trace, n);
      HarmlessRun(sent[..n], trace[..n + 1], who, t);
      assert StepAt(sent, trace, n);
      HarmlessStep(p, trace[n], trace[n + 1], who, t);
      ExecAppend(Values(t, trace[0]), FromAs(sent[..n], who, t), if p.who == who && p.t == t then p.ops else []);
    }
  }

  // ---------------------------------------------------------------- every packet can be executed

  /** A packet without operations. */
  function NoOps(base: nat): (b: seq<Byte>)
    requires base < 0x1_0000
    ensures |b| == PKT_BYTES
  {
    seq(PKT_BYTES, i requires 0 <= i < PKT_BYTES =>
      if UID_AT <= i < OFFSET_AT then UID_HDR[i - UID_AT]
        else if i == OFFSET_AT then base / 256 else if i == OFFSET_AT + 1 then base % 256 else 0)
  }

  lemma NoOpsIsPacket(base: nat)
    requires base < 0x1_0000
    ensures IsPacket(NoOps(base), base, [])
  {
    TwoBytes(NoOps(base), OFFSET_AT);
  }

  lemma {:induction false} PacketExists(base: nat, ops: seq<HotOp>) returns (b: seq<Byte>)
    requires base < 0x1_0000 && Typed(ops) && InReach(ops, base)
    ensures IsPacket(b, base, ops)
  {
    if ops == [] {
      NoOpsIsPacket(base);
      b := NoOps(base);
    } else {
      var n := |ops| - 1;
      var b0 := PacketExists(base, ops[..n]);
      b := WithInstr(b0, ops[n].place.reg, Mask(ops[n], base), ops[n].op.value);
      InstrsNext(b0, base, ops[..n], ops[n]);
      SameBytes(b0, b, OFFSET_AT, 2);
      assert ops[..n] + [ops[n]] == ops;
      assert b[UID_AT..OFFSET_AT] == b0[UID_AT..OFFSET_AT];
    }
  }

  lemma ActionsExist(h: Instrs, regs: Store) returns (regs': Store, d: seq<nat>)
    requires Parsed(h)
    ensures Applied(regs, h, regs', d)
  {
    var cells := set r: nat | r < N_REGISTERS :: Cell(r, Index(h, r));
    regs' := map c | c in regs.Keys + cells :: Action(h, N_REGISTERS, c, Lookup(regs, c));
    d := seq(N_REGISTERS, r requires 0 <= r < N_REGISTERS => Lookup(regs, Cell(r, Index(h, r))));
    forall c
      ensures Lookup(regs', c) == Action(h, N_REGISTERS, c, Lookup(regs, c))
    {
      if c !in regs.Keys + cells && c.reg < N_REGISTERS {
        assert Cell(c.reg, Index(h, c.reg)) in cells;
      }
    }
  }

  lemma CanExecute(t: Tenant, ops: seq<HotOp>, regs: Store) returns (regs': Store, d: seq<nat>)
    requires TenantOk(t) && OpsOk(t, ops)
    ensures Executed(t, ops, regs, regs', d)
  {
    AssertsHold(t, ops);
    OffsetFits(t.block);
    var b := PacketExists(Base(t.block), ops);
    ReadsBack(b, Base(t.block), ops, 0);
    regs', d := ActionsExist(Parse(b).value, regs);
  }

  /** While a tenant owns its block its values are those of its own operations, one after another. */
  lemma {:induction false} TenantsAreIsolated(sent: seq<Sent>, trace: seq<Store>, who: nat, t: Tenant)
    requires TenantOk(t) && IsRun(sent, trace) && Owns(who, t, sent)
    ensures Values(t, trace[|sent|]) == Exec(Values(t, trace[0]), From(sent, who))
  {
    if sent != [] {
      var n := |sent| - 1;
      var p := sent[n];
      RunPrefix(sent, trace, n);
      OwnsPrefix(who, t, sent, n);
      TenantsAreIsolated(sent[..n], trace[..n + 1], who, t);
      assert StepAt(sent, trace, n);
      OwnStep(p, trace[n], trace[n + 1], who, t);
      ExecAppend(Values(t, trace[0]), From(sent[..n], who), if p.who == who then p.ops else []);
    }
  }

  /** Every reply is what the tenant's own earlier operations left. */
  lemma RepliesAreSerial(sent: seq<Sent>, trace: seq<Store>, who: nat, t: Tenant, n: nat, i: nat)
    requires TenantOk(t) && IsRun(sent, trace) && Owns(who, t, sent) && n < |sent| && sent[n].who == who
    requires i < |sent[n].ops|
    ensures var p := sent[n]; Answers(p.d, p.ops[i], Exec(Values(t, trace[0]), From(sent[..n], who) + p.ops[..i]))
  {
    var p := sent[n];
    assert StepAt(sent, trace, n);
    RunPrefix(sent, trace, n);
    OwnsPrefix(who, t, sent, n);
    TenantsAreIsolated(sent[..n], trace[..n + 1], who, t);
    PacketIsTxn(t, p.ops, trace[n], trace[n + 1], p.d);
    ExecAppend(Values(t, trace[0]), From(sent[..n], who), p.ops[..i]);
  }
}
