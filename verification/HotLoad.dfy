/**
  The packets around a hot period: before it a node writes the rows of its hot keys into the switch,
  after it the node asks for them again.
 */
module HotLoad {
  import M = SwitchModel
  import opened HotCold
  import opened Packet
  import opened HotStore
  import HostLayout

  const SLOTS: nat := HostLayout.SLOTS_PER_SCHED_BLOCK

  const N_ACCEL_KEYS: nat := N_REGISTERS * SLOTS

  /** `MAX_STACKPOOL_SIZE` */
  const POOL_BYTES: nat := 2 * PKT_BYTES * ((N_ACCEL_KEYS + N_OPS - 1) / N_OPS)

  const PACKETS_PER_SLOT: nat := N_REGISTERS / N_OPS

  type Rows = Key -> nat

  /** `fill_op` */
  function FillOp(t: Tenant, isInit: bool, rows: Rows, k: Key): HotOp {
    HotOp(Op(k, if isInit then WRITE else READ, rows(k)), At(t, k))
  }

  function FillAll(t: Tenant, isInit: bool, rows: Rows, keys: seq<Key>): (ops: seq<HotOp>)
    ensures |ops| == |keys| && forall i :: 0 <= i < |keys| ==> ops[i] == FillOp(t, isInit, rows, keys[i])
  {
    seq(|keys|, i requires 0 <= i < |keys| => FillOp(t, isInit, rows, keys[i]))
  }

  // ---------------------------------------------------------------- the keys of the block

  /** The key in slot `s` of register `r` of the tenant's block. */
  function KeyAt(t: Tenant, s: nat, r: nat): M.Option<Key> {
    HostLayout.RevLookup(t.plan.rev, t.block, r, s + SLOTS * t.block)
  }

  predicate IsLocalAt(t: Tenant, isLocal: Key -> bool, s: nat, r: nat) {
    KeyAt(t, s, r).Some? && isLocal(KeyAt(t, s, r).value)
  }

  /** The node's own keys in the cells that the two loops visit before slot `s`, register `r`. */
  function LocalKeys(t: Tenant, isLocal: Key -> bool, s: nat, r: nat): seq<Key>
    decreases s, r
  {
    if r > 0 then
      LocalKeys(t, isLocal, s, r - 1) + if IsLocalAt(t, isLocal, s, r - 1) then [KeyAt(t, s, r - 1).value] else []
    else if s > 0 then LocalKeys(t, isLocal, s - 1, N_REGISTERS) else []
  }

  /** Those of the whole block. */
  function BlockKeys(t: Tenant, isLocal: Key -> bool): seq<Key> {
    LocalKeys(t, isLocal, SLOTS, 0)
  }

  predicate Before(s: nat, r: nat, s': nat, r': nat) {
    (s < s' && r < N_REGISTERS) || (s == s' && r < r')
  }

  lemma KeyAtIs(t: Tenant, s: nat, r: nat, k: Key)
    requires TenantOk(t) && s < SLOTS
    ensures KeyAt(t, s, r) == M.Some(k) <==> k in t.plan.virt && At(t, k) == Place(true, r, s + SLOTS * t.block)
  {
    HostLayout.LookupsUndoEachOther(t.plan, t.block, k, r, s + SLOTS * t.block);
  }

  lemma {:induction false} LocalKeysAre(t: Tenant, isLocal: Key -> bool, s: nat, r: nat, k: Key)
    ensures k in LocalKeys(t, isLocal, s, r) <==>
      isLocal(k) && exists s', r' :: Before(s', r', s, r) && KeyAt(t, s', r') == M.Some(k)
    decreases s, r
  {
    if r > 0 {
      LocalKeysAre(t, isLocal, s, r - 1, k);
      assert forall s', r' :: Before(s', r', s, r) <==> Before(s', r', s, r - 1) || (s' == s && r' == r - 1);
    } else if s > 0 {
      LocalKeysAre(t, isLocal, s - 1, N_REGISTERS, k);
      assert forall s', r' :: Before(s', r', s, 0) <==> Before(s', r', s - 1, N_REGISTERS);
    }
  }

  /** All of the node's hot keys are among them, and nothing else. */
  lemma AllLocalKeys(t: Tenant, isLocal: Key -> bool, k: Key)
    requires TenantOk(t)
    ensures k in BlockKeys(t, isLocal) <==> isLocal(k) && HotKey(t, k)
  {
    LocalKeysAre(t, isLocal, SLOTS, 0, k);
    if HotKey(t, k) {
      var l := t.plan.virt[k];
      HostLayout.InBlock(t.plan.virt, t.block, k);
      KeyAtIs(t, l.idx, l.reg, k);
      assert Before(l.idx, l.reg, SLOTS, 0);
    }
    if s, r :| Before(s, r, SLOTS, 0) && KeyAt(t, s, r) == M.Some(k) {
      KeyAtIs(t, s, r, k);
    }
  }

  predicate NoRepeat(keys: seq<Key>) {
    forall i, j :: 0 <= i < j < |keys| ==> keys[i] != keys[j]
  }

  /** No key is loaded twice. */
  lemma {:induction false} LocalKeysOnce(t: Tenant, isLocal: Key -> bool, s: nat, r: nat)
    requires TenantOk(t) && (s < SLOTS || (s == SLOTS && r == 0)) && r <= N_REGISTERS
    ensures NoRepeat(LocalKeys(t, isLocal, s, r))
    decreases s, r
  {
    if r > 0 {
      LocalKeysOnce(t, isLocal, s, r - 1);
      if IsLocalAt(t, isLocal, s, r - 1) {
        var k := KeyAt(t, s, r - 1).value;
        LocalKeysAre(t, isLocal, s, r - 1, k);
        if s', r' :| Before(s', r', s, r - 1) && KeyAt(t, s', r') == M.Some(k) {
          KeyAtIs(t, s', r', k);
          KeyAtIs(t, s, r - 1, k);
          assert false;
        }
      }
    } else if s > 0 {
      LocalKeysOnce(t, isLocal, s - 1, N_REGISTERS);
      assert LocalKeys(t, isLocal, s, r) == LocalKeys(t, isLocal, s - 1, N_REGISTERS);
    }
  }

  // ---------------------------------------------------------------- packing them

  function Flat(packets: seq<seq<HotOp>>): seq<HotOp> {
    if packets == [] then [] else Flat(packets[..|packets| - 1]) + packets[|packets| - 1]
  }

  ghost predicate PacketsOk(t: Tenant, packets: seq<seq<HotOp>>) {
    forall i :: 0 <= i < |packets| ==> 0 < |packets[i]| <= N_OPS && OpsOk(t, packets[i])
  }

  /** An unfinished packet: operations of one slot, by growing register. */
  ghost predicate Open(t: Tenant, ops: seq<HotOp>, r: nat) {
    && |ops| < N_OPS && OpsOk(t, ops)
    && forall i :: 0 <= i < |ops| ==> ops[i].place.reg < r
  }

  lemma FillNext(t: Tenant, isInit: bool, rows: Rows, keys: seq<Key>, k: Key)
    ensures FillAll(t, isInit, rows, keys + [k]) == FillAll(t, isInit, rows, keys) + [FillOp(t, isInit, rows, k)]
  {
  }

  lemma FlatNext(packets: seq<seq<HotOp>>, ops: seq<HotOp>)
    ensures Flat(packets + [ops]) == Flat(packets) + ops
  {
    assert (packets + [ops])[..|packets|] == packets;
  }

  /** The next register's key joins the packet. */
  lemma OpenNext(t: Tenant, isInit: bool, rows: Rows, ops: seq<HotOp>, s: nat, r: nat, k: Key)
    requires TenantOk(t) && s < SLOTS && r < N_REGISTERS && KeyAt(t, s, r) == M.Some(k)
    requires Open(t, ops, r) && rows(k) < WORD
    ensures var ops' := ops + [FillOp(t, isInit, rows, k)];
      OpsOk(t, ops') && forall i :: 0 <= i < |ops'| ==> ops'[i].place.reg < r + 1
  {
    KeyAtIs(t, s, r, k);
    assert HotKey(t, k);
  }

  /** Row values have 32 bits. */
  ghost predicate RowsFit(t: Tenant, rows: Rows) {
    forall k :: k in t.plan.virt ==> rows(k) < WORD
  }

  /** The packets made so far and the one being filled carry exactly these keys. */
  ghost predicate Packed(t: Tenant, isInit: bool, rows: Rows, keys: seq<Key>, packets: seq<seq<HotOp>>,
                         ops: seq<HotOp>, r: nat)
  {
    && PacketsOk(t, packets) && Open(t, ops, r)
    && Flat(packets) + ops == FillAll(t, isInit, rows, keys)
  }

  /** Both kinds of packets so far; they have the same sizes. */
  ghost predicate BothPacked(t: Tenant, rows: Rows, keys: seq<Key>, start: seq<seq<HotOp>>, arrStart: seq<HotOp>,
                             end: seq<seq<HotOp>>, arrEnd: seq<HotOp>, r: nat) {
    && |start| == |end| && |arrStart| == |arrEnd|
    && Packed(t, true, rows, keys, start, arrStart, r) && Packed(t, false, rows, keys, end, arrEnd, r)
  }

  /** One cell of the block, for one of the two kinds of packets. */
  method AddCell(t: Tenant, isInit: bool, rows: Rows, s: nat, r: nat, k: Key, ghost keys: seq<Key>,
                 packets: seq<seq<HotOp>>, ops: seq<HotOp>)
    returns (packets': seq<seq<HotOp>>, ops': seq<HotOp>)
    requires TenantOk(t) && s < SLOTS && r < N_REGISTERS && KeyAt(t, s, r) == M.Some(k) && rows(k) < WORD
    requires Packed(t, isInit, rows, keys, packets, ops, r)
    ensures Packed(t, isInit, rows, keys + [k], packets', ops', r + 1)
    ensures |ops'| == (|ops| + 1) % N_OPS && N_OPS * |packets'| + |ops'| == N_OPS * |packets| + |ops| + 1
  {
    packets', ops' := packets, ops + [FillOp(t, isInit, rows, k)];
    OpenNext(t, isInit, rows, ops, s, r, k);
    FillNext(t, isInit, rows, keys, k);
    assert Flat(packets) + ops' == FillAll(t, isInit, rows, keys) + [FillOp(t, isInit, rows, k)];
    if |ops'| == N_OPS {
      packets' := Flush(t, packets, ops');
      ops' := [];
      assert Flat(packets') + ops' == Flat(packets');
    }
  }

  method Flush(t: Tenant, packets: seq<seq<HotOp>>, ops: seq<HotOp>) returns (packets': seq<seq<HotOp>>)
    requires PacketsOk(t, packets) && 0 < |ops| <= N_OPS && OpsOk(t, ops)
    ensures PacketsOk(t, packets') && Flat(packets') == Flat(packets) + ops && |packets'| == |packets| + 1
  {
    FlatNext(packets, ops);
    packets' := packets + [ops];
  }

  /** The last packet of a slot. */
  method EndSlot(t: Tenant, isInit: bool, rows: Rows, ghost keys: seq<Key>, packets: seq<seq<HotOp>>,
                 ops: seq<HotOp>, ghost r: nat)
    returns (packets': seq<seq<HotOp>>)
    requires Packed(t, isInit, rows, keys, packets, ops, r)
    ensures Packed(t, isInit, rows, keys, packets', [], 0) && |packets'| == |packets| + if ops == [] then 0 else 1
  {
    packets' := packets;
    if |ops| > 0 {
      packets' := Flush(t, packets, ops);
      assert Flat(packets') + [] == Flat(packets');
    }
  }

  method GenCell(t: Tenant, isLocal: Key -> bool, rows: Rows, s: nat, r: nat,
                 start0: seq<seq<HotOp>>, arrStart0: seq<HotOp>, end0: seq<seq<HotOp>>, arrEnd0: seq<HotOp>)
    returns (start: seq<seq<HotOp>>, arrStart: seq<HotOp>, end: seq<seq<HotOp>>, arrEnd: seq<HotOp>)
    requires TenantOk(t) && s < SLOTS && r < N_REGISTERS
    requires RowsFit(t, rows)
    requires BothPacked(t, rows, LocalKeys(t, isLocal, s, r), start0, arrStart0, end0, arrEnd0, r)
    ensures BothPacked(t, rows, LocalKeys(t, isLocal, s, r + 1), start, arrStart, end, arrEnd, r + 1)
    ensures N_OPS * |start| + |arrStart| <= N_OPS * |start0| + |arrStart0| + 1
  {
    start, arrStart, end, arrEnd := start0, arrStart0, end0, arrEnd0;
    ghost var keys := LocalKeys(t, isLocal, s, r);
    var k := HostLayout.RevLookup(t.plan.rev, t.block, r, s + SLOTS * t.block);
    assert k == KeyAt(t, s, r);
    if k.Some? && isLocal(k.value) {
      KeyAtIs(t, s, r, k.value);
      start, arrStart := AddCell(t, true, rows, s, r, k.value, keys, start, arrStart);
      end, arrEnd := AddCell(t, false, rows, s, r, k.value, keys, end, arrEnd);
    }
  }

  method GenSlot(t: Tenant, isLocal: Key -> bool, rows: Rows, s: nat, start0: seq<seq<HotOp>>, end0: seq<seq<HotOp>>)
    returns (start: seq<seq<HotOp>>, end: seq<seq<HotOp>>)
    requires TenantOk(t) && s < SLOTS && RowsFit(t, rows)
    requires BothPacked(t, rows, LocalKeys(t, isLocal, s, 0), start0, [], end0, [], 0)
    ensures BothPacked(t, rows, LocalKeys(t, isLocal, s + 1, 0), start, [], end, [], 0)
    ensures |start| <= |start0| + PACKETS_PER_SLOT
  {
    start, end := start0, end0;
    var arrStart: seq<HotOp>, arrEnd: seq<HotOp> := [], [];
    for r := 0 to N_REGISTERS
      invariant BothPacked(t, rows, LocalKeys(t, isLocal, s, r), start, arrStart, end, arrEnd, r)
      invariant N_OPS * |start| + |arrStart| <= N_OPS * |start0| + r
    {
      start, arrStart, end, arrEnd := GenCell(t, isLocal, rows, s, r, start, arrStart, end, arrEnd);
    }
    ghost var keys := LocalKeys(t, isLocal, s + 1, 0);
    start := EndSlot(t, true, rows, keys, start, arrStart, N_REGISTERS);
    end := EndSlot(t, false, rows, keys, end, arrEnd, N_REGISTERS);
  }

  /**
    `gen_start_end_packets`: slot by slot, with at most eight operations a packet. The buffers of all
    packets fit into the pool they are taken from.
   */
  method GenPackets(t: Tenant, isLocal: Key -> bool, rows: Rows) returns (start: seq<seq<HotOp>>, end: seq<seq<HotOp>>)
    requires TenantOk(t) && RowsFit(t, rows)
    ensures PacketsOk(t, start) && PacketsOk(t, end)
    ensures var keys := BlockKeys(t, isLocal);
      Flat(start) == FillAll(t, true, rows, keys) && Flat(end) == FillAll(t, false, rows, keys)
    ensures PKT_BYTES * (|start| + |end|) <= POOL_BYTES
  {
    start, end := [], [];
    NothingPacked(t, isLocal, rows);
    for s := 0 to SLOTS
      invariant BothPacked(t, rows, LocalKeys(t, isLocal, s, 0), start, [], end, [], 0)
      invariant |start| <= PACKETS_PER_SLOT * s
    {
      start, end := GenSlot(t, isLocal, rows, s, start, end);
    }
    AllPacked(t, true, rows, BlockKeys(t, isLocal), start);
    AllPacked(t, false, rows, BlockKeys(t, isLocal), end);
    PoolSuffices(|start|);
  }

  lemma NothingPacked(t: Tenant, isLocal: Key -> bool, rows: Rows)
    ensures BothPacked(t, rows, LocalKeys(t, isLocal, 0, 0), [], [], [], [], 0)
  {
    assert LocalKeys(t, isLocal, 0, 0) == [];
  }

  lemma AllPacked(t: Tenant, isInit: bool, rows: Rows, keys: seq<Key>, packets: seq<seq<HotOp>>)
    requires Packed(t, isInit, rows, keys, packets, [], 0)
    ensures Flat(packets) == FillAll(t, isInit, rows, keys)
  {
    assert Flat(packets) + [] == Flat(packets);
  }

  lemma PoolSuffices(n: nat)
    requires n <= PACKETS_PER_SLOT * SLOTS
    ensures PKT_BYTES * (n + n) <= POOL_BYTES
  {
  }

  // ---------------------------------------------------------------- what the packets do

  lemma {:induction false} ExecLoad(t: Tenant, rows: Rows, kv: map<Key, nat>, keys: seq<Key>, k: Key)
    requires k in kv
    ensures var after := Exec(kv, FillAll(t, true, rows, keys));
      k in after && after[k] == if k in keys then rows(k) else kv[k]
  {
    if keys != [] {
      var n := |keys| - 1;
      ExecLoad(t, rows, kv, keys[..n], k);
      assert keys == keys[..n] + [keys[n]];
      FillNext(t, true, rows, keys[..n], keys[n]);
      ExecAppend(kv, FillAll(t, true, rows, keys[..n]), [FillOp(t, true, rows, keys[n])]);
    }
  }

  lemma {:induction false} ExecReads(kv: map<Key, nat>, ops: seq<HotOp>)
    requires forall i :: 0 <= i < |ops| ==> ops[i].op.mode != WRITE
    ensures Exec(kv, ops) == kv
  {
    if ops != [] {
      ExecReads(kv, ops[..|ops| - 1]);
    }
  }

  /**
    After start packets for any keys, from one node of the tenant or several, the block holds the rows
    of these keys and what it held before for the others, whatever other tenants send to their blocks.
   */
  lemma BlockLoaded(sent: seq<Sent>, trace: seq<Store>, who: nat, t: Tenant, rows: Rows, keys: seq<Key>, k: Key)
    requires TenantOk(t) && HotStore.IsRun(sent, trace) && Owns(who, t, sent) && HotKey(t, k)
    requires From(sent, who) == FillAll(t, true, rows, keys)
    ensures Values(t, trace[|sent|])[k] == if k in keys then rows(k) else Values(t, trace[0])[k]
  {
    TenantsAreIsolated(sent, trace, who, t);
    ExecLoad(t, rows, Values(t, trace[0]), keys, k);
  }

  /** The start packets of a node with these keys are among those sent. */
  ghost predicate HasLoaded(t: Tenant, isLocal: Key -> bool, keys: seq<Key>) {
    forall k :: k in BlockKeys(t, isLocal) ==> k in keys
  }

  /**
    Once all nodes of the tenant have loaded their keys, in any order, no hot key keeps what an earlier
    tenant left: `locals` says for each node which keys are its own, and the key is some node's.
   */
  lemma NothingLeftBehind(sent: seq<Sent>, trace: seq<Store>, who: nat, t: Tenant, rows: Rows, keys: seq<Key>,
                          locals: seq<Key -> bool>, k: Key)
    requires TenantOk(t) && HotStore.IsRun(sent, trace) && Owns(who, t, sent)
    requires From(sent, who) == FillAll(t, true, rows, keys)
    requires forall n :: 0 <= n < |locals| ==> HasLoaded(t, locals[n], keys)
    requires exists n :: 0 <= n < |locals| && locals[n](k)
    requires HotKey(t, k)
    ensures Values(t, trace[|sent|])[k] == rows(k)
  {
    var n :| 0 <= n < |locals| && locals[n](k);
    AllLocalKeys(t, locals[n], k);
    assert HasLoaded(t, locals[n], keys);
    BlockLoaded(sent, trace, who, t, rows, keys, k);
  }

  /** The replies to the end packets are the values that everything before them left. */
  lemma EndReads(sent: seq<Sent>, trace: seq<Store>, who: nat, t: Tenant, n: nat, work: seq<HotOp>,
                 ended: seq<HotOp>, i: nat)
    requires TenantOk(t) && HotStore.IsRun(sent, trace) && Owns(who, t, sent) && n < |sent|
    requires sent[n].who == who && i < |sent[n].ops|
    requires From(sent[..n], who) == work + ended
    requires forall j :: 0 <= j < |ended| ==> ended[j].op.mode != WRITE
    requires forall j :: 0 <= j < |sent[n].ops| ==> sent[n].ops[j].op.mode != WRITE
    ensures Answers(sent[n].d, sent[n].ops[i], Exec(Values(t, trace[0]), work))
  {
    var p := sent[n];
    RepliesAreSerial(sent, trace, who, t, n, i);
    var before := Values(t, trace[0]);
    ExecAppend(before, work + ended, p.ops[..i]);
    ExecAppend(before, work, ended);
    ExecReads(Exec(before, work), ended);
    ExecReads(Exec(before, work), p.ops[..i]);
  }
}
