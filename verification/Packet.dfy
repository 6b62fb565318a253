/**
  The one-pass packet of a hot transaction: the bytes the node writes into a buffer, the fields the
  switch program reads from them, and what its 72 register actions then do.
 */
module Packet {
  import M = SwitchModel
  import opened HotCold
  import HostLayout

  type Byte = b: nat | b < 256

  const PKT_BYTES: nat := 440
  const MAC_BYTES: nat := 6
  const P4DB_ETHER_TYPE: nat := 0x88b5
  const UID_AT: nat := 42
  const OFFSET_AT: nat := 58
  const INSTRS_AT: nat := 60
  const N_INSTRS_PADDED: nat := 20
  const N_REGISTERS: nat := HostLayout.N_REGISTERS
  const WORD: nat := 0x1_0000_0000

  const UID_HDR: seq<Byte> :=
    [0xBE, 0x87, 0xEF, 0x7E, 0x61, 0x3C, 0x4B, 0x33, 0x82, 0xEB, 0x90, 0x66, 0x3A, 0x40, 0x3D, 0xAE]

  /** The big-endian number in `n` bytes. */
  function Be(b: seq<Byte>, at: nat, n: nat): nat
    requires at + n <= |b|
  {
    if n == 0 then 0 else Be(b, at, n - 1) * 256 + b[at + n - 1]
  }

  lemma TwoBytes(b: seq<Byte>, at: nat)
    requires at + 2 <= |b|
    ensures Be(b, at, 2) == b[at] as nat * 0x100 + b[at + 1]
  {
    assert Be(b, at, 0) == 0;
    assert Be(b, at, 1) == b[at];
  }

  lemma FourBytes(b: seq<Byte>, at: nat)
    requires at + 4 <= |b|
    ensures Be(b, at, 4) ==
      b[at] as nat * 0x100_0000 + b[at + 1] as nat * 0x1_0000 + b[at + 2] as nat * 0x100 + b[at + 3]
  {
    TwoBytes(b, at);
    assert Be(b, at, 3) == Be(b, at, 2) * 256 + b[at + 2];
  }

  lemma {:induction false} SameBytes(b: seq<Byte>, b': seq<Byte>, at: nat, n: nat)
    requires |b| == |b'| && at + n <= |b| && forall i :: at <= i < at + n ==> b[i] == b'[i]
    ensures Be(b, at, n) == Be(b', at, n)
  {
    if n > 0 {
      SameBytes(b, b', at, n - 1);
    }
  }

  // ---------------------------------------------------------------- what the node writes

  /** Where the struct has a register's mask byte; the data follow. The first 20 have a byte of padding. */
  function InstrAt(r: nat): (at: nat)
    requires r < N_REGISTERS
    ensures INSTRS_AT <= at && at + 5 <= PKT_BYTES
  {
    if r < N_INSTRS_PADDED then INSTRS_AT + 6 * r + 1 else INSTRS_AT + 6 * N_INSTRS_PADDED + 5 * (r - N_INSTRS_PADDED)
  }

  lemma InstrsApart(r: nat, r': nat)
    requires r < r' < N_REGISTERS
    ensures InstrAt(r) + 5 <= InstrAt(r')
  {
  }

  /** The first cell of the 128 that a packet of this block can reach. */
  function Base(block: nat): nat {
    var offset := block * HostLayout.SLOTS_PER_SCHED_BLOCK;
    offset - offset % 128
  }

  function Mask(x: HotOp, base: nat): Byte
    requires base <= x.place.idx < base + 128
  {
    (if x.op.mode == WRITE then 128 else 0) + (x.place.idx - base)
  }

  /** The operation whose instruction a register ends up with. */
  function OpFor(ops: seq<HotOp>, r: nat): M.Option<HotOp> {
    if ops == [] then M.None else
      if ops[|ops| - 1].place.reg == r then M.Some(ops[|ops| - 1]) else OpFor(ops[..|ops| - 1], r)
  }

  /** An operation of a register that exists, with 32 bits of data. */
  predicate TypedOp(x: HotOp) {
    x.place.reg < N_REGISTERS && x.op.value < WORD && x.op.mode != INVALID
  }

  /** Within reach of a packet. */
  predicate OpOk(x: HotOp, base: nat) {
    base <= x.place.idx < base + 128
  }

  predicate Typed(ops: seq<HotOp>) {
    forall i :: 0 <= i < |ops| ==> TypedOp(ops[i])
  }

  predicate InReach(ops: seq<HotOp>, base: nat) {
    forall i :: 0 <= i < |ops| ==> OpOk(ops[i], base)
  }

  ghost predicate InstrIs(b: seq<Byte>, base: nat, r: nat, x: M.Option<HotOp>)
    requires |b| == PKT_BYTES && r < N_REGISTERS
  {
    match x
    case None => b[InstrAt(r)] == 0
    case Some(x) => OpOk(x, base) && b[InstrAt(r)] == Mask(x, base) && Be(b, InstrAt(r) + 1, 4) == x.op.value
  }

  lemma {:induction false} OpForIsOne(ops: seq<HotOp>, r: nat)
    ensures var x := OpFor(ops, r); x.Some? ==> x.value in ops && x.value.place.reg == r
    ensures OpFor(ops, r).None? <==> forall i :: 0 <= i < |ops| ==> ops[i].place.reg != r
  {
    if ops != [] {
      OpForIsOne(ops[..|ops| - 1], r);
    }
  }

  ghost predicate InstrsAre(b: seq<Byte>, base: nat, ops: seq<HotOp>)
    requires |b| == PKT_BYTES && InReach(ops, base)
  {
    forall r :: 0 <= r < N_REGISTERS ==> InstrIs(b, base, r, OpFor(ops, r))
  }

  /** A packet that carries these operations. Nothing is said about the other bytes. */
  ghost predicate IsPacket(b: seq<Byte>, base: nat, ops: seq<HotOp>) {
    && |b| == PKT_BYTES && InReach(ops, base)
    && b[UID_AT..OFFSET_AT] == UID_HDR
    && Be(b, OFFSET_AT, 2) == base
    && InstrsAre(b, base, ops)
  }

  // ---------------------------------------------------------------- writing an instruction

  function WithWord(b: seq<Byte>, at: nat, v: nat): (b': seq<Byte>)
    requires at + 4 <= |b| && v < WORD
    ensures |b'| == |b|
  {
    b[at := v / 0x100_0000][at + 1 := v / 0x1_0000 % 256][at + 2 := v / 256 % 256][at + 3 := v % 256]
  }

  lemma WordReads(b: seq<Byte>, at: nat, v: nat)
    requires at + 4 <= |b| && v < WORD
    ensures Be(WithWord(b, at, v), at, 4) == v
    ensures forall i :: 0 <= i < |b| && !(at <= i < at + 4) ==> WithWord(b, at, v)[i] == b[i]
  {
    FourBytes(WithWord(b, at, v), at);
    BytesOfWord(v);
  }

  lemma BytesOfWord(v: nat)
    ensures v == v / 0x100_0000 * 0x100_0000 + v / 0x1_0000 % 256 * 0x1_0000 + v / 256 % 256 * 0x100 + v % 256
  {
    var x, y := v / 256, v / 0x1_0000;
    assert v == x * 256 + v % 256;
    assert y == x / 256 && x == y * 256 + x % 256;
    assert v / 0x100_0000 == y / 256 && y == y / 256 * 256 + y % 256;
  }

  function WithInstr(b: seq<Byte>, r: nat, mask: Byte, v: nat): (b': seq<Byte>)
    requires |b| == PKT_BYTES && r < N_REGISTERS && v < WORD
    ensures |b'| == |b|
  {
    WithWord(b[InstrAt(r) := mask], InstrAt(r) + 1, v)
  }

  lemma InstrReads(b: seq<Byte>, r: nat, mask: Byte, v: nat)
    requires |b| == PKT_BYTES && r < N_REGISTERS && v < WORD
    ensures var b' := WithInstr(b, r, mask, v);
      && b'[InstrAt(r)] == mask && Be(b', InstrAt(r) + 1, 4) == v
      && forall i :: 0 <= i < |b| && !(InstrAt(r) <= i < InstrAt(r) + 5) ==> b'[i] == b[i]
  {
    WordReads(b[InstrAt(r) := mask], InstrAt(r) + 1, v);
  }

  /** The instructions of the other registers stay. */
  lemma InstrKeeps(b: seq<Byte>, b': seq<Byte>, r: nat, base: nat, r': nat, x: M.Option<HotOp>)
    requires |b| == |b'| == PKT_BYTES && r < N_REGISTERS && r' < N_REGISTERS && r != r'
    requires forall i :: 0 <= i < |b| && !(InstrAt(r) <= i < InstrAt(r) + 5) ==> b'[i] == b[i]
    requires InstrIs(b, base, r', x)
    ensures InstrIs(b', base, r', x)
  {
    if r < r' { InstrsApart(r, r'); } else { InstrsApart(r', r); }
    SameBytes(b, b', InstrAt(r') + 1, 4);
  }

  lemma InstrsNext(b: seq<Byte>, base: nat, ops: seq<HotOp>, x: HotOp)
    requires |b| == PKT_BYTES && InReach(ops, base) && OpOk(x, base) && TypedOp(x) && InstrsAre(b, base, ops)
    ensures var b' := WithInstr(b, x.place.reg, Mask(x, base), x.op.value);
      && InReach(ops + [x], base) && InstrsAre(b', base, ops + [x])
      && forall i :: 0 <= i < INSTRS_AT ==> b'[i] == b[i]
  {
    var r := x.place.reg;
    var b' := WithInstr(b, r, Mask(x, base), x.op.value);
    InstrReads(b, r, Mask(x, base), x.op.value);
    assert (ops + [x])[..|ops|] == ops;
    forall r' | 0 <= r' < N_REGISTERS
      ensures InstrIs(b', base, r', OpFor(ops + [x], r'))
    {
      OpForIsOne(ops, r');
      if r' != r {
        InstrKeeps(b, b', r, base, r', OpFor(ops, r'));
      }
    }
  }

  // ---------------------------------------------------------------- making the packet

  method PutBytes(buf: array<Byte>, at: nat, s: seq<Byte>)
    requires at + |s| <= buf.Length
    modifies buf
    ensures forall j :: 0 <= j < buf.Length ==> buf[j] == if at <= j < at + |s| then s[j - at] else old(buf[j])
  {
    for i := 0 to |s|
      invariant forall j :: 0 <= j < buf.Length ==> buf[j] == if at <= j < at + i then s[j - at] else old(buf[j])
    {
      buf[at + i] := s[i];
    }
  }

  method PutInstr(buf: array<Byte>, r: nat, mask: Byte, v: nat)
    requires buf.Length == PKT_BYTES && r < N_REGISTERS && v < WORD
    modifies buf
    ensures buf[..] == WithInstr(old(buf[..]), r, mask, v)
  {
    var at := InstrAt(r);
    buf[at] := mask;
    buf[at + 1] := v / 0x100_0000;
    buf[at + 2] := v / 0x1_0000 % 256;
    buf[at + 3] := v / 256 % 256;
    buf[at + 4] := v % 256;
  }

  /** `fill_network_hdr` and the offset. The bytes between the ether type and the identifier are not written. */
  method FillHeader(buf: array<Byte>, dst: seq<Byte>, src: seq<Byte>, base: nat)
    requires buf.Length == PKT_BYTES && |dst| == |src| == MAC_BYTES && base < 0x1_0000
    modifies buf
    ensures buf[UID_AT..OFFSET_AT] == UID_HDR && Be(buf[..], OFFSET_AT, 2) == base
    ensures buf[..MAC_BYTES] == dst && buf[MAC_BYTES..2 * MAC_BYTES] == src
    ensures Be(buf[..], 2 * MAC_BYTES, 2) == P4DB_ETHER_TYPE
    ensures buf[INSTRS_AT..] == old(buf[INSTRS_AT..])
  {
    PutBytes(buf, 0, dst);
    PutBytes(buf, MAC_BYTES, src);
    PutBytes(buf, 2 * MAC_BYTES, [P4DB_ETHER_TYPE / 256, P4DB_ETHER_TYPE % 256]);
    PutBytes(buf, UID_AT, UID_HDR);
    PutBytes(buf, OFFSET_AT, [base / 256, base % 256]);
    TwoBytes(buf[..], OFFSET_AT);
    TwoBytes(buf[..], 2 * MAC_BYTES);
  }

  /** Every register starts with an instruction to read cell 0. */
  method ClearMasks(buf: array<Byte>)
    requires buf.Length == PKT_BYTES
    modifies buf
    ensures forall r :: 0 <= r < N_REGISTERS ==> buf[InstrAt(r)] == 0
    ensures buf[..INSTRS_AT] == old(buf[..INSTRS_AT])
  {
    for r := 0 to N_REGISTERS
      invariant forall r' :: 0 <= r' < r ==> buf[InstrAt(r')] == 0
      invariant forall i :: 0 <= i < INSTRS_AT ==> buf[i] == old(buf[i])
    {
      buf[InstrAt(r)] := 0;
    }
  }

  /**
    `make_txn` for a one-pass packet, into a buffer with any contents; `asserted` is that none of its
    assertions fails (otherwise it stops there).
   */
  method MakeTxn(txn: Txn, buf: array<Byte>, dst: seq<Byte>, src: seq<Byte>, block: nat) returns (asserted: bool)
    requires txn.Valid() && buf.Length == PKT_BYTES && |dst| == |src| == MAC_BYTES
    requires Typed(txn.hot[..Live(Ops(txn.hot[..]))])
    modifies buf
    ensures var ops := txn.hot[..Live(Ops(txn.hot[..]))];
      && (asserted <==> txn.doAccel && Base(block) < 0xFFFF && InReach(ops, Base(block)))
      && (asserted ==> IsPacket(buf[..], Base(block), ops))
  {
    ghost var hot := txn.hot[..];
    ghost var n := Live(Ops(hot));
    var base := Base(block);
    if !txn.doAccel || base >= 0xFFFF {
      return false;
    }
    FillHeader(buf, dst, src, base);
    ghost var b := buf[..];
    ClearMasks(buf);
    assert forall i :: 0 <= i < INSTRS_AT ==> buf[i] == buf[..INSTRS_AT][i] == b[i];
    SameBytes(b, buf[..], OFFSET_AT, 2);
    var p := 0;
    while p < N_OPS && txn.hot[p].op.mode != INVALID
      invariant p <= n && txn.hot[..] == hot
      invariant IsPacket(buf[..], base, hot[..p])
      decreases N_OPS - p
    {
      var x := txn.hot[p];
      assert Ops(hot)[p] == x.op;
      if !(base <= x.place.idx < base + 128) {
        assert hot[..n][p] == x && !OpOk(x, base);
        return false;
      }
      assert hot[..n][p] == x;
      assert hot[..p + 1] == hot[..p] + [x];
      PutNext(buf, base, hot[..p], x);
      p := p + 1;
    }
    LiveIs(Ops(hot), p);
    asserted := true;
  }

  method PutNext(buf: array<Byte>, base: nat, ghost ops: seq<HotOp>, x: HotOp)
    requires buf.Length == PKT_BYTES && IsPacket(buf[..], base, ops) && OpOk(x, base) && TypedOp(x)
    modifies buf
    ensures IsPacket(buf[..], base, ops + [x])
  {
    ghost var before := buf[..];
    InstrsNext(before, base, ops, x);
    PutInstr(buf, x.place.reg, Mask(x, base), x.op.value);
    SameBytes(before, buf[..], OFFSET_AT, 2);
  }

  // ---------------------------------------------------------------- what the switch reads

  /** The header fields: 16 bits for the first 20 indices, 8 bits for the others, 32 bits of data each. */
  datatype Instrs = Instrs(offset: nat, i: seq<nat>, d: seq<nat>)

  function IndexBytes(r: nat): nat {
    if r < 20 then 2 else 1
  }

  /** The fields follow each other; the last byte of an index is where the node put the mask. */
  function FieldAt(r: nat): (at: nat)
    requires r < N_REGISTERS
    ensures at + IndexBytes(r) == InstrAt(r) + 1
  {
    if r == 0 then OFFSET_AT + 2 else FieldAt(r - 1) + IndexBytes(r - 1) + 4
  }

  function Parse(b: seq<Byte>): M.Option<Instrs>
    requires |b| == PKT_BYTES
  {
    if Be(b, 42, 4) == 0xbe87ef7e && Be(b, 46, 4) == 0x613c4b33 && Be(b, 50, 4) == 0x82eb9066
      && Be(b, 54, 4) == 0x3a403dae then
      M.Some(Instrs(Be(b, 58, 2),
                  seq(N_REGISTERS, r requires 0 <= r < N_REGISTERS => Be(b, FieldAt(r), IndexBytes(r))),
                  seq(N_REGISTERS, r requires 0 <= r < N_REGISTERS => Be(b, FieldAt(r) + IndexBytes(r), 4))))
    else M.None
  }

  predicate Parsed(h: Instrs) {
    |h.i| == |h.d| == N_REGISTERS
  }

  /** Nine bits of the offset, then seven bits of the index. */
  function Index(h: Instrs, r: nat): nat
    requires Parsed(h) && r < N_REGISTERS
  {
    h.offset / 128 % 512 * 128 + h.i[r] % 128
  }

  predicate Writes(h: Instrs, r: nat)
    requires Parsed(h) && r < N_REGISTERS
  {
    h.i[r] / 128 % 2 == 1
  }

  lemma UidWords(b: seq<Byte>)
    requires |b| == PKT_BYTES && b[UID_AT..OFFSET_AT] == UID_HDR
    ensures Parse(b).Some?
  {
    assert forall i :: 0 <= i < 16 ==> b[UID_AT + i] == UID_HDR[i];
    FourBytes(b, 42);
    FourBytes(b, 46);
    FourBytes(b, 50);
    FourBytes(b, 54);
  }

  lemma LowBits(hi: nat, mask: nat)
    requires mask < 256
    ensures (hi * 256 + mask) % 128 == mask % 128 && (hi * 256 + mask) / 128 % 2 == mask / 128
  {
    assert (hi * 256 + mask) / 128 == hi * 2 + mask / 128;
  }

  lemma LastByte(b: seq<Byte>, at: nat, n: nat)
    requires at + n <= |b| && 1 <= n <= 2
    ensures var i, last := Be(b, at, n), b[at + n - 1]; i % 128 == last % 128 && i / 128 % 2 == last / 128
  {
    if n == 1 {
      assert Be(b, at, 0) == 0;
      LowBits(0, b[at]);
    } else {
      TwoBytes(b, at);
      LowBits(b[at], b[at + 1]);
    }
  }

  /** Whatever is in the byte of padding, the low eight bits of an index are the mask byte. */
  lemma LowByte(b: seq<Byte>, r: nat)
    requires |b| == PKT_BYTES && r < N_REGISTERS
    ensures var i := Be(b, FieldAt(r), IndexBytes(r));
      i % 128 == b[InstrAt(r)] % 128 && i / 128 % 2 == b[InstrAt(r)] / 128
  {
    var at, n := FieldAt(r), IndexBytes(r);
    assert at + n - 1 == InstrAt(r);
    LastByte(b, at, n);
  }

  /**
    The switch reads back what the node wrote: every operation's register is sent to the very cell of
    the operation, with its data, writing exactly if the operation does. No other register writes.
   */
  lemma ReadsBack(b: seq<Byte>, base: nat, ops: seq<HotOp>, r: nat)
    requires IsPacket(b, base, ops) && r < N_REGISTERS && base % 128 == 0
    ensures Parse(b).Some? && Parsed(Parse(b).value)
    ensures var h, x := Parse(b).value, OpFor(ops, r);
      && (x.None? ==> !Writes(h, r))
      && (x.Some? ==>
            && Index(h, r) == x.value.place.idx && (Writes(h, r) <==> x.value.op.mode == WRITE)
            && h.d[r] == x.value.op.value)
  {
    UidWords(b);
    LowByte(b, r);
    OpForIsOne(ops, r);
    var h := Parse(b).value;
    assert Be(b, OFFSET_AT, 2) == base;
    OffsetBits(b);
    assert InstrIs(b, base, r, OpFor(ops, r));
    assert h.i[r] == Be(b, FieldAt(r), IndexBytes(r));
  }

  lemma OffsetBits(b: seq<Byte>)
    requires |b| == PKT_BYTES
    ensures Be(b, OFFSET_AT, 2) < 0x1_0000
  {
    TwoBytes(b, OFFSET_AT);
  }

  // ---------------------------------------------------------------- what the switch does

  datatype Cell = Cell(reg: nat, idx: nat)

  /** Register contents that differ from the reset values. */
  type Store = map<Cell, nat>

  /** Register `r` is reset to the two digits of `r`, four times. */
  function Reset(r: nat): nat {
    (r / 10 * 16 + r % 10) * 0x0101_0101
  }

  function Lookup(regs: Store, c: Cell): nat {
    if c in regs then regs[c] else Reset(c.reg)
  }

  /** What the first `n` register actions leave in a cell. */
  function Action(h: Instrs, n: nat, c: Cell, v: nat): nat
    requires Parsed(h) && n <= N_REGISTERS
  {
    if c.reg < n && c.idx == Index(h, c.reg) && Writes(h, c.reg) then h.d[c.reg] else v
  }

  ghost predicate Applied(regs: Store, h: Instrs, regs': Store, d: seq<nat>) {
    && Parsed(h) && |d| == N_REGISTERS
    && (forall c :: Lookup(regs', c) == Action(h, N_REGISTERS, c, Lookup(regs, c)))
    && (forall r :: 0 <= r < N_REGISTERS ==> d[r] == Lookup(regs, Cell(r, Index(h, r))))
  }

  class Ingress {
    var regs: Store

    /** One register action: the old value is returned, and replaced if the top bit says so. */
    method Execute(h: Instrs, r: nat) returns (rv: nat)
      requires Parsed(h) && r < N_REGISTERS
      modifies this
      ensures rv == Lookup(old(regs), Cell(r, Index(h, r)))
      ensures regs == if Writes(h, r) then old(regs)[Cell(r, Index(h, r)) := h.d[r]] else old(regs)
    {
      var c := Cell(r, Index(h, r));
      rv := Lookup(regs, c);
      if Writes(h, r) {
        regs := regs[c := h.d[r]];
      }
    }

    /** The 72 actions in a row; `d` are the data fields of the reply. */
    method Apply(h: Instrs) returns (d: seq<nat>)
      requires Parsed(h)
      modifies this
      ensures Applied(old(regs), h, regs, d)
    {
      d := h.d;
      for r := 0 to N_REGISTERS
        invariant |d| == N_REGISTERS && forall r' :: r <= r' < N_REGISTERS ==> d[r'] == h.d[r']
        invariant forall r' :: 0 <= r' < r ==> d[r'] == Lookup(old(regs), Cell(r', Index(h, r')))
        invariant forall c :: Lookup(regs, c) == Action(h, r, c, Lookup(old(regs), c))
      {
        var rv := Execute(h, r);
        d := d[r := rv];
      }
    }
  }

  // ---------------------------------------------------------------- what the node reads from the reply

  /** Where `process_reply_txn` expects a register's instruction. */
  function ReplyAt(r: nat): nat {
    if r < N_INSTRS_PADDED then INSTRS_AT + 6 * r + 1 else INSTRS_AT + 6 * N_INSTRS_PADDED + 5 * r
  }

  /** The reply: the same fields with new data. */
  ghost predicate IsReply(b: seq<Byte>, d: seq<nat>) {
    |b| == PKT_BYTES && |d| == N_REGISTERS && forall r :: 0 <= r < N_REGISTERS ==> Be(b, InstrAt(r) + 1, 4) == d[r]
  }

  /**
    It finds the data of the operation's own register exactly for the first 20. For the next 32 it
    finds those of the register 20 further on, and for the last 20 it looks behind the packet.
   */
  lemma ReplyFound(b: seq<Byte>, d: seq<nat>, r: nat)
    requires IsReply(b, d) && r < N_REGISTERS
    ensures ReplyAt(r) == InstrAt(r) <==> r < N_INSTRS_PADDED
    ensures ReplyAt(r) + 5 <= PKT_BYTES <==> r + N_INSTRS_PADDED < N_REGISTERS
    ensures ReplyAt(r) + 5 <= PKT_BYTES ==>
      Be(b, ReplyAt(r) + 1, 4) == d[if r < N_INSTRS_PADDED then r else r + N_INSTRS_PADDED]
  {
    var own := if r < N_INSTRS_PADDED || r + N_INSTRS_PADDED >= N_REGISTERS then r else r + N_INSTRS_PADDED;
    assert Be(b, InstrAt(own) + 1, 4) == d[own];
  }
}
