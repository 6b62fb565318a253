/**
  The two-pass lock protocol of the hardware switch program (`switch_src/my_p4db.p4`).

  One 32-bit lock word guards 40 register arrays. A packet tests the locks of every cell it
  touches (`check`), takes the locks of the cells it will only touch on its second trip
  (`acquire`), and remembers in `undo` which bits it really set, so that the next trip can give
  them back by subtraction.
 */
module P4Protocol {

  const N_REGS: nat := 40
  const MAX_FAILED: nat := 8

  /** Register contents are only ever copied. */
  type Data = nat

  datatype Cell = Cell(reg: nat, idx: nat)
  datatype Instr = Instr(idx: nat, write: bool, data: Data)

  /** The instructions of one trip: at most one per register array. */
  type Pass = map<nat, Instr>

  /** Register contents that differ from the reset values. */
  type Store = map<Cell, Data>

  datatype Txn = Txn(id: nat, check: Word, acquire: Word, pass1: Pass, pass2: Pass)

  /** A packet: the transaction and the header fields the switch rewrites. */
  datatype Packet = Packet(txn: Txn, undo: Word, second: bool, nFailed: nat,
                           res1: map<nat, Data>, res2: map<nat, Data>)

  function Fresh(t: Txn): Packet {
    Packet(t, {}, false, 0, map[], map[])
  }

  // ---------------------------------------------------------------- 32-bit words

  const WORD_BITS: nat := 32

  /** A 32-bit word, as the set of its one bits. */
  type Word = set<nat>

  ghost predicate IsWord(w: Word) {
    forall b :: b in w ==> b < WORD_BITS
  }

  function Pow2(n: nat): nat {
    if n == 0 then 1 else 2 * Pow2(n - 1)
  }

  /** The number that the low `n` bits of a word stand for. */
  function Number(w: Word, n: nat): (v: nat)
    ensures v < Pow2(n)
  {
    if n == 0 then 0 else Number(w, n - 1) + if n - 1 in w then Pow2(n - 1) else 0
  }

  /** The `n`-bit word of a number. */
  function Bits(v: nat, n: nat): Word
    requires v < Pow2(n)
  {
    if n == 0 then {}
    else if v < Pow2(n - 1) then Bits(v, n - 1)
    else Bits(v - Pow2(n - 1), n - 1) + {n - 1}
  }

  /** Subtraction modulo 2^32: a borrow out of the top bit is lost. */
  function Subtract(a: Word, b: Word): Word {
    var x, y := Number(a, WORD_BITS), Number(b, WORD_BITS);
    Bits(if x >= y then x - y else x + Pow2(WORD_BITS) - y, WORD_BITS)
  }

  lemma {:induction false} BitsOfNumber(w: Word, n: nat)
    ensures Bits(Number(w, n), n) == set b | b in w && b < n
  {
    if n != 0 {
      BitsOfNumber(w, n - 1);
    }
  }

  lemma {:induction false} NumberOfDifference(a: Word, b: Word, n: nat)
    requires b <= a
    ensures Number(a - b, n) + Number(b, n) == Number(a, n)
  {
    if n != 0 {
      NumberOfDifference(a, b, n - 1);
    }
  }

  /** When every bit of `b` is set in `a`, subtraction clears exactly those bits and never borrows. */
  lemma SubtractSubset(a: Word, b: Word)
    requires IsWord(a) && b <= a
    ensures Number(b, WORD_BITS) <= Number(a, WORD_BITS)
    ensures Subtract(a, b) == a - b
  {
    NumberOfDifference(a, b, WORD_BITS);
    BitsOfNumber(a - b, WORD_BITS);
  }

  // ---------------------------------------------------------------- registers

  function ResetValue(reg: nat): Data {
    (reg + 1) * 0x101
  }

  function Lookup(regs: Store, c: Cell): Data {
    if c in regs then regs[c] else ResetValue(c.reg)
  }

  predicate Touches(pass: Pass, c: Cell) {
    c.reg in pass && pass[c.reg].idx == c.idx
  }

  predicate WellFormedPass(pass: Pass) {
    forall r :: r in pass ==> r < N_REGS
  }

  /** The contents a trip leaves in one cell, given the contents it finds there. */
  function Effect(pass: Pass, c: Cell, before: Data): Data {
    if Touches(pass, c) && pass[c.reg].write then pass[c.reg].data else before
  }

  function Written(pass: Pass): set<Cell> {
    set r | r in pass && pass[r].write :: Cell(r, pass[r].idx)
  }

  /** The contents after a trip. */
  function Access(regs: Store, pass: Pass): (regs': Store)
    ensures forall c :: Lookup(regs', c) == Effect(pass, c, Lookup(regs, c))
  {
    map c | c in regs.Keys + Written(pass) :: Effect(pass, c, Lookup(regs, c))
  }

  /** What a trip returns: the contents before it. */
  function Reads(regs: Store, pass: Pass): map<nat, Data> {
    map r | r in pass :: Lookup(regs, Cell(r, pass[r].idx))
  }

  /** The part of a trip that concerns the first `n` register arrays. */
  function UpTo(pass: Pass, n: nat): Pass {
    map r | r in pass && r < n :: pass[r]
  }

  lemma WrittenStep(pass: Pass, k: nat)
    requires k in pass
    ensures Written(UpTo(pass, k + 1)) ==
      if pass[k].write then Written(UpTo(pass, k)) + {Cell(k, pass[k].idx)} else Written(UpTo(pass, k))
  {
    var p, p', c := UpTo(pass, k), UpTo(pass, k + 1), Cell(k, pass[k].idx);
    forall d | d in Written(p')
      ensures d in Written(p) || (d == c && pass[k].write)
    {
      var r :| r in p' && p'[r].write && d == Cell(r, p'[r].idx);
      assert r == k || r in p;
    }
    forall d | d in Written(p)
      ensures d in Written(p')
    {
      var r :| r in p && p[r].write && d == Cell(r, p[r].idx);
      assert r in p';
    }
    assert k in p';
  }

  lemma ReadsStep(regs: Store, pass: Pass, k: nat)
    ensures UpTo(pass, 0) == map[] && Reads(regs, map[]) == map[] && Access(regs, map[]) == regs
    ensures k !in pass ==> UpTo(pass, k + 1) == UpTo(pass, k)
    ensures k in pass ==>
      Reads(regs, UpTo(pass, k + 1)) == Reads(regs, UpTo(pass, k))[k := Lookup(regs, Cell(k, pass[k].idx))]
  {
    assert k !in pass ==> UpTo(pass, k + 1) == UpTo(pass, k);
    assert Written(map[]) == {};
  }

  /** One more register array: it sees and changes only its own cell. */
  lemma RegisterStep(regs: Store, pass: Pass, k: nat)
    requires k in pass
    ensures var c := Cell(k, pass[k].idx);
      && Lookup(Access(regs, UpTo(pass, k)), c) == Lookup(regs, c)
      && Access(regs, UpTo(pass, k + 1)) ==
           if pass[k].write then Access(regs, UpTo(pass, k))[c := pass[k].data] else Access(regs, UpTo(pass, k))
  {
    WrittenStep(pass, k);
  }

  // ---------------------------------------------------------------- one trip through ingress

  function LockAction(value: Word, undo: Word, acquire: Word): Word {
    if undo != {} then Subtract(value, undo) else value + acquire
  }

  datatype Trip = Trip(lock: Word, regs: Store, pkt: Packet, recirc: bool)

  predicate WellFormedTxn(t: Txn) {
    WellFormedPass(t.pass1) && WellFormedPass(t.pass2)
  }

  function CurrentPass(pkt: Packet): Pass {
    if pkt.second then pkt.txn.pass2 else pkt.txn.pass1
  }

  /** Stores the values read on the first or the second trip in the packet. */
  function WithResults(pkt: Packet, second: bool, rs: map<nat, Data>): Packet {
    if second then pkt.(res2 := rs) else pkt.(res1 := rs)
  }

  datatype Decision = Decision(access: bool, recirc: bool, pkt: Packet)

  /** What the packet may do, given the checked bits `r` that were set before its lock action. */
  function Decide(pkt: Packet, r: Word): Decision {
    if pkt.undo != {} then
      if pkt.second then Decision(true, false, pkt)
      else if pkt.nFailed < MAX_FAILED then Decision(false, true, pkt.(undo := {}))
      else Decision(false, false, pkt)
    else
      var undo := pkt.txn.acquire - r;
      if r == {} then
        if pkt.txn.acquire != {}
        then Decision(true, true, pkt.(undo := undo, second := true))
        else Decision(true, false, pkt.(undo := undo))
      else Decision(false, true, pkt.(undo := undo, nFailed := (pkt.nFailed + 1) % 256))
  }

  function Ingress(lock: Word, regs: Store, pkt: Packet): Trip {
    var d := Decide(pkt, lock * pkt.txn.check);
    var lock' := LockAction(lock, pkt.undo, pkt.txn.acquire);
    if d.access
    then Trip(lock', Access(regs, CurrentPass(pkt)),
              WithResults(d.pkt, pkt.second, Reads(regs, CurrentPass(pkt))), d.recirc)
    else Trip(lock', regs, d.pkt, d.recirc)
  }

  /** The ingress control block: the stateful lock register and the 40 data register arrays. */
  class SwitchIngress {
    var myLock: Word
    var regs: Store

    constructor ()
      ensures myLock == {} && regs == map[]
    {
      myLock := {};
      regs := map[];
    }

    method ExecuteLockAction(undo: Word, acquire: Word) returns (rv: Word)
      modifies this`myLock
      ensures rv == old(myLock)
      ensures myLock == LockAction(old(myLock), undo, acquire)
    {
      rv := myLock;
      if undo != {} {
        myLock := Subtract(myLock, undo);
      } else {
        myLock := myLock + acquire;
      }
    }

    method ExecuteRegisters(pass: Pass) returns (data: map<nat, Data>)
      requires WellFormedPass(pass)
      modifies this`regs
      ensures regs == Access(old(regs), pass)
      ensures data == Reads(old(regs), pass)
    {
      data := map[];
      ReadsStep(regs, pass, 0);
      for k := 0 to N_REGS
        invariant regs == Access(old(regs), UpTo(pass, k))
        invariant data == Reads(old(regs), UpTo(pass, k))
      {
        ReadsStep(old(regs), pass, k);
        if k in pass {
          RegisterStep(old(regs), pass, k);
          data := data[k := Lookup(regs, Cell(k, pass[k].idx))];
          if pass[k].write {
            regs := regs[Cell(k, pass[k].idx) := pass[k].data];
          }
        }
      }
      assert UpTo(pass, N_REGS) == pass;
    }

    method Apply(pkt: Packet) returns (out: Packet, recirc: bool)
      requires WellFormedTxn(pkt.txn)
      modifies this
      ensures Trip(myLock, regs, out, recirc) == Ingress(old(myLock), old(regs), pkt)
    {
      var rv := ExecuteLockAction(pkt.undo, pkt.txn.acquire);
      var doAccess;
      doAccess, recirc, out := SetHeaders(pkt, rv * pkt.txn.check);
      if doAccess {
        var data := ExecuteRegisters(CurrentPass(pkt));
        out := WithResults(out, pkt.second, data);
      }
    }

    method SetHeaders(pkt: Packet, r: Word) returns (doAccess: bool, doRecirc: bool, out: Packet)
      ensures Decision(doAccess, doRecirc, out) == Decide(pkt, r)
    {
      doAccess, doRecirc, out := false, false, pkt;
      if pkt.undo != {} {
        if pkt.second {
          doAccess := true;
        } else if pkt.nFailed < MAX_FAILED {
          out := out.(undo := {});
          doRecirc := true;
        }
      } else {
        out := out.(undo := pkt.txn.acquire - r);
        if r == {} {
          doAccess := true;
          if pkt.txn.acquire != {} {
            doRecirc := true;
            out := out.(second := true);
          }
        } else {
          out := out.(nFailed := (pkt.nFailed + 1) % 256);
          doRecirc := true;
        }
      }
    }
  }

  // ---------------------------------------------------------------- runs

  /**
    The whole switch: `waiting` holds every packet on its way to ingress, new or recirculating,
    `done` the packets that left, `order` the transactions in the order of their first access.
   */
  datatype State = State(lock: Word, regs: Store, waiting: seq<Packet>, done: seq<Packet>, order: seq<Txn>)

  const Init := State({}, map[], [], [], [])

  datatype Step = Inject(t: Txn) | Process(i: nat)

  /** The bits that guard a cell; none for a cell that has no lock. */
  type Locking = Cell -> Word

  /**
    What the planner promises about a transaction: it checks the lock of every cell it touches,
    it acquires the (existing) lock of every cell of its second trip, it checks whatever it
    acquires, and no cell occurs in both trips.
   */
  ghost predicate Planned(lockOf: Locking, t: Txn) {
    && WellFormedTxn(t)
    && IsWord(t.check) && t.acquire <= t.check
    && (forall c :: Touches(t.pass1, c) ==> lockOf(c) <= t.check && !Touches(t.pass2, c))
    && (forall c :: Touches(t.pass2, c) ==> lockOf(c) != {} && lockOf(c) <= t.acquire)
  }

  predicate UsedId(s: State, id: nat) {
    || (exists i :: 0 <= i < |s.waiting| && s.waiting[i].txn.id == id)
    || (exists i :: 0 <= i < |s.done| && s.done[i].txn.id == id)
    || (exists i :: 0 <= i < |s.order| && s.order[i].id == id)
  }

  function Remove<T>(xs: seq<T>, i: nat): seq<T>
    requires i < |xs|
  {
    xs[..i] + xs[i + 1..]
  }

  /** The packet got its first access on this trip. */
  predicate FirstAccess(s: State, pkt: Packet) {
    pkt.undo == {} && s.lock * pkt.txn.check == {}
  }

  /** Which transactions the hosts may send. */
  type Hosts = Txn -> bool

  ghost predicate Enabled(hosts: Hosts, s: State, step: Step) {
    match step
    case Inject(t) => hosts(t) && !UsedId(s, t.id)
    case Process(i) => i < |s.waiting|
  }

  function Next(s: State, step: Step): State
    requires step.Process? ==> step.i < |s.waiting|
  {
    match step
    case Inject(t) => s.(waiting := s.waiting + [Fresh(t)])
    case Process(i) =>
      var pkt := s.waiting[i];
      var trip := Ingress(s.lock, s.regs, pkt);
      var rest := Remove(s.waiting, i);
      State(trip.lock, trip.regs,
            if trip.recirc then rest + [trip.pkt] else rest,
            if trip.recirc then s.done else s.done + [trip.pkt],
            if FirstAccess(s, pkt) then s.order + [pkt.txn] else s.order)
  }

  ghost predicate IsRun(hosts: Hosts, steps: seq<Step>, states: seq<State>) {
    && |states| == |steps| + 1
    && states[0] == Init
    && forall k :: 0 <= k < |steps| ==>
         Enabled(hosts, states[k], steps[k]) && states[k + 1] == Next(states[k], steps[k])
  }

  ghost predicate AllPlanned(lockOf: Locking, hosts: Hosts) {
    forall t :: hosts(t) ==> Planned(lockOf, t)
  }

  // ---------------------------------------------------------------- the serial reference

  datatype Results = Results(res1: map<nat, Data>, res2: map<nat, Data>)
  datatype Outcome = Outcome(regs: Store, results: map<nat, Results>)

  /** Runs whole transactions one after the other: both trips of one before any of the next. */
  function Serial(order: seq<Txn>): Outcome {
    if order == [] then Outcome(map[], map[])
    else
      var t := order[|order| - 1];
      var before := Serial(order[..|order| - 1]);
      var mid := Access(before.regs, t.pass1);
      Outcome(Access(mid, t.pass2),
              before.results[t.id := Results(Reads(before.regs, t.pass1), Reads(mid, t.pass2))])
  }

  // ---------------------------------------------------------------- invariants

  /** The union of the bits the waiting packets still have to give back. */
  function Held(ws: seq<Packet>): Word {
    set p, b | p in ws && b in p.undo :: b
  }

  ghost predicate UniqueIds(ws: seq<Packet>) {
    forall i, j :: 0 <= i < j < |ws| ==> ws[i].txn.id != ws[j].txn.id
  }

  predicate Ordered(order: seq<Txn>, id: nat) {
    exists i :: 0 <= i < |order| && order[i].id == id
  }

  /** The packet had its first access but not its second. */
  ghost predicate Pending(s: State, p: Packet) {
    p in s.waiting && p.second
  }

  /** A packet that left after all its accesses. The others gave up and accessed nothing. */
  predicate Committed(p: Packet) {
    p.second || p.txn.acquire == {}
  }

  ghost predicate PacketInv(p: Packet) {
    && IsWord(p.txn.check) && IsWord(p.txn.acquire)
    && (if p.second then p.undo == p.txn.acquire && p.undo != {} else p.undo <= p.txn.acquire)
    && p.res2 == map[]
  }

  ghost predicate PacketsInv(s: State) {
    UniqueIds(s.waiting) && forall p :: p in s.waiting ==> PacketInv(p)
  }

  ghost predicate PlannedInv(lockOf: Locking, s: State) {
    forall p :: p in s.waiting ==> Planned(lockOf, p.txn)
  }

  /** The lock word is the disjoint union of what the packets on their way hold. */
  ghost predicate LockInv(s: State) {
    s.lock == Held(s.waiting) && Disjoint(s.waiting)
  }

  /** A packet checks whatever it acquires that another one on its way acquires too. */
  ghost predicate ChecksShared(s: State, pkt: Packet) {
    forall p :: p in s.waiting && p.txn.id != pkt.txn.id ==> p.txn.acquire * pkt.txn.acquire <= pkt.txn.check
  }

  ghost predicate IdInv(s: State) {
    && (forall p :: p in s.waiting ==> (p.second <==> Ordered(s.order, p.txn.id)))
    && (forall p, q :: p in s.waiting && q in s.done ==> p.txn.id != q.txn.id)
    && (forall i, j :: 0 <= i < j < |s.order| ==> s.order[i].id != s.order[j].id)
    && (forall p :: p in s.done ==> (Committed(p) <==> Ordered(s.order, p.txn.id)))
  }

  /** A cell holds what it holds in the serial run, but for a second trip still to come. */
  ghost predicate CellInv(s: State, serial: Store, c: Cell) {
    && (forall p :: Pending(s, p) && Touches(p.txn.pass2, c) ==>
          Lookup(serial, c) == Effect(p.txn.pass2, c, Lookup(s.regs, c)))
    && ((forall p :: Pending(s, p) ==> !Touches(p.txn.pass2, c)) ==> Lookup(serial, c) == Lookup(s.regs, c))
  }

  ghost predicate RegsInv(s: State) {
    forall c :: CellInv(s, Serial(s.order).regs, c)
  }

  /** Second trips still to come will read what they read in the serial run. */
  ghost predicate WillRead(s: State, p: Packet, expected: map<nat, Data>) {
    && expected.Keys == p.txn.pass2.Keys
    && forall r :: r in expected ==> expected[r] == Lookup(s.regs, Cell(r, p.txn.pass2[r].idx))
  }

  ghost predicate ResultsInv(s: State) {
    var results := Serial(s.order).results;
    && (forall p :: Pending(s, p) ==>
          p.txn.id in results && p.res1 == results[p.txn.id].res1 && WillRead(s, p, results[p.txn.id].res2))
    && (forall p :: p in s.done && Committed(p) ==>
          p.txn.id in results && results[p.txn.id] == Results(p.res1, p.res2))
  }

  ghost predicate Inv(lockOf: Locking, s: State) {
    && PlannedInv(lockOf, s)
    && PacketsInv(s)
    && LockInv(s)
    && IdInv(s)
    && RegsInv(s)
    && ResultsInv(s)
  }

  // ---------------------------------------------------------------- preservation

  lemma RemoveMembers(ws: seq<Packet>, i: nat)
    requires i < |ws| && UniqueIds(ws)
    ensures UniqueIds(Remove(ws, i))
    ensures forall p :: p in Remove(ws, i) <==> p in ws && p.txn.id != ws[i].txn.id
    ensures forall p :: p in ws && p.txn.id == ws[i].txn.id ==> p == ws[i]
  {
    var rest := Remove(ws, i);
    assert forall j :: 0 <= j < |rest| ==> rest[j] == ws[if j < i then j else j + 1];
    forall p | p in ws && p.txn.id != ws[i].txn.id
      ensures p in rest
    {
      var j :| 0 <= j < |ws| && ws[j] == p;
      assert rest[if j < i then j else j - 1] == p;
    }
  }

  /** A cell some pending second trip will touch is locked, so nobody with that lock in `check` gets in. */
  lemma PendingIsLocked(lockOf: Locking, s: State, p: Packet, c: Cell)
    requires Inv(lockOf, s) && Pending(s, p) && Touches(p.txn.pass2, c)
    ensures lockOf(c) != {} && lockOf(c) <= p.undo <= s.lock
  {
  }

  lemma PendingDisjoint(lockOf: Locking, s: State, p: Packet, q: Packet, c: Cell)
    requires Inv(lockOf, s) && Pending(s, p) && Pending(s, q)
    requires Touches(p.txn.pass2, c) && Touches(q.txn.pass2, c)
    ensures p.txn.id == q.txn.id
  {
    PendingIsLocked(lockOf, s, p, c);
    PendingIsLocked(lockOf, s, q, c);
    var b :| b in lockOf(c);
    assert b in p.undo && b in q.undo;
  }

  /** A packet that gets its first access touches no cell with a pending second trip. */
  lemma FirstAccessIsFree(lockOf: Locking, s: State, pkt: Packet, p: Packet, c: Cell)
    requires Inv(lockOf, s) && pkt in s.waiting && FirstAccess(s, pkt) && Pending(s, p)
    requires Touches(pkt.txn.pass1, c) || Touches(pkt.txn.pass2, c)
    ensures !Touches(p.txn.pass2, c)
  {
    if Touches(p.txn.pass2, c) {
      PendingIsLocked(lockOf, s, p, c);
    }
  }

  lemma HeldAppend(ws: seq<Packet>, p: Packet)
    ensures Held(ws + [p]) == Held(ws) + p.undo
  {
    assert forall q :: q in ws + [p] <==> q in ws || q == p;
  }

  lemma HeldRemove(s: State, i: nat)
    requires PacketsInv(s) && LockInv(s) && i < |s.waiting|
    ensures Held(Remove(s.waiting, i)) == s.lock - s.waiting[i].undo
    ensures IsWord(s.lock) && s.waiting[i].undo <= s.lock
  {
    RemoveMembers(s.waiting, i);
    assert s.waiting[i] in s.waiting;
  }

  lemma OrderedAppend(order: seq<Txn>, t: Txn)
    ensures forall id :: Ordered(order + [t], id) <==> Ordered(order, id) || id == t.id
  {
    var order' := order + [t];
    assert order'[|order|].id == t.id;
    forall id | Ordered(order, id)
      ensures Ordered(order', id)
    {
      var i :| 0 <= i < |order| && order[i].id == id;
      assert order'[i].id == id;
    }
  }

  /** What a packet is about to hold is not held by another one. */
  lemma AcquiresFree(s: State, i: nat)
    requires PacketsInv(s) && LockInv(s) && i < |s.waiting| && s.waiting[i].undo == {} && ChecksShared(s, s.waiting[i])
    ensures var t := s.waiting[i].txn; (t.acquire - s.lock * t.check) !! s.lock
  {
    var t := s.waiting[i].txn;
    forall b | b in s.lock && b in t.acquire
      ensures b in t.check
    {
      var p :| p in s.waiting && b in p.undo;
      RemoveMembers(s.waiting, i);
      assert p.txn.id != t.id && b in p.txn.acquire * t.acquire;
    }
  }

  /** What one trip does to the packet and the lock word, in terms of what the packet holds. */
  lemma TripInv(s: State, i: nat)
    requires PacketsInv(s) && LockInv(s) && i < |s.waiting| && PacketInv(s.waiting[i]) && ChecksShared(s, s.waiting[i])
    ensures var pkt, trip := s.waiting[i], Ingress(s.lock, s.regs, s.waiting[i]);
      && trip.pkt.txn == pkt.txn
      && (trip.recirc ==> PacketInv(trip.pkt))
      && (trip.recirc ==> trip.lock == (s.lock - pkt.undo) + trip.pkt.undo && trip.pkt.undo !! (s.lock - pkt.undo))
      && (!trip.recirc ==> trip.lock == s.lock - pkt.undo)
  {
    HeldRemove(s, i);
    if s.waiting[i].undo != {} {
      SubtractSubset(s.lock, s.waiting[i].undo);
    } else {
      AcquiresFree(s, i);
    }
  }

  ghost predicate Disjoint(ws: seq<Packet>) {
    forall p, q :: p in ws && q in ws && p.txn.id != q.txn.id ==> p.undo !! q.undo
  }

  lemma AppendKeepsDisjoint(ws: seq<Packet>, p: Packet)
    requires Disjoint(ws) && UniqueIds(ws) && p.undo !! Held(ws) && forall q :: q in ws ==> q.txn.id != p.txn.id
    ensures Disjoint(ws + [p]) && UniqueIds(ws + [p])
  {
    AppendMembers(ws, p);
    assert forall q :: q in ws ==> q.undo <= Held(ws);
  }

  lemma ProcessKeepsLockInv(s: State, i: nat)
    requires PacketsInv(s) && LockInv(s) && i < |s.waiting| && PacketInv(s.waiting[i]) && ChecksShared(s, s.waiting[i])
    ensures LockInv(Next(s, Process(i))) && PacketsInv(Next(s, Process(i)))
  {
    var pkt, rest := s.waiting[i], Remove(s.waiting, i);
    var trip := Ingress(s.lock, s.regs, pkt);
    RemoveMembers(s.waiting, i);
    HeldRemove(s, i);
    TripInv(s, i);
    if trip.recirc {
      HeldAppend(rest, trip.pkt);
      AppendKeepsDisjoint(rest, trip.pkt);
      AppendMembers(rest, trip.pkt);
    }
  }

  lemma ProcessMembers(s: State, i: nat)
    requires PacketsInv(s) && i < |s.waiting|
    ensures var s', pkt, trip := Next(s, Process(i)), s.waiting[i], Ingress(s.lock, s.regs, s.waiting[i]);
      && (forall p :: p in s'.waiting <==> (p in s.waiting && p.txn.id != pkt.txn.id) || (trip.recirc && p == trip.pkt))
      && (forall p :: p in s'.done <==> p in s.done || (!trip.recirc && p == trip.pkt))
      && (forall p :: p in s.waiting && p.txn.id == pkt.txn.id ==> p == pkt)
      && trip.pkt.txn == pkt.txn
  {
    RemoveMembers(s.waiting, i);
    AppendMembers(Remove(s.waiting, i), Ingress(s.lock, s.regs, s.waiting[i]).pkt);
    AppendMembers(s.done, Ingress(s.lock, s.regs, s.waiting[i]).pkt);
  }

  lemma AppendMembers(ws: seq<Packet>, p: Packet)
    ensures forall q :: q in ws + [p] <==> q in ws || q == p
  {
  }

  lemma ProcessKeepsIdInv(s: State, i: nat)
    requires PacketsInv(s) && IdInv(s) && i < |s.waiting| && PacketInv(s.waiting[i])
    ensures IdInv(Next(s, Process(i)))
  {
    var pkt := s.waiting[i];
    ProcessMembers(s, i);
    OrderedAppend(s.order, pkt.txn);
    assert pkt in s.waiting;
  }

  lemma SameValues(s: State, s': State)
    requires RegsInv(s) && ResultsInv(s)
    requires s'.regs == s.regs && s'.order == s.order
    requires forall p :: Pending(s', p) <==> Pending(s, p)
    requires forall p :: p in s'.done && Committed(p) ==> p in s.done
    ensures RegsInv(s') && ResultsInv(s')
  {
    forall c
      ensures CellInv(s', Serial(s.order).regs, c)
    {
      assert CellInv(s, Serial(s.order).regs, c);
    }
  }

  /** Trips without an access: the registers, the serial run and the pending second trips all stay. */
  lemma IdleTripKeepsValues(lockOf: Locking, s: State, i: nat)
    requires Inv(lockOf, s) && i < |s.waiting| && PacketInv(s.waiting[i])
    requires !FirstAccess(s, s.waiting[i]) && !s.waiting[i].second
    ensures var s' := Next(s, Process(i)); RegsInv(s') && ResultsInv(s')
  {
    ProcessMembers(s, i);
    SameValues(s, Next(s, Process(i)));
  }

  /** `s'` follows `s` by the second trip of `pkt`. */
  ghost predicate SecondTrip(s: State, s': State, pkt: Packet) {
    && Pending(s, pkt)
    && s'.order == s.order && s'.regs == Access(s.regs, pkt.txn.pass2)
    && (forall p :: Pending(s', p) <==> Pending(s, p) && p != pkt)
    && (forall p :: p in s'.done <==> p in s.done || p == pkt.(res2 := Reads(s.regs, pkt.txn.pass2)))
    && (forall p, c :: Pending(s', p) && Touches(pkt.txn.pass2, c) ==> !Touches(p.txn.pass2, c))
  }

  lemma SecondTripRegs(s: State, s': State, pkt: Packet)
    requires RegsInv(s) && SecondTrip(s, s', pkt)
    ensures RegsInv(s')
  {
    forall c
      ensures CellInv(s', Serial(s.order).regs, c)
    {
      assert CellInv(s, Serial(s.order).regs, c);
    }
  }

  /** A trip that touches no cell of a pending second trip leaves what that trip will read. */
  lemma WillReadFrame(s: State, s': State, p: Packet, expected: map<nat, Data>)
    requires WillRead(s, p, expected)
    requires forall c :: Touches(p.txn.pass2, c) ==> Lookup(s'.regs, c) == Lookup(s.regs, c)
    ensures WillRead(s', p, expected)
  {
    assert forall r :: r in p.txn.pass2 ==> Touches(p.txn.pass2, Cell(r, p.txn.pass2[r].idx));
  }

  lemma WillReadIsRead(s: State, p: Packet, expected: map<nat, Data>)
    requires WillRead(s, p, expected)
    ensures Reads(s.regs, p.txn.pass2) == expected
  {
  }

  lemma SecondTripResults(s: State, s': State, pkt: Packet)
    requires ResultsInv(s) && SecondTrip(s, s', pkt)
    ensures ResultsInv(s')
  {
    var results := Serial(s.order).results;
    forall p | Pending(s', p)
      ensures WillRead(s', p, results[p.txn.id].res2)
    {
      forall c | Touches(p.txn.pass2, c)
        ensures Lookup(s'.regs, c) == Lookup(s.regs, c)
      {
        assert !Touches(pkt.txn.pass2, c);
      }
      WillReadFrame(s, s', p, results[p.txn.id].res2);
    }
    WillReadIsRead(s, pkt, results[pkt.txn.id].res2);
  }

  lemma SecondTripKeepsValues(lockOf: Locking, s: State, i: nat)
    requires Inv(lockOf, s) && i < |s.waiting| && PacketInv(s.waiting[i]) && s.waiting[i].second
    ensures var s' := Next(s, Process(i)); RegsInv(s') && ResultsInv(s')
  {
    var s' := Next(s, Process(i));
    var pkt := s.waiting[i];
    ProcessMembers(s, i);
    assert Pending(s, pkt);
    forall c, p | Touches(pkt.txn.pass2, c) && Pending(s', p)
      ensures !Touches(p.txn.pass2, c)
    {
      if Touches(p.txn.pass2, c) {
        PendingDisjoint(lockOf, s, p, pkt, c);
      }
    }
    SecondTripRegs(s, s', pkt);
    SecondTripResults(s, s', pkt);
  }

  /** `s'` follows `s` by the first trip of a transaction `t` that found all its locks free. */
  ghost predicate FirstTrip(s: State, s': State, t: Txn) {
    && s'.order == s.order + [t] && s'.regs == Access(s.regs, t.pass1)
    && (forall c :: Touches(t.pass1, c) ==> !Touches(t.pass2, c))
    && (forall p, c :: Pending(s, p) && (Touches(t.pass1, c) || Touches(t.pass2, c)) ==> !Touches(p.txn.pass2, c))
  }

  /** The packet of `t` after the first trip: still pending when `t` has a second one. */
  ghost predicate FirstTripPacket(s: State, s': State, t: Txn, out: Packet) {
    && out.txn == t && out.res1 == Reads(s.regs, t.pass1) && out.res2 == map[]
    && (t.acquire == {} ==> t.pass2 == map[])
    && (forall p :: Pending(s', p) <==> Pending(s, p) || (t.acquire != {} && p == out))
    && (forall p :: p in s'.done <==> p in s.done || (t.acquire == {} && p == out))
    && (forall p :: Pending(s, p) || (p in s.done && Committed(p)) ==> p.txn.id != t.id)
  }

  lemma SerialAppend(order: seq<Txn>, t: Txn)
    ensures var before := Serial(order); var mid := Access(before.regs, t.pass1);
      Serial(order + [t]) == Outcome(Access(mid, t.pass2),
              before.results[t.id := Results(Reads(before.regs, t.pass1), Reads(mid, t.pass2))])
  {
    assert (order + [t])[..|order|] == order;
  }

  lemma FirstTripCellInv(s: State, s': State, t: Txn, out: Packet, c: Cell)
    requires CellInv(s, Serial(s.order).regs, c)
    requires FirstTrip(s, s', t) && FirstTripPacket(s, s', t, out)
    ensures CellInv(s', Access(Access(Serial(s.order).regs, t.pass1), t.pass2), c)
  {
    if Touches(t.pass1, c) || Touches(t.pass2, c) {
      assert forall p :: Pending(s, p) ==> !Touches(p.txn.pass2, c);
    }
  }

  lemma FirstTripRegs(s: State, s': State, t: Txn, out: Packet)
    requires RegsInv(s)
    requires FirstTrip(s, s', t) && FirstTripPacket(s, s', t, out)
    ensures RegsInv(s')
  {
    SerialAppend(s.order, t);
    forall c
      ensures CellInv(s', Serial(s'.order).regs, c)
    {
      FirstTripCellInv(s, s', t, out, c);
    }
  }

  lemma FirstTripCell(s: State, s': State, t: Txn, c: Cell)
    requires RegsInv(s) && FirstTrip(s, s', t) && (Touches(t.pass1, c) || Touches(t.pass2, c))
    ensures Lookup(Serial(s.order).regs, c) == Lookup(s.regs, c)
  {
    assert CellInv(s, Serial(s.order).regs, c);
  }

  lemma FirstTripReads(s: State, s': State, t: Txn)
    requires RegsInv(s) && FirstTrip(s, s', t)
    ensures Reads(Serial(s.order).regs, t.pass1) == Reads(s.regs, t.pass1)
  {
    forall r | r in t.pass1
      ensures Lookup(Serial(s.order).regs, Cell(r, t.pass1[r].idx)) == Lookup(s.regs, Cell(r, t.pass1[r].idx))
    {
      FirstTripCell(s, s', t, Cell(r, t.pass1[r].idx));
    }
  }

  lemma FirstTripWillRead(s: State, s': State, t: Txn, out: Packet)
    requires RegsInv(s) && FirstTrip(s, s', t) && out.txn == t
    ensures WillRead(s', out, Reads(Access(Serial(s.order).regs, t.pass1), t.pass2))
  {
    forall r | r in t.pass2
      ensures Lookup(Access(Serial(s.order).regs, t.pass1), Cell(r, t.pass2[r].idx)) ==
        Lookup(s'.regs, Cell(r, t.pass2[r].idx))
    {
      FirstTripCell(s, s', t, Cell(r, t.pass2[r].idx));
    }
  }

  lemma FirstTripResults(s: State, s': State, t: Txn, out: Packet)
    requires RegsInv(s) && ResultsInv(s)
    requires FirstTrip(s, s', t) && FirstTripPacket(s, s', t, out)
    ensures ResultsInv(s')
  {
    SerialAppend(s.order, t);
    FirstTripReads(s, s', t);
    FirstTripWillRead(s, s', t, out);
    forall p | Pending(s, p)
      ensures WillRead(s', p, Serial(s.order).results[p.txn.id].res2)
    {
      WillReadFrame(s, s', p, Serial(s.order).results[p.txn.id].res2);
    }
  }

  lemma FirstTripKeepsValues(lockOf: Locking, s: State, i: nat)
    requires Inv(lockOf, s) && i < |s.waiting| && PacketInv(s.waiting[i]) && FirstAccess(s, s.waiting[i])
    ensures var s' := Next(s, Process(i)); RegsInv(s') && ResultsInv(s')
  {
    var s' := Next(s, Process(i));
    var pkt := s.waiting[i];
    ProcessMembers(s, i);
    assert pkt in s.waiting;
    forall p, c | Pending(s, p) && (Touches(pkt.txn.pass1, c) || Touches(pkt.txn.pass2, c))
      ensures !Touches(p.txn.pass2, c)
    {
      FirstAccessIsFree(lockOf, s, pkt, p, c);
    }
    assert forall r :: r in pkt.txn.pass2 ==> Touches(pkt.txn.pass2, Cell(r, pkt.txn.pass2[r].idx));
    var out := Ingress(s.lock, s.regs, pkt).pkt;
    FirstTripRegs(s, s', pkt.txn, out);
    FirstTripResults(s, s', pkt.txn, out);
  }

  lemma InjectKeepsInv(lockOf: Locking, s: State, t: Txn)
    requires Inv(lockOf, s) && Planned(lockOf, t) && !UsedId(s, t.id)
    ensures Inv(lockOf, Next(s, Inject(t)))
  {
    var s' := Next(s, Inject(t));
    assert forall p :: p in s'.waiting <==> p in s.waiting || p == Fresh(t);
    assert forall p :: p in s.waiting || p in s.done ==> p.txn.id != t.id;
    InjectKeepsLockInv(s, t);
    SameValues(s, s');
  }

  lemma InjectKeepsLockInv(s: State, t: Txn)
    requires PacketsInv(s) && LockInv(s) && !UsedId(s, t.id) && IsWord(t.check) && IsWord(t.acquire)
    ensures LockInv(Next(s, Inject(t))) && PacketsInv(Next(s, Inject(t)))
  {
    HeldAppend(s.waiting, Fresh(t));
    AppendMembers(s.waiting, Fresh(t));
    assert forall p :: p in s.waiting ==> p.txn.id != t.id;
  }

  lemma StepKeepsInv(lockOf: Locking, hosts: Hosts, s: State, step: Step)
    requires Inv(lockOf, s) && Enabled(hosts, s, step) && AllPlanned(lockOf, hosts)
    ensures Inv(lockOf, Next(s, step))
  {
    match step
    case Inject(t) => InjectKeepsInv(lockOf, s, t);
    case Process(i) =>
      assert s.waiting[i] in s.waiting;
      ProcessMembers(s, i);
      ProcessKeepsLockInv(s, i);
      ProcessKeepsIdInv(s, i);
      if FirstAccess(s, s.waiting[i]) {
        FirstTripKeepsValues(lockOf, s, i);
      } else if s.waiting[i].second {
        SecondTripKeepsValues(lockOf, s, i);
      } else {
        IdleTripKeepsValues(lockOf, s, i);
      }
  }

  // ---------------------------------------------------------------- theorems over every run

  lemma {:induction false} ReachableInv(lockOf: Locking, hosts: Hosts, steps: seq<Step>, states: seq<State>, k: nat)
    requires IsRun(hosts, steps, states) && AllPlanned(lockOf, hosts) && k < |states|
    ensures Inv(lockOf, states[k])
  {
    if k != 0 {
      ReachableInv(lockOf, hosts, steps, states, k - 1);
      StepKeepsInv(lockOf, hosts, states[k - 1], steps[k - 1]);
    }
  }

  /**
    Every run is serializable in the order of the first accesses: each transaction that completed
    read on both trips exactly what it reads when whole transactions run one after the other in
    that order, every other transaction that left touched nothing, and once no second trip is
    outstanding the registers hold exactly what the serial run leaves.
   */
  lemma TwoPassSerializable(lockOf: Locking, hosts: Hosts, steps: seq<Step>, states: seq<State>, k: nat)
    requires IsRun(hosts, steps, states) && AllPlanned(lockOf, hosts) && k < |states|
    ensures var s := states[k]; var serial := Serial(s.order);
      && (forall i, j :: 0 <= i < j < |s.order| ==> s.order[i].id != s.order[j].id)
      && (forall p :: p in s.done ==> (Committed(p) <==> Ordered(s.order, p.txn.id)))
      && (forall p :: p in s.done && Committed(p) ==>
            p.txn.id in serial.results && serial.results[p.txn.id] == Results(p.res1, p.res2))
      && ((forall p :: p in s.waiting ==> !p.second) ==> forall c :: Lookup(s.regs, c) == Lookup(serial.regs, c))
  {
    ReachableInv(lockOf, hosts, steps, states, k);
    var s := states[k];
    if forall p :: p in s.waiting ==> !p.second {
      forall c
        ensures Lookup(s.regs, c) == Lookup(Serial(s.order).regs, c)
      {
        assert CellInv(s, Serial(s.order).regs, c);
      }
    }
  }

  // ---------------------------------------------------------------- the lock word, exactly

  /** Any two transactions that acquire a common lock check it. */
  ghost predicate SharedAreChecked(hosts: Hosts) {
    forall a, b :: hosts(a) && hosts(b) && a.id != b.id ==> a.acquire * b.acquire <= b.check
  }

  /** Lock masks have 32 bits. */
  ghost predicate HaveWords(hosts: Hosts) {
    forall t :: hosts(t) ==> IsWord(t.check) && IsWord(t.acquire)
  }

  ghost predicate SentBy(hosts: Hosts, s: State) {
    forall p :: p in s.waiting ==> hosts(p.txn)
  }

  lemma {:induction false} ReachableLockInv(hosts: Hosts, steps: seq<Step>, states: seq<State>, k: nat)
    requires IsRun(hosts, steps, states) && HaveWords(hosts) && SharedAreChecked(hosts) && k < |states|
    ensures PacketsInv(states[k]) && LockInv(states[k]) && SentBy(hosts, states[k])
  {
    if k != 0 {
      var s := states[k - 1];
      ReachableLockInv(hosts, steps, states, k - 1);
      match steps[k - 1]
      case Inject(t) =>
        InjectKeepsLockInv(s, t);
        AppendMembers(s.waiting, Fresh(t));
      case Process(i) =>
        assert s.waiting[i] in s.waiting;
        ProcessMembers(s, i);
        ProcessKeepsLockInv(s, i);
    }
  }

  /**
    In every reachable state the lock word is the disjoint union of what the packets on their way
    hold, so giving bits back never borrows and clears exactly the giver's bits.
   */
  lemma LockWordIsDisjointUnion(hosts: Hosts, steps: seq<Step>, states: seq<State>, k: nat)
    requires IsRun(hosts, steps, states) && HaveWords(hosts) && SharedAreChecked(hosts) && k < |states|
    ensures states[k].lock == Held(states[k].waiting)
    ensures forall i, j :: 0 <= i < j < |states[k].waiting| ==> states[k].waiting[i].undo !! states[k].waiting[j].undo
    ensures forall p :: p in states[k].waiting ==> Subtract(states[k].lock, p.undo) == states[k].lock - p.undo
    ensures NeverBorrows(states[k])
  {
    ReachableLockInv(hosts, steps, states, k);
    var s := states[k];
    forall p | p in s.waiting
      ensures Number(p.undo, WORD_BITS) <= Number(s.lock, WORD_BITS)
      ensures Subtract(s.lock, p.undo) == s.lock - p.undo
    {
      var i :| 0 <= i < |s.waiting| && s.waiting[i] == p;
      HeldRemove(s, i);
      SubtractSubset(s.lock, p.undo);
    }
  }

  /** No packet has to give back more than the lock word holds. */
  ghost predicate NeverBorrows(s: State) {
    forall p :: p in s.waiting ==> Number(p.undo, WORD_BITS) <= Number(s.lock, WORD_BITS)
  }

  lemma {:induction false} NumberOfBit(w: Word, b: nat, n: nat)
    requires b in w && b < n
    ensures Number(w, n) > 0
  {
    if b < n - 1 {
      NumberOfBit(w, b, n - 1);
    }
  }

  lemma SmallerNumber(a: Word, b: Word, x: nat)
    requires a <= b && x in b && x !in a && IsWord(b)
    ensures Number(a, WORD_BITS) < Number(b, WORD_BITS)
  {
    NumberOfDifference(b, a, WORD_BITS);
    NumberOfBit(b - a, x, WORD_BITS);
  }

  lemma ClashFirst(a: Txn, b: Txn) returns (s: State, pa: Packet)
    requires a.acquire != {}
    ensures s == Next(Next(Next(Init, Inject(a)), Inject(b)), Process(0))
    ensures s.waiting == [Fresh(b), pa] && s.lock == a.acquire && pa.second && pa.undo == a.acquire && pa.txn == a
  {
    var s0 := Next(Next(Init, Inject(a)), Inject(b));
    assert s0.waiting == [Fresh(a), Fresh(b)] && s0.lock == {};
    assert {} * a.check == {} && a.acquire - {} == a.acquire && {} + a.acquire == a.acquire;
    s := Next(s0, Process(0));
    pa := Ingress(s0.lock, s0.regs, Fresh(a)).pkt;
    assert Remove(s0.waiting, 0) == [Fresh(b)];
  }

  lemma ClashSecond(a: Txn, b: Txn, x: nat, s: State, pa: Packet) returns (s': State, pb: Packet)
    requires s.waiting == [Fresh(b), pa] && s.lock == a.acquire && x in a.acquire * b.acquire && x !in b.check
    ensures s' == Next(s, Process(0)) && s'.waiting == [pa, pb] && s'.lock == a.acquire + b.acquire
    ensures x in pb.undo && b.acquire - a.acquire <= pb.undo <= b.acquire
  {
    s' := Next(s, Process(0));
    pb := Ingress(s.lock, s.regs, Fresh(b)).pkt;
    assert Remove(s.waiting, 0) == [pa];
    assert b.acquire != {};
  }

  lemma ClashThird(a: Txn, b: Txn, x: nat, s: State, pa: Packet, pb: Packet)
    requires IsWord(a.acquire) && IsWord(b.acquire) && x in a.acquire
    requires s.waiting == [pa, pb] && s.lock == a.acquire + b.acquire && pa.second && pa.undo == a.acquire
    requires x in pb.undo && b.acquire - a.acquire <= pb.undo <= b.acquire
    ensures var s' := Next(s, Process(0)); s'.waiting == [pb] && s'.lock == b.acquire - a.acquire && !NeverBorrows(s')
  {
    var s' := Next(s, Process(0));
    SubtractSubset(s.lock, pa.undo);
    assert s.lock - a.acquire == b.acquire - a.acquire;
    assert Remove(s.waiting, 0) == [pb];
    SmallerNumber(s'.lock, pb.undo, x);
    assert s'.waiting[0] == pb;
  }

  /**
    Two transactions that share a lock which the second does not check: both hold the bit, and once
    the first has given it back the second has to give back a bit that is no longer set.
   */
  lemma UncheckedAcquireBorrows(hosts: Hosts, a: Txn, b: Txn) returns (steps: seq<Step>, states: seq<State>)
    requires HaveWords(hosts) && hosts(a) && hosts(b) && a.id != b.id && !(a.acquire * b.acquire <= b.check)
    ensures IsRun(hosts, steps, states) && |steps| == 5 && !NeverBorrows(states[5])
    ensures states[5].lock == b.acquire - a.acquire
  {
    var x :| x in a.acquire * b.acquire && x !in b.check;
    steps, states := TwoInjected(hosts, a, b);
    var s3, pa := ClashFirst(a, b);
    var s4, pb := ClashSecond(a, b, x, s3, pa);
    ClashThird(a, b, x, s4, pa, pb);
    steps, states := Extend(hosts, steps, states, Process(0));
    steps, states := Extend(hosts, steps, states, Process(0));
    steps, states := Extend(hosts, steps, states, Process(0));
  }

  lemma TwoInjected(hosts: Hosts, a: Txn, b: Txn) returns (steps: seq<Step>, states: seq<State>)
    requires hosts(a) && hosts(b) && a.id != b.id
    ensures IsRun(hosts, steps, states) && |steps| == 2 && states[2] == Next(Next(Init, Inject(a)), Inject(b))
    ensures states[2].waiting == [Fresh(a), Fresh(b)]
  {
    var s1 := Next(Init, Inject(a));
    assert s1.waiting == [Fresh(a)] && s1.done == [] && s1.order == [];
    steps, states := Extend(hosts, [], [Init], Inject(a));
    steps, states := Extend(hosts, steps, states, Inject(b));
  }

  lemma Extend(hosts: Hosts, steps: seq<Step>, states: seq<State>, step: Step)
    returns (steps': seq<Step>, states': seq<State>)
    requires IsRun(hosts, steps, states) && Enabled(hosts, states[|steps|], step)
    ensures IsRun(hosts, steps', states') && |steps'| == |steps| + 1 && states'[|steps'|] == Next(states[|steps|], step)
  {
    steps', states' := steps + [step], states + [Next(states[|steps|], step)];
    forall k | 0 <= k < |steps'|
      ensures Enabled(hosts, states'[k], steps'[k]) && states'[k + 1] == Next(states'[k], steps'[k])
    {
      assert states'[k] == states[k];
      if k < |steps| {
        assert steps'[k] == steps[k] && states'[k + 1] == states[k + 1];
      } else {
        assert steps'[k] == step;
      }
    }
  }

  /**
    No run ever borrows if and only if any two transactions that acquire a common lock check it; that
    every transaction checks what it acquires is enough.
   */
  lemma NeverBorrowsIff(hosts: Hosts)
    requires HaveWords(hosts)
    ensures SharedAreChecked(hosts) <==>
      forall steps, states, k :: IsRun(hosts, steps, states) && 0 <= k < |states| ==> NeverBorrows(states[k])
    ensures (forall t :: hosts(t) ==> t.acquire <= t.check) ==> SharedAreChecked(hosts)
  {
    if SharedAreChecked(hosts) {
      forall steps, states, k | IsRun(hosts, steps, states) && 0 <= k < |states|
        ensures NeverBorrows(states[k])
      {
        LockWordIsDisjointUnion(hosts, steps, states, k);
      }
    } else {
      var a, b :| hosts(a) && hosts(b) && a.id != b.id && !(a.acquire * b.acquire <= b.check);
      var steps, states := UncheckedAcquireBorrows(hosts, a, b);
      assert IsRun(hosts, steps, states) && !NeverBorrows(states[5]);
    }
  }
}
