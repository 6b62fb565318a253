/**
  The simulator itself (`switch_t`): input buffers, parsers, pipe and egress hold slots of one
  packet pool and are updated in place. Seen through the pool, `Send`, `RunCycle` and `Recv` are
  exactly the functions of `SwitchModel`.
 */
module SwitchSim {
  import opened SwitchModel
  import opened SwitchSlots
  import SwitchPlaces

  const RECIRC_PORT: nat := N_PORT_GROUPS

  // ---------------------------------------------------------------- looking through the pool

  const NoTxn := Txn(0, 0, 0, 0, true, {}, {}, {}, [])

  function At(pool: seq<Txn>, x: Slot): Txn {
    if x < |pool| then pool[x] else NoTxn
  }

  function Deref(pool: seq<Txn>, o: Option<Slot>): Option<Txn> {
    if o.Some? then Some(At(pool, o.value)) else None
  }

  function DerefAll(pool: seq<Txn>, os: seq<Option<Slot>>): seq<Option<Txn>> {
    seq(|os|, i requires 0 <= i < |os| => Deref(pool, os[i]))
  }

  function DerefQueue(pool: seq<Txn>, q: seq<Slot>): seq<Txn> {
    seq(|q|, i requires 0 <= i < |q| => At(pool, q[i]))
  }

  function DerefOuts(pool: seq<Txn>, outs: seq<Out>): seq<Done> {
    seq(|outs|, i requires 0 <= i < |outs| => Done(outs[i].ok, At(pool, outs[i].slot)))
  }

  function View(pool: seq<Txn>, c: Slots, regs: Regs, lock: Lock, nextId: TxnId, entered: seq<Entry>): State {
    State(
      seq(|c.ipb|, g requires 0 <= g < |c.ipb| => DerefQueue(pool, c.ipb[g])),
      DerefAll(pool, c.parser),
      Deref(pool, c.recirc),
      DerefAll(pool, c.pipe),
      seq(|c.egress|, port requires 0 <= port < |c.egress| => DerefOuts(pool, c.egress[port])),
      regs.last, regs.deps, lock, nextId, entered)
  }

  // ---------------------------------------------------------------- pool updates of one cycle

  function ExitTxn(t: Txn): Txn {
    if Leaves(Finished(t)) then Finished(t) else Finished(t).(valid := true)
  }

  function ExitOf(t: Txn): Exit {
    if Leaves(Finished(t)) then Exits(t.port, |t.passes| == Finished(t).passCt) else Recirculates
  }

  function Set(pool: seq<Txn>, x: Slot, t: Txn): seq<Txn> {
    if x < |pool| then pool[x := t] else pool
  }

  function AfterExit(pool: seq<Txn>, out: Option<Slot>): seq<Txn> {
    if out.Some? then Set(pool, out.value, ExitTxn(At(pool, out.value))) else pool
  }

  function ExitFrom(pool: seq<Txn>, out: Option<Slot>): Exit {
    if out.Some? then ExitOf(At(pool, out.value)) else Recirculates
  }

  function AfterAdmission(pool: seq<Txn>, lock: Lock, x: Option<Slot>): seq<Txn> {
    if x.Some? then Set(pool, x.value, ManageLocks(lock, At(pool, x.value)).txn) else pool
  }

  /** The places whose packet a cycle rewrites; everybody else's packet stays as it is. */
  lemma OthersKeepPacket(pool: seq<Txn>, c: Slots, lock: Lock, chosen: Option<nat>, p: Spot)
    requires SlotInv(c) && (chosen.Some? ==> chosen.value < N_PORT_GROUPS && c.recirc.None?) && SlotAt(c, p).Some?
    requires p != Stage(N_STAGES - 1)
    requires p != (if c.recirc.Some? then Recirc else if chosen.Some? then Parsed(chosen.value) else FreeAt(0))
    ensures var out := c.pipe[N_STAGES - 1];
      At(AfterAdmission(AfterExit(pool, out), lock, EnteringSlot(c, chosen)), SlotAt(c, p).value) ==
        At(pool, SlotAt(c, p).value)
  {
    var x := SlotAt(c, p);
    assert SlotAt(c, Stage(N_STAGES - 1)) == c.pipe[N_STAGES - 1];
    assert c.recirc.Some? ==> SlotAt(c, Recirc) == EnteringSlot(c, chosen);
    assert chosen.Some? ==> SlotAt(c, Parsed(chosen.value)) == EnteringSlot(c, chosen);
  }

  // ---------------------------------------------------------------- a cycle seen through the pool

  /** Every slot is in one place, and through the pool the slots stand for a well-formed switch. */
  ghost predicate Coherent(pool: seq<Txn>, c: Slots, s: State) {
    && SlotInv(c) && |pool| == POOL_SIZE && SwitchPlaces.Inv(s)
    && s == View(pool, c, Regs(s.last, s.deps), s.lock, s.nextId, s.entered)
  }

  lemma ParsersInRange(pool: seq<Txn>, c: Slots, s: State)
    requires Coherent(pool, c, s)
    ensures forall g :: 0 <= g < N_PORT_GROUPS ==>
      |s.ipb[g]| == |c.ipb[g]| && (s.parser[g].Some? <==> c.parser[g].Some?)
      && (c.parser[g].Some? ==> c.parser[g].value < POOL_SIZE)
    ensures c.recirc.Some? ==> c.recirc.value < POOL_SIZE
  {
    assert forall g :: 0 <= g < N_PORT_GROUPS ==> SlotAt(c, Parsed(g)) == c.parser[g];
    assert SlotAt(c, Recirc) == c.recirc;
  }

  /** The switch before a cycle: slots, pool and what they stand for. */
  ghost predicate Before(pool: seq<Txn>, c: Slots, s: State, chosen: Option<nat>) {
    && SlotInv(c) && |pool| == POOL_SIZE && Shape(s)
    && s == View(pool, c, Regs(s.last, s.deps), s.lock, s.nextId, s.entered)
    && chosen == Chosen(s)
  }

  function PoolAfter(pool: seq<Txn>, c: Slots, lock: Lock, chosen: Option<nat>): seq<Txn>
    requires SlotShape(c) && (chosen.Some? ==> chosen.value < N_PORT_GROUPS)
  {
    AfterAdmission(AfterExit(pool, c.pipe[N_STAGES - 1]), lock, EnteringSlot(c, chosen))
  }

  lemma EnteringView(pool: seq<Txn>, c: Slots, s: State, chosen: Option<nat>)
    requires Before(pool, c, s, chosen)
    ensures Entering(s) == Deref(pool, EnteringSlot(c, chosen))
    ensures EnteringSlot(c, chosen).Some? ==>
      At(AfterExit(pool, c.pipe[N_STAGES - 1]), EnteringSlot(c, chosen).value) == Entering(s).value
    ensures Deref(PoolAfter(pool, c, s.lock, chosen), EnteringSlot(c, chosen)) == Admitted(s)
  {
    var x := EnteringSlot(c, chosen);
    if x.Some? {
      var p := if c.recirc.Some? then Recirc else Parsed(chosen.value);
      assert SlotAt(c, p) == x;
      assert SlotAt(c, Stage(N_STAGES - 1)) == c.pipe[N_STAGES - 1];
    }
  }

  lemma PipeView(pool: seq<Txn>, c: Slots, s: State, chosen: Option<nat>)
    requires Before(pool, c, s, chosen)
    ensures DerefAll(PoolAfter(pool, c, s.lock, chosen), [EnteringSlot(c, chosen)] + c.pipe[..N_STAGES - 1])
      == [Admitted(s)] + s.pipe[..N_STAGES - 1]
  {
    EnteringView(pool, c, s, chosen);
    forall i | 0 <= i < N_STAGES - 1
      ensures Deref(PoolAfter(pool, c, s.lock, chosen), c.pipe[i]) == s.pipe[i]
    {
      assert SlotAt(c, Stage(i)) == c.pipe[i];
      if c.pipe[i].Some? {
        OthersKeepPacket(pool, c, s.lock, chosen, Stage(i));
      }
    }
  }

  /** The packet that leaves the pipe is not the one that enters it. */
  lemma OutView(pool: seq<Txn>, c: Slots, s: State, chosen: Option<nat>)
    requires Before(pool, c, s, chosen) && c.pipe[N_STAGES - 1].Some?
    ensures s.pipe[N_STAGES - 1] == Some(At(pool, c.pipe[N_STAGES - 1].value))
    ensures At(PoolAfter(pool, c, s.lock, chosen), c.pipe[N_STAGES - 1].value) == ExitTxn(s.pipe[N_STAGES - 1].value)
  {
    var p := if c.recirc.Some? then Recirc else if chosen.Some? then Parsed(chosen.value) else FreeAt(0);
    assert SlotAt(c, Stage(N_STAGES - 1)) == c.pipe[N_STAGES - 1];
    assert EnteringSlot(c, chosen).Some? ==> SlotAt(c, p) == EnteringSlot(c, chosen);
  }

  lemma GroupView(pool: seq<Txn>, c: Slots, s: State, chosen: Option<nat>, g: nat)
    requires Before(pool, c, s, chosen) && g < N_PORT_GROUPS
    ensures var pool' := PoolAfter(pool, c, s.lock, chosen);
      && DerefQueue(pool', RefilledIpb(c, chosen, g)) == NextIpb(s, g)
      && Deref(pool', RefilledParser(c, chosen, g)) == NextParser(s, g)
  {
    var pool' := PoolAfter(pool, c, s.lock, chosen);
    forall k | 0 <= k < |c.ipb[g]|
      ensures At(pool', c.ipb[g][k]) == s.ipb[g][k]
    {
      assert SlotAt(c, Queued(g, k)).Some?;
      OthersKeepPacket(pool, c, s.lock, chosen, Queued(g, k));
    }
    if !RefillsSlot(c, chosen, g) {
      assert SlotAt(c, Parsed(g)) == c.parser[g];
      OthersKeepPacket(pool, c, s.lock, chosen, Parsed(g));
    }
  }

  lemma EgressView(pool: seq<Txn>, c: Slots, s: State, chosen: Option<nat>, port: nat)
    requires Before(pool, c, s, chosen) && port < N_PORTS
    ensures DerefOuts(PoolAfter(pool, c, s.lock, chosen), c.egress[port]) == s.egress[port]
  {
    var pool' := PoolAfter(pool, c, s.lock, chosen);
    forall k | 0 <= k < |c.egress[port]|
      ensures At(pool', c.egress[port][k].slot) == At(pool, c.egress[port][k].slot)
    {
      assert SlotAt(c, Left(port, k)) == Some(c.egress[port][k].slot);
      OthersKeepPacket(pool, c, s.lock, chosen, Left(port, k));
    }
  }

  lemma EgressAfterCycle(pool: seq<Txn>, c: Slots, s: State, chosen: Option<nat>)
    requires Before(pool, c, s, chosen)
    ensures var out := c.pipe[N_STAGES - 1]; var exit := ExitFrom(pool, out);
      && (exit.Exits? ==> exit.port < N_PORTS)
      && var egress' := EgressSlots(c.egress, out, exit);
         forall port :: 0 <= port < N_PORTS ==>
           DerefOuts(PoolAfter(pool, c, s.lock, chosen), egress'[port]) ==
             ToEgress(s.egress, s.pipe[N_STAGES - 1])[port]
  {
    var out := c.pipe[N_STAGES - 1];
    if out.Some? {
      OutView(pool, c, s, chosen);
    }
    forall port | 0 <= port < N_PORTS
      ensures DerefOuts(PoolAfter(pool, c, s.lock, chosen), EgressSlots(c.egress, out, ExitFrom(pool, out))[port])
        == ToEgress(s.egress, s.pipe[N_STAGES - 1])[port]
    {
      EgressView(pool, c, s, chosen, port);
    }
  }

  /** Moving slots and rewriting the two pool entries is `SwitchModel.Cycle` seen through the pool. */
  lemma CycleView(pool: seq<Txn>, c: Slots, s: State, chosen: Option<nat>)
    requires Before(pool, c, s, chosen)
    ensures var exit := ExitFrom(pool, c.pipe[N_STAGES - 1]);
      && Cyclable(c, chosen, exit)
      && var s' := Cycle(s);
         View(PoolAfter(pool, c, s.lock, chosen), CycleSlots(c, chosen, exit), Regs(s'.last, s'.deps), s'.lock,
           s'.nextId, s'.entered) == s'
  {
    EnteringView(pool, c, s, chosen);
    PipeView(pool, c, s, chosen);
    EgressAfterCycle(pool, c, s, chosen);
    if c.pipe[N_STAGES - 1].Some? {
      OutView(pool, c, s, chosen);
    }
    forall g | 0 <= g < N_PORT_GROUPS
      ensures DerefQueue(PoolAfter(pool, c, s.lock, chosen), RefilledIpb(c, chosen, g)) == NextIpb(s, g)
      ensures Deref(PoolAfter(pool, c, s.lock, chosen), RefilledParser(c, chosen, g)) == NextParser(s, g)
    {
      GroupView(pool, c, s, chosen, g);
    }
  }

  /** Packets in use look the same through both pools. */
  ghost predicate SamePackets(pool: seq<Txn>, pool': seq<Txn>, c: Slots) {
    forall p: Spot :: !p.FreeAt? && SlotAt(c, p).Some? ==> At(pool', SlotAt(c, p).value) == At(pool, SlotAt(c, p).value)
  }

  lemma SamePacketsView(pool: seq<Txn>, pool': seq<Txn>, c: Slots)
    requires SlotShape(c) && SamePackets(pool, pool', c)
    ensures forall g :: 0 <= g < N_PORT_GROUPS ==> DerefQueue(pool', c.ipb[g]) == DerefQueue(pool, c.ipb[g])
    ensures DerefAll(pool', c.parser) == DerefAll(pool, c.parser)
    ensures Deref(pool', c.recirc) == Deref(pool, c.recirc)
    ensures DerefAll(pool', c.pipe) == DerefAll(pool, c.pipe)
    ensures forall q :: 0 <= q < N_PORTS ==> DerefOuts(pool', c.egress[q]) == DerefOuts(pool, c.egress[q])
  {
    assert forall g, k :: 0 <= g < N_PORT_GROUPS && 0 <= k < |c.ipb[g]| ==>
      SlotAt(c, Queued(g, k)) == Some(c.ipb[g][k]);
    assert forall g :: 0 <= g < N_PORT_GROUPS ==> SlotAt(c, Parsed(g)) == c.parser[g];
    assert SlotAt(c, Recirc) == c.recirc;
    assert forall i :: 0 <= i < N_STAGES ==> SlotAt(c, Stage(i)) == c.pipe[i];
    assert forall q, k :: 0 <= q < N_PORTS && 0 <= k < |c.egress[q]| ==>
      SlotAt(c, Left(q, k)) == Some(c.egress[q][k].slot);
  }

  lemma CycleDone(pool: seq<Txn>, c: Slots, s: State, chosen: Option<nat>)
    requires Before(pool, c, s, chosen) && SwitchPlaces.Inv(s)
    ensures var exit, x := ExitFrom(pool, c.pipe[N_STAGES - 1]), EnteringSlot(c, chosen);
      && Cyclable(c, chosen, exit) && SlotInv(CycleSlots(c, chosen, exit)) && SwitchPlaces.Inv(Cycle(s))
      && (x.Some? ==> At(AfterExit(pool, c.pipe[N_STAGES - 1]), x.value) == At(pool, x.value))
      && View(PoolAfter(pool, c, s.lock, chosen), CycleSlots(c, chosen, exit), RegOps(Regs(s.last, s.deps), s.pipe, 0),
              if x.Some? then ManageLocks(s.lock, At(pool, x.value)).lock else s.lock, s.nextId,
              if x.Some? && ManageLocks(s.lock, At(pool, x.value)).txn.valid
              then s.entered + [EntryOf(ManageLocks(s.lock, At(pool, x.value)).txn)] else s.entered) == Cycle(s)
  {
    EnteringView(pool, c, s, chosen);
    CycleView(pool, c, s, chosen);
    CycleKeepsSlotInv(c, chosen, ExitFrom(pool, c.pipe[N_STAGES - 1]));
    SwitchPlaces.CycleKeepsInv(s);
  }

  /** The containers after a cycle, put together. */
  lemma SlotsAfterCycle(c: Slots, chosen: Option<nat>, exit: Exit, ipb: seq<seq<Slot>>, parser: seq<Option<Slot>>,
                        pipe: seq<Option<Slot>>)
    requires Cyclable(c, chosen, exit) && |ipb| == |parser| == N_PORT_GROUPS + 1
    requires forall g :: 0 <= g < N_PORT_GROUPS ==>
      ipb[g] == RefilledIpb(c, chosen, g) && parser[g] == RefilledParser(c, chosen, g)
    requires var out := c.pipe[N_STAGES - 1];
      parser[RECIRC_PORT] == (if out.Some? && exit.Recirculates? then Some(out.value) else None)
    requires pipe == ([c.pipe[0]] + c.pipe[..N_STAGES - 1])[0 := EnteringSlot(c, chosen)]
    ensures Slots(c.free, ipb[..RECIRC_PORT], parser[..RECIRC_PORT], parser[RECIRC_PORT], pipe,
      EgressSlots(c.egress, c.pipe[N_STAGES - 1], exit))
      == CycleSlots(c, chosen, exit)
  {
  }

  /** All fields after a cycle, put together: every slot in one place again, and `Cycle` seen through the pool. */
  lemma CycleEnds(pool: seq<Txn>, c: Slots, s: State, chosen: Option<nat>, ipb: seq<seq<Slot>>,
                  parser: seq<Option<Slot>>)
    requires Coherent(pool, c, s) && chosen == Chosen(s) && |ipb| == |parser| == N_PORT_GROUPS + 1
    requires forall g :: 0 <= g < N_PORT_GROUPS ==>
      ipb[g] == RefilledIpb(c, chosen, g) && parser[g] == RefilledParser(c, chosen, g)
    requires var out := c.pipe[N_STAGES - 1];
      parser[RECIRC_PORT] == (if out.Some? && ExitFrom(pool, out).Recirculates? then Some(out.value) else None)
    ensures var out, x := c.pipe[N_STAGES - 1], EnteringSlot(c, chosen);
      var pool0, exit, pool', s' :=
        AfterExit(pool, out), ExitFrom(pool, out), PoolAfter(pool, c, s.lock, chosen), Cycle(s);
      && (exit.Exits? ==> exit.port < N_PORTS)
      && var c' := SwitchSlots.Slots(c.free, ipb[..RECIRC_PORT], parser[..RECIRC_PORT], parser[RECIRC_PORT],
                                     ([c.pipe[0]] + c.pipe[..N_STAGES - 1])[0 := x], EgressSlots(c.egress, out, exit));
      && Coherent(pool', c', s')
      && s' == View(pool', c', RegOps(Regs(s.last, s.deps), s.pipe, 0),
                    if x.Some? then ManageLocks(s.lock, At(pool0, x.value)).lock else s.lock, s.nextId,
                    if x.Some? && ManageLocks(s.lock, At(pool0, x.value)).txn.valid
                    then s.entered + [EntryOf(ManageLocks(s.lock, At(pool0, x.value)).txn)] else s.entered)
  {
    CycleDone(pool, c, s, chosen);
    SlotsAfterCycle(c, chosen, ExitFrom(pool, c.pipe[N_STAGES - 1]), ipb, parser,
                    ([c.pipe[0]] + c.pipe[..N_STAGES - 1])[0 := EnteringSlot(c, chosen)]);
  }

  lemma SendView(pool: seq<Txn>, c: Slots, s: State, t: Txn)
    requires SlotInv(c) && |pool| == POOL_SIZE && Shape(s) && c.free != [] && t.port < N_PORTS && Accepts(s, t)
    requires s == View(pool, c, Regs(s.last, s.deps), s.lock, s.nextId, s.entered)
    ensures View(Set(pool, c.free[0], t.(id := s.nextId)), SendSlots(c, PortToGroup(t.port)), Regs(s.last, s.deps),
      s.lock, s.nextId + 1, s.entered)
      == Send(s, t)
  {
    var c', s' := SendSlots(c, PortToGroup(t.port)), Send(s, t);
    var pool' := Set(pool, c.free[0], t.(id := s.nextId));
    assert SlotAt(c, FreeAt(0)) == Some(c.free[0]);
    SamePacketsView(pool, pool', c);
    assert forall g :: 0 <= g < N_PORT_GROUPS ==> DerefQueue(pool', c'.ipb[g]) == s'.ipb[g];
  }

  /** What a send leaves is coherent again, and seen through the pool it is the model's send. */
  lemma SendFacts(pool: seq<Txn>, c: Slots, s: State, t: Txn)
    requires Coherent(pool, c, s) && c.free != [] && Sendable(t) && Accepts(s, t)
    ensures c.free[0] < |pool|
    ensures var pool', c' := pool[c.free[0] := t.(id := s.nextId)], SendSlots(c, PortToGroup(t.port));
      && Coherent(pool', c', Send(s, t))
      && View(pool', c', Regs(s.last, s.deps), s.lock, s.nextId + 1, s.entered) == Send(s, t)
  {
    assert SlotAt(c, FreeAt(0)) == Some(c.free[0]);
    SendView(pool, c, s, t);
    SendKeepsSlotInv(c, PortToGroup(t.port));
    SwitchPlaces.SendKeepsInv(s, t);
  }

  lemma RecvView(pool: seq<Txn>, c: Slots, s: State, port: nat)
    requires SlotShape(c) && Shape(s) && port < N_PORTS && c.egress[port] != []
    requires s == View(pool, c, Regs(s.last, s.deps), s.lock, s.nextId, s.entered)
    ensures View(pool, RecvSlots(c, port), Regs(s.last, s.deps), s.lock, s.nextId, s.entered) == Recv(s, port)
  {
    var c', s' := RecvSlots(c, port), Recv(s, port);
    assert forall q :: 0 <= q < N_PORTS ==> DerefOuts(pool, c'.egress[q]) == s'.egress[q];
  }

  // ---------------------------------------------------------------- the switch

  datatype SendResult = Sent | BufferFull | PoolEmpty

  class Switch {
    var pool: seq<Txn>
    var free: seq<Slot>
    /** One input buffer and one parser per port group, and one more for the recirculation port. */
    var ipb: seq<seq<Slot>>
    var parser: seq<Option<Slot>>
    var pipe: seq<Option<Slot>>
    var egress: seq<seq<Out>>
    var regs: Regs
    var lock: Lock
    var nextId: TxnId
    ghost var entered: seq<Entry>

    ghost predicate Sized()
      reads this
    {
      && |pool| == POOL_SIZE && |ipb| == N_PORT_GROUPS + 1 && |parser| == N_PORT_GROUPS + 1
      && |pipe| == N_STAGES && |egress| == N_PORTS
    }

    ghost function Slots(): SwitchSlots.Slots
      reads this
      requires Sized()
    {
      SwitchSlots.Slots(free, ipb[..RECIRC_PORT], parser[..RECIRC_PORT], parser[RECIRC_PORT], pipe, egress)
    }

    ghost function Abs(): State
      reads this
      requires Sized()
    {
      View(pool, Slots(), regs, lock, nextId, entered)
    }

    /** Between operations: the recirculation buffer is empty and every slot is in one place. */
    ghost predicate Valid()
      reads this
    {
      Sized() && ipb[RECIRC_PORT] == [] && Coherent(pool, Slots(), Abs())
    }

    /** A switch with any pool contents, all slots free in order and `lock` held by nobody. */
    constructor (packets: seq<Txn>, lock0: Lock)
      requires |packets| == POOL_SIZE
      ensures Valid() && Abs() == Init(lock0)
    {
      pool := packets;
      free := seq(POOL_SIZE, i => i);
      ipb := seq(N_PORT_GROUPS + 1, i => []);
      parser := seq(N_PORT_GROUPS + 1, i => None);
      pipe := seq(N_STAGES, i => None);
      egress := seq(N_PORTS, i => []);
      regs := Regs(map[], {});
      lock := lock0;
      nextId := 1;
      entered := [];
      new;
      assert Slots() == FreshSlots();
      FreshSlotsInv();
      assert Abs() == Init(lock0);
    }

    method Send(t: Txn) returns (r: SendResult)
      requires Valid() && Sendable(t)
      modifies this
      ensures Valid()
      ensures r == Sent <==> Accepts(old(Abs()), t) && old(free) != []
      ensures r == PoolEmpty <==> Accepts(old(Abs()), t) && old(free) == []
      ensures r == PoolEmpty ==> InEgress(egress, |egress|) > 69
      ensures if r == PoolEmpty then Abs() == old(Abs()) else Abs() == SwitchModel.Send(old(Abs()), t)
    {
      var g := PortToGroup(t.port);
      ghost var c, s := Slots(), Abs();
      if |ipb[g]| < IPB_SIZE {
        SendFindsASlot(c, g);
        if free == [] {
          return PoolEmpty;
        }
        SendFacts(pool, c, s, t);
        var slot := free[0];
        free := free[1..];
        pool := pool[slot := t.(id := nextId)];
        nextId := nextId + 1;
        ipb := ipb[g := ipb[g] + [slot]];
        assert Slots() == SendSlots(c, g);
        return Sent;
      } else {
        return BufferFull;
      }
    }

    method Recv(port: nat) returns (r: Option<Done>)
      requires Valid() && port < N_PORTS
      modifies this`egress, this`free
      ensures Valid()
      ensures Abs() == SwitchModel.Recv(old(Abs()), port)
      ensures r == if old(Abs()).egress[port] == [] then None else Some(old(Abs()).egress[port][0])
    {
      ghost var c, s := Slots(), Abs();
      if egress[port] == [] {
        return None;
      }
      RecvView(pool, c, s, port);
      RecvKeepsSlotInv(c, port);
      SwitchPlaces.NextKeepsInv((t: Txn) => true, s, Take(port));
      var out := egress[port][0];
      r := Some(Done(out.ok, At(pool, out.slot)));
      egress := egress[port := egress[port][1..]];
      free := [out.slot] + free;
      assert Slots() == RecvSlots(c, port);
    }

    method RunRegOps(i: nat)
      requires i < |pipe|
      requires pipe[i].Some? && At(pool, pipe[i].value).valid ==> Live(Deref(pool, pipe[i]))
      modifies this`regs
      ensures regs == StageOps(old(regs), Deref(pool, pipe[i]), i)
    {
      if pipe[i].Some? {
        var t := At(pool, pipe[i].value);
        if t.valid {
          var g := t.passes[t.passCt];
          for j := 0 to REGS_PER_STAGE
            invariant regs == GridOps(old(regs), g, t.id, i, j)
          {
            var r := Reg(i, j);
            if r in g {
              var c := Cell(r, g[r]);
              var last := LastTxn(regs.last, c);
              regs := Regs(regs.last[c := t.id], regs.deps + {Dep(t.id, last)});
            }
          }
        }
      }
    }

    /** The packet in the last stage goes to egress or back to the recirculation port. */
    method ExitLast()
      requires Sized()
      requires pipe[N_STAGES - 1].Some? ==>
        pipe[N_STAGES - 1].value < POOL_SIZE && At(pool, pipe[N_STAGES - 1].value).port < N_PORTS
      modifies this`pool, this`egress, this`ipb
      ensures pool == AfterExit(old(pool), pipe[N_STAGES - 1])
      ensures egress == EgressSlots(old(egress), pipe[N_STAGES - 1], ExitFrom(old(pool), pipe[N_STAGES - 1]))
      ensures ipb == if pipe[N_STAGES - 1].Some? && ExitFrom(old(pool), pipe[N_STAGES - 1]).Recirculates?
        then old(ipb)[RECIRC_PORT := old(ipb)[RECIRC_PORT] + [pipe[N_STAGES - 1].value]] else old(ipb)
    {
      if pipe[N_STAGES - 1].Some? {
        var x := pipe[N_STAGES - 1].value;
        if pool[x].valid {
          pool := pool[x := pool[x].(passCt := pool[x].passCt + 1)];
        }
        var t := pool[x];
        if |t.passes| == t.passCt {
          egress := egress[t.port := egress[t.port] + [Out(true, x)]];
        } else if t.passCt == 0 && t.failCt >= MAX_FAIL_CT && t.locksUndo == {} {
          egress := egress[t.port := egress[t.port] + [Out(false, x)]];
        } else {
          pool := pool[x := t.(valid := true)];
          ipb := ipb[RECIRC_PORT := ipb[RECIRC_PORT] + [x]];
        }
      }
    }

    /** The other stages perform their operations and hand their packets on. */
    method ShiftPipe(ghost pkts: seq<Option<Txn>>, ghost regs0: Regs)
      requires Sized() && |pkts| == N_STAGES && regs == RegOps(regs0, pkts, N_STAGES - 1)
      requires forall i :: 0 <= i < N_STAGES - 1 ==> Deref(pool, pipe[i]) == pkts[i]
      requires forall i :: 0 <= i < N_STAGES - 1 && pkts[i].Some? && pkts[i].value.valid ==> Live(pkts[i])
      modifies this`regs, this`pipe
      ensures pipe == [old(pipe)[0]] + old(pipe)[..N_STAGES - 1]
      ensures regs == RegOps(regs0, pkts, 0)
    {
      var i := N_STAGES - 1;
      while i >= 1
        invariant 0 <= i < N_STAGES && |pipe| == N_STAGES
        invariant regs == RegOps(regs0, pkts, i)
        invariant forall j :: 0 <= j <= i && j < N_STAGES - 1 ==> pipe[j] == old(pipe)[j]
        invariant forall j :: i < j < N_STAGES ==> pipe[j] == old(pipe)[j - 1]
      {
        RunRegOps(i - 1);
        pipe := pipe[i := pipe[i - 1]];
        i := i - 1;
      }
    }

    /** Who has a parsed packet and, of those, whose input buffer is fullest; the recirculation port goes first. */
    method Choose(ghost s: State) returns (idx: nat, found: bool)
      requires Sized() && |s.ipb| == N_PORT_GROUPS && |s.parser| == N_PORT_GROUPS
      requires forall g :: 0 <= g < N_PORT_GROUPS ==> |s.ipb[g]| == |ipb[g]| && (s.parser[g].Some? <==> parser[g].Some?)
      ensures parser[RECIRC_PORT].Some? ==> found && idx == RECIRC_PORT
      ensures parser[RECIRC_PORT].None? ==> (if found then Some(idx) else None) == Fullest(s, N_PORT_GROUPS)
    {
      idx := 0;
      var size := -1;
      if parser[RECIRC_PORT].Some? {
        idx, size := RECIRC_PORT, 0;
      } else {
        for i := 0 to N_PORT_GROUPS
          invariant size >= -1
          invariant (if size >= 0 then Some(idx) else None) == Fullest(s, i)
          invariant size >= 0 ==> size == |s.ipb[idx]|
        {
          if parser[i].Some? && |ipb[i]| > size {
            idx, size := i, |ipb[i]|;
          }
        }
      }
      found := size >= 0;
    }

    method IpbToParser(i: nat)
      requires i < |ipb| && i < |parser|
      modifies this`ipb, this`parser
      ensures ipb == if old(ipb)[i] == [] then old(ipb) else old(ipb)[i := old(ipb)[i][1..]]
      ensures parser == if old(ipb)[i] == [] then old(parser) else old(parser)[i := Some(old(ipb)[i][0])]
    {
      if ipb[i] != [] {
        parser := parser[i := Some(ipb[i][0])];
        ipb := ipb[i := ipb[i][1..]];
      }
    }

    /** Fills the unfilled parsers, including that of the recirculation port. */
    method FillParsers()
      requires |ipb| == |parser| == N_PORT_GROUPS + 1
      modifies this`ipb, this`parser
      ensures |ipb| == |parser| == N_PORT_GROUPS + 1
      ensures forall g :: 0 <= g <= N_PORT_GROUPS ==>
        if old(parser)[g].None? && old(ipb)[g] != []
        then parser[g] == Some(old(ipb)[g][0]) && ipb[g] == old(ipb)[g][1..]
        else parser[g] == old(parser)[g] && ipb[g] == old(ipb)[g]
    {
      for i := 0 to N_PORT_GROUPS + 1
        invariant |ipb| == |parser| == N_PORT_GROUPS + 1
        invariant forall g :: i <= g <= N_PORT_GROUPS ==> parser[g] == old(parser)[g] && ipb[g] == old(ipb)[g]
        invariant forall g :: 0 <= g < i ==>
          if old(parser)[g].None? && old(ipb)[g] != []
          then parser[g] == Some(old(ipb)[g][0]) && ipb[g] == old(ipb)[g][1..]
          else parser[g] == old(parser)[g] && ipb[g] == old(ipb)[g]
      {
        if parser[i].None? {
          IpbToParser(i);
        }
      }
    }

    /** The lock manager decides about a parsed packet, which then enters stage 0 in any case. */
    method Admit(idx: nat)
      requires Sized() && idx <= RECIRC_PORT && parser[idx].Some? && parser[idx].value < POOL_SIZE
      modifies this`pool, this`lock, this`pipe, this`parser, this`ipb, this`entered
      ensures Sized()
      ensures pool == AfterAdmission(old(pool), old(lock), old(parser)[idx])
      ensures lock == ManageLocks(old(lock), At(old(pool), old(parser)[idx].value)).lock
      ensures pipe == old(pipe)[0 := old(parser)[idx]]
      ensures ipb == if old(ipb)[idx] == [] then old(ipb) else old(ipb)[idx := old(ipb)[idx][1..]]
      ensures parser == old(parser)[idx := if old(ipb)[idx] == [] then None else Some(old(ipb)[idx][0])]
      ensures var t := ManageLocks(old(lock), At(old(pool), old(parser)[idx].value)).txn;
        entered == if t.valid then old(entered) + [EntryOf(t)] else old(entered)
    {
      var x := parser[idx].value;
      var r := ManageLocks(lock, pool[x]);
      pool := pool[x := r.txn];
      lock := r.lock;
      pipe := pipe[0 := parser[idx]];
      parser := parser[idx := None];
      IpbToParser(idx);
      if r.txn.valid {
        entered := entered + [EntryOf(r.txn)];
      }
    }

    /** The pipe moves one stage and the next packet, if there is one, enters. */
    method MoveSlots(ghost s: State, ghost c: SwitchSlots.Slots) returns (ghost chosen: Option<nat>)
      requires Sized() && SlotShape(c) && c.ipb == ipb[..RECIRC_PORT] && c.parser == parser[..RECIRC_PORT]
      requires c.recirc == parser[RECIRC_PORT]
      requires (forall g :: 0 <= g <= RECIRC_PORT && parser[g].Some? ==> parser[g].value < POOL_SIZE)
      requires |s.ipb| == N_PORT_GROUPS && |s.parser| == N_PORT_GROUPS
      requires forall g :: 0 <= g < N_PORT_GROUPS ==> |s.ipb[g]| == |ipb[g]| && (s.parser[g].Some? <==> parser[g].Some?)
      requires |ipb[RECIRC_PORT]| <= 1
      modifies this`pool, this`lock, this`pipe, this`parser, this`ipb, this`entered
      ensures Sized() && ipb[RECIRC_PORT] == []
      ensures chosen == if c.recirc.Some? then None else Fullest(s, N_PORT_GROUPS)
      ensures var x := EnteringSlot(c, chosen);
        && pool == AfterAdmission(old(pool), old(lock), x)
        && lock == (if x.Some? then ManageLocks(old(lock), At(old(pool), x.value)).lock else old(lock))
        && pipe == old(pipe)[0 := x]
        && (forall g :: 0 <= g < N_PORT_GROUPS ==>
           ipb[g] == RefilledIpb(c, chosen, g) && parser[g] == RefilledParser(c, chosen, g))
        && parser[RECIRC_PORT] == (if old(ipb)[RECIRC_PORT] == [] then None else Some(old(ipb)[RECIRC_PORT][0]))
        && entered == if x.Some? && ManageLocks(old(lock), At(old(pool), x.value)).txn.valid
                      then old(entered) + [EntryOf(ManageLocks(old(lock), At(old(pool), x.value)).txn)]
                        else old(entered)
    {
      var idx, found := Choose(s);
      chosen := if parser[RECIRC_PORT].Some? || !found then None else Some(idx);
      if found {
        Admit(idx);
      } else {
        pipe := pipe[0 := None];
      }
      FillParsers();
    }

    /** All stages perform their operations, the last one hands its packet over and the others shift. */
    method Advance()
      requires Valid()
      modifies this`pool, this`egress, this`ipb, this`regs, this`pipe
      ensures var out := old(pipe)[N_STAGES - 1]; var exit := ExitFrom(old(pool), out);
        && Sized() && regs == RegOps(old(regs), old(Abs()).pipe, 0)
        && pool == AfterExit(old(pool), out)
        && (exit.Exits? ==> exit.port < N_PORTS) && egress == EgressSlots(old(egress), out, exit)
        && ipb[..RECIRC_PORT] == old(ipb)[..RECIRC_PORT]
        && ipb[RECIRC_PORT] == (if out.Some? && exit.Recirculates? then [out.value] else [])
        && pipe == [old(pipe)[0]] + old(pipe)[..N_STAGES - 1]
    {
      ghost var s := Abs();
      ReadyForCycle();
      assert s.pipe[N_STAGES - 1] == Deref(pool, pipe[N_STAGES - 1]);
      RunRegOps(N_STAGES - 1);
      ExitLast();
      ShiftPipe(s.pipe, old(regs));
    }

    /** The rest of the cycle, from the state `c`, `s`, `pool0` in which it began. */
    method FinishCycle(ghost pool0: seq<Txn>, ghost c: SwitchSlots.Slots, ghost s: State)
      requires Sized() && Coherent(pool0, c, s) && lock == s.lock && nextId == s.nextId && entered == s.entered
      requires c.free == free && c.ipb == ipb[..RECIRC_PORT] && c.parser == parser[..RECIRC_PORT]
      requires c.recirc == parser[RECIRC_PORT]
      requires pool == AfterExit(pool0, c.pipe[N_STAGES - 1]) && regs == RegOps(Regs(s.last, s.deps), s.pipe, 0)
      requires var out := c.pipe[N_STAGES - 1]; var exit := ExitFrom(pool0, out);
        && (exit.Exits? ==> exit.port < N_PORTS) && egress == EgressSlots(c.egress, out, exit)
        && ipb[RECIRC_PORT] == (if out.Some? && exit.Recirculates? then [out.value] else [])
        && pipe == [c.pipe[0]] + c.pipe[..N_STAGES - 1]
      modifies this`pool, this`lock, this`pipe, this`parser, this`ipb, this`entered
      ensures Sized() && ipb[RECIRC_PORT] == [] && Coherent(pool, Slots(), Abs())
      ensures Abs() == Cycle(s)
    {
      ParsersInRange(pool0, c, s);
      assert forall g :: 0 <= g < N_PORT_GROUPS ==> ipb[g] == c.ipb[g] && parser[g] == c.parser[g];
      ghost var chosen := MoveSlots(s, c);
      CycleEnds(pool0, c, s, chosen, ipb, parser);
    }

    method RunCycle()
      requires Valid()
      modifies this
      ensures Valid()
      ensures Abs() == Cycle(old(Abs()))
    {
      ghost var c, s := Slots(), Abs();
      Advance();
      FinishCycle(old(pool), c, s);
    }

    /** What the steps of a cycle rely on. */
    lemma ReadyForCycle()
      requires Valid()
      ensures var s, out := Abs(), pipe[N_STAGES - 1];
        && (forall i :: 0 <= i < N_STAGES && s.pipe[i].Some? && s.pipe[i].value.valid ==> Live(s.pipe[i]))
        && (forall i :: 0 <= i < N_STAGES - 1 ==> Deref(AfterExit(pool, out), pipe[i]) == s.pipe[i])
        && (forall g :: 0 <= g <= RECIRC_PORT && parser[g].Some? ==> parser[g].value < POOL_SIZE)
        && (out.Some? ==> out.value < POOL_SIZE && At(pool, out.value).port < N_PORTS)
    {
      var c, s := Slots(), Abs();
      assert forall i :: 0 <= i < N_STAGES ==>
        SlotAt(c, Stage(i)) == pipe[i] && SwitchPlaces.Get(s, SwitchPlaces.Stage(i)) == s.pipe[i];
      assert forall g :: 0 <= g < N_PORT_GROUPS ==> SlotAt(c, Parsed(g)) == parser[g];
      assert SlotAt(c, Recirc) == parser[RECIRC_PORT];
    }
  }
}
