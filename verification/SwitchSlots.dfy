/**
  The packet pool of the simulator: where each pool slot is. Every slot is always in exactly one
  place - the free list, an input buffer, a parser, a pipe stage or egress - and a cycle only moves
  slots from one place to another.
 */
module SwitchSlots {
  import opened SwitchModel

  const POOL_SIZE: nat := 4096

  type Slot = nat

  datatype Out = Out(ok: bool, slot: Slot)

  /**
    The slots in every container. `recirc` is the parser of the recirculation port, whose buffer is
    empty between cycles.
   */
  datatype Slots = Slots(free: seq<Slot>, ipb: seq<seq<Slot>>, parser: seq<Option<Slot>>, recirc: Option<Slot>,
                         pipe: seq<Option<Slot>>, egress: seq<seq<Out>>)

  datatype Spot =
    | FreeAt(k: nat)
    | Queued(g: nat, k: nat)
    | Parsed(g: nat)
    | Recirc
    | Stage(i: nat)
    | Left(port: nat, k: nat)

  predicate SlotShape(c: Slots) {
    && |c.ipb| == N_PORT_GROUPS && |c.parser| == N_PORT_GROUPS
    && |c.pipe| == N_STAGES && |c.egress| == N_PORTS
  }

  function SlotAt(c: Slots, p: Spot): Option<Slot> {
    match p
    case FreeAt(k) => if k < |c.free| then Some(c.free[k]) else None
    case Queued(g, k) => if g < |c.ipb| && k < |c.ipb[g]| then Some(c.ipb[g][k]) else None
    case Parsed(g) => if g < |c.parser| then c.parser[g] else None
    case Recirc => c.recirc
    case Stage(i) => if i < |c.pipe| then c.pipe[i] else None
    case Left(port, k) => if port < |c.egress| && k < |c.egress[port]| then Some(c.egress[port][k].slot) else None
  }

  ghost predicate Placed(c: Slots, x: Slot) {
    exists p :: SlotAt(c, p) == Some(x)
  }

  ghost predicate InOnePlace(c: Slots) {
    && (forall p, q :: SlotAt(c, p).Some? && SlotAt(c, p) == SlotAt(c, q) ==> p == q)
    && (forall p :: SlotAt(c, p).Some? ==> SlotAt(c, p).value < POOL_SIZE)
    && (forall x: Slot :: x < POOL_SIZE ==> Placed(c, x))
  }

  // ---------------------------------------------------------------- counting

  function One(o: Option<Slot>): nat {
    if o.Some? then 1 else 0
  }

  function InGroups(c: Slots, n: nat): nat
    requires n <= |c.ipb| && n <= |c.parser|
  {
    if n == 0 then 0 else InGroups(c, n - 1) + |c.ipb[n - 1]| + One(c.parser[n - 1])
  }

  function InPipe(pipe: seq<Option<Slot>>, n: nat): nat
    requires n <= |pipe|
  {
    if n == 0 then 0 else InPipe(pipe, n - 1) + One(pipe[n - 1])
  }

  function InEgress(egress: seq<seq<Out>>, n: nat): nat
    requires n <= |egress|
  {
    if n == 0 then 0 else InEgress(egress, n - 1) + |egress[n - 1]|
  }

  /** The number of slots in all containers together. */
  function Total(c: Slots): nat
    requires SlotShape(c)
  {
    |c.free| + InGroups(c, |c.ipb|) + One(c.recirc) + InPipe(c.pipe, |c.pipe|) + InEgress(c.egress, |c.egress|)
  }

  ghost predicate SlotInv(c: Slots) {
    SlotShape(c) && InOnePlace(c) && Total(c) == POOL_SIZE
      && forall g :: 0 <= g < N_PORT_GROUPS ==> |c.ipb[g]| <= IPB_SIZE
  }

  lemma {:induction false} GroupsBound(c: Slots, n: nat)
    requires n <= |c.ipb| && n <= |c.parser| && forall g :: 0 <= g < |c.ipb| ==> |c.ipb[g]| <= IPB_SIZE
    ensures InGroups(c, n) <= n * (IPB_SIZE + 1)
  {
    if n != 0 {
      GroupsBound(c, n - 1);
    }
  }

  /** One slot less when one input buffer has room. */
  lemma {:induction false} GroupsRoom(c: Slots, n: nat, g: nat)
    requires g < n && n <= |c.ipb| && n <= |c.parser| && |c.ipb[g]| < IPB_SIZE
    requires forall g :: 0 <= g < |c.ipb| ==> |c.ipb[g]| <= IPB_SIZE
    ensures InGroups(c, n) < n * (IPB_SIZE + 1)
  {
    if g < n - 1 {
      GroupsRoom(c, n - 1, g);
    } else {
      GroupsBound(c, n - 1);
    }
  }

  lemma {:induction false} PipeBound(pipe: seq<Option<Slot>>, n: nat)
    requires n <= |pipe|
    ensures InPipe(pipe, n) <= n
  {
    if n != 0 {
      PipeBound(pipe, n - 1);
    }
  }

  /**
    At most N_STAGES + 1 packets are in the stages and the recirculation parser together, so while
    at most 69 finished transactions wait in egress a `send` that finds room in its input buffer
    also finds a free slot.
   */
  lemma SendFindsASlot(c: Slots, g: nat)
    requires SlotInv(c) && g < N_PORT_GROUPS && |c.ipb[g]| < IPB_SIZE
    ensures InPipe(c.pipe, N_STAGES) + One(c.recirc) <= N_STAGES + 1
    ensures InEgress(c.egress, |c.egress|) <= 69 ==> c.free != []
  {
    GroupsRoom(c, |c.ipb|, g);
    PipeBound(c.pipe, |c.pipe|);
  }

  function FreshSlots(): Slots {
    Slots(seq(POOL_SIZE, i => i), seq(N_PORT_GROUPS, i => []), seq(N_PORT_GROUPS, i => None), None,
          seq(N_STAGES, i => None), seq(N_PORTS, i => []))
  }

  lemma {:induction false} NothingInUse(c: Slots, n: nat)
    requires forall g :: 0 <= g < |c.ipb| ==> c.ipb[g] == []
    requires forall g :: 0 <= g < |c.parser| ==> c.parser[g].None?
    requires forall i :: 0 <= i < |c.pipe| ==> c.pipe[i].None?
    requires forall q :: 0 <= q < |c.egress| ==> c.egress[q] == []
    ensures n <= |c.ipb| && n <= |c.parser| ==> InGroups(c, n) == 0
    ensures n <= |c.pipe| ==> InPipe(c.pipe, n) == 0
    ensures n <= |c.egress| ==> InEgress(c.egress, n) == 0
  {
    if n != 0 {
      NothingInUse(c, n - 1);
    }
  }

  lemma FreshSlotsInv()
    ensures SlotInv(FreshSlots())
  {
    var c := FreshSlots();
    NothingInUse(c, |c.ipb|);
    NothingInUse(c, |c.pipe|);
    NothingInUse(c, |c.egress|);
    forall x: Slot | x < POOL_SIZE
      ensures Placed(c, x)
    {
      assert SlotAt(c, FreeAt(x)) == Some(x);
    }
  }

  /** Slots that only move, each from one place to another, stay in one place each. */
  lemma MovesKeepPlaces(c: Slots, c': Slots, origin: Spot -> Spot, image: Spot -> Spot)
    requires InOnePlace(c)
    requires forall p :: SlotAt(c', p).Some? ==> SlotAt(c', p) == SlotAt(c, origin(p)) && image(origin(p)) == p
    requires forall p :: SlotAt(c, p).Some? ==> SlotAt(c', image(p)) == SlotAt(c, p)
    ensures InOnePlace(c')
  {
    forall x: Slot | x < POOL_SIZE
      ensures Placed(c', x)
    {
      assert Placed(c, x);
      var p :| SlotAt(c, p) == Some(x);
      assert SlotAt(c', image(p)) == Some(x);
    }
  }

  // ---------------------------------------------------------------- send and recv

  function SendSlots(c: Slots, g: nat): Slots
    requires SlotShape(c) && g < N_PORT_GROUPS && c.free != []
  {
    c.(free := c.free[1..], ipb := c.ipb[g := c.ipb[g] + [c.free[0]]])
  }

  function RecvSlots(c: Slots, port: nat): Slots
    requires SlotShape(c) && port < N_PORTS && c.egress[port] != []
  {
    c.(free := [c.egress[port][0].slot] + c.free, egress := c.egress[port := c.egress[port][1..]])
  }

  function SendOrigin(c: Slots, g: nat, p: Spot): Spot
    requires SlotShape(c) && g < N_PORT_GROUPS
  {
    match p
    case FreeAt(k) => FreeAt(k + 1)
    case Queued(h, k) => if h == g && k == |c.ipb[g]| then FreeAt(0) else p
    case _ => p
  }

  function SendImage(c: Slots, g: nat, p: Spot): Spot
    requires SlotShape(c) && g < N_PORT_GROUPS
  {
    match p
    case FreeAt(k) => if k == 0 then Queued(g, |c.ipb[g]|) else FreeAt(k - 1)
    case _ => p
  }

  lemma SendMoves(c: Slots, g: nat, p: Spot)
    requires SlotShape(c) && g < N_PORT_GROUPS && c.free != []
    ensures var c', o := SendSlots(c, g), SendOrigin(c, g, p);
      SlotAt(c', p).Some? ==> SlotAt(c', p) == SlotAt(c, o) && SendImage(c, g, o) == p
    ensures SlotAt(c, p).Some? ==> SlotAt(SendSlots(c, g), SendImage(c, g, p)) == SlotAt(c, p)
  {
  }

  lemma SendKeepsPlaces(c: Slots, g: nat)
    requires SlotShape(c) && g < N_PORT_GROUPS && c.free != [] && InOnePlace(c)
    ensures InOnePlace(SendSlots(c, g))
  {
    forall p {
      SendMoves(c, g, p);
    }
    MovesKeepPlaces(c, SendSlots(c, g), p => SendOrigin(c, g, p), p => SendImage(c, g, p));
  }

  function RecvOrigin(port: nat, p: Spot): Spot {
    match p
    case FreeAt(k) => if k == 0 then Left(port, 0) else FreeAt(k - 1)
    case Left(q, k) => if q == port then Left(q, k + 1) else p
    case _ => p
  }

  function RecvImage(port: nat, p: Spot): Spot {
    match p
    case FreeAt(k) => FreeAt(k + 1)
    case Left(q, k) => if q == port then (if k == 0 then FreeAt(0) else Left(q, k - 1)) else p
    case _ => p
  }

  lemma RecvMoves(c: Slots, port: nat, p: Spot)
    requires SlotShape(c) && port < N_PORTS && c.egress[port] != []
    ensures var c', o := RecvSlots(c, port), RecvOrigin(port, p);
      SlotAt(c', p).Some? ==> SlotAt(c', p) == SlotAt(c, o) && RecvImage(port, o) == p
    ensures SlotAt(c, p).Some? ==> SlotAt(RecvSlots(c, port), RecvImage(port, p)) == SlotAt(c, p)
  {
  }

  lemma RecvKeepsPlaces(c: Slots, port: nat)
    requires SlotShape(c) && port < N_PORTS && c.egress[port] != [] && InOnePlace(c)
    ensures InOnePlace(RecvSlots(c, port))
  {
    forall p {
      RecvMoves(c, port, p);
    }
    MovesKeepPlaces(c, RecvSlots(c, port), p => RecvOrigin(port, p), p => RecvImage(port, p));
  }

  lemma {:induction false} GroupsAfterPush(c: Slots, c': Slots, g: nat, n: nat)
    requires |c.ipb| == |c'.ipb| && c.parser == c'.parser && n <= |c.ipb| && n <= |c.parser|
    requires forall h :: 0 <= h < |c.ipb| ==> |c'.ipb[h]| == |c.ipb[h]| + if h == g then 1 else 0
    ensures InGroups(c', n) == InGroups(c, n) + if g < n then 1 else 0
  {
    if n != 0 {
      GroupsAfterPush(c, c', g, n - 1);
    }
  }

  lemma {:induction false} EgressAfterPop(egress: seq<seq<Out>>, egress': seq<seq<Out>>, port: nat, n: nat)
    requires |egress| == |egress'| && n <= |egress|
    requires forall q :: 0 <= q < |egress| ==> |egress[q]| == |egress'[q]| + if q == port then 1 else 0
    ensures InEgress(egress, n) == InEgress(egress', n) + if port < n then 1 else 0
  {
    if n != 0 {
      EgressAfterPop(egress, egress', port, n - 1);
    }
  }

  lemma SendKeepsSlotInv(c: Slots, g: nat)
    requires SlotInv(c) && g < N_PORT_GROUPS && c.free != [] && |c.ipb[g]| < IPB_SIZE
    ensures SlotInv(SendSlots(c, g))
  {
    SendKeepsPlaces(c, g);
    GroupsAfterPush(c, SendSlots(c, g), g, |c.ipb|);
  }

  lemma {:induction false} SameGroups(c: Slots, c': Slots, n: nat)
    requires c.ipb == c'.ipb && c.parser == c'.parser && n <= |c.ipb| && n <= |c.parser|
    ensures InGroups(c, n) == InGroups(c', n)
  {
    if n != 0 {
      SameGroups(c, c', n - 1);
    }
  }

  lemma RecvKeepsSlotInv(c: Slots, port: nat)
    requires SlotInv(c) && port < N_PORTS && c.egress[port] != []
    ensures SlotInv(RecvSlots(c, port))
  {
    RecvKeepsPlaces(c, port);
    EgressAfterPop(c.egress, RecvSlots(c, port).egress, port, |c.egress|);
    SameGroups(c, RecvSlots(c, port), |c.ipb|);
  }

  // ---------------------------------------------------------------- one cycle

  /** What becomes of the packet at the end of the pipe: back to the recirculation port, or out. */
  datatype Exit = Recirculates | Exits(port: nat, ok: bool)

  predicate Cyclable(c: Slots, chosen: Option<nat>, exit: Exit) {
    && SlotShape(c)
    && (chosen.Some? ==> chosen.value < N_PORT_GROUPS && c.recirc.None?)
    && (exit.Exits? ==> exit.port < N_PORTS)
  }

  predicate RefillsSlot(c: Slots, chosen: Option<nat>, g: nat)
    requires g < |c.parser|
  {
    c.parser[g].None? || chosen == Some(g)
  }

  function EnteringSlot(c: Slots, chosen: Option<nat>): Option<Slot>
    requires chosen.Some? ==> chosen.value < |c.parser|
  {
    if c.recirc.Some? then c.recirc else if chosen.Some? then c.parser[chosen.value] else None
  }

  function RefilledParser(c: Slots, chosen: Option<nat>, g: nat): Option<Slot>
    requires g < |c.parser| && g < |c.ipb|
  {
    if RefillsSlot(c, chosen, g) then (if c.ipb[g] == [] then None else Some(c.ipb[g][0])) else c.parser[g]
  }

  function RefilledIpb(c: Slots, chosen: Option<nat>, g: nat): seq<Slot>
    requires g < |c.parser| && g < |c.ipb|
  {
    if RefillsSlot(c, chosen, g) && c.ipb[g] != [] then c.ipb[g][1..] else c.ipb[g]
  }

  function EgressSlots(egress: seq<seq<Out>>, out: Option<Slot>, exit: Exit): seq<seq<Out>>
    requires exit.Exits? ==> exit.port < |egress|
  {
    if exit.Exits? && out.Some?
    then egress[exit.port := egress[exit.port] + [Out(exit.ok, out.value)]]
    else egress
  }

  function CycleSlots(c: Slots, chosen: Option<nat>, exit: Exit): Slots
    requires Cyclable(c, chosen, exit)
  {
    var out := c.pipe[N_STAGES - 1];
    Slots(
      c.free,
      seq(N_PORT_GROUPS, g requires 0 <= g < N_PORT_GROUPS => RefilledIpb(c, chosen, g)),
      seq(N_PORT_GROUPS, g requires 0 <= g < N_PORT_GROUPS => RefilledParser(c, chosen, g)),
      if exit.Exits? then None else out,
      [EnteringSlot(c, chosen)] + c.pipe[..N_STAGES - 1],
      EgressSlots(c.egress, out, exit))
  }

  function CycleOrigin(c: Slots, chosen: Option<nat>, exit: Exit, p: Spot): Spot
    requires SlotShape(c)
  {
    match p
    case FreeAt(_) => p
    case Queued(g, k) => if g < N_PORT_GROUPS && RefillsSlot(c, chosen, g) then Queued(g, k + 1) else p
    case Parsed(g) => if g < N_PORT_GROUPS && RefillsSlot(c, chosen, g) then Queued(g, 0) else p
    case Recirc => Stage(N_STAGES - 1)
    case Stage(i) =>
      if i > 0 then Stage(i - 1)
        else if c.recirc.Some? then Recirc else if chosen.Some? then Parsed(chosen.value) else p
    case Left(port, k) =>
      if exit.Exits? && port == exit.port && port < N_PORTS && k == |c.egress[port]| then Stage(N_STAGES - 1) else p
  }

  function CycleImage(c: Slots, chosen: Option<nat>, exit: Exit, p: Spot): Spot
    requires SlotShape(c)
  {
    match p
    case FreeAt(_) => p
    case Queued(g, k) =>
      if g < N_PORT_GROUPS && RefillsSlot(c, chosen, g) then (if k == 0 then Parsed(g) else Queued(g, k - 1)) else p
    case Parsed(g) => if chosen == Some(g) then Stage(0) else p
    case Recirc => Stage(0)
    case Stage(i) =>
      if i < N_STAGES - 1 then Stage(i + 1)
      else if exit.Exits? && exit.port < N_PORTS then Left(exit.port, |c.egress[exit.port]|)
      else Recirc
    case Left(_, _) => p
  }

  lemma CycleMovesSlot(c: Slots, chosen: Option<nat>, exit: Exit, p: Spot)
    requires Cyclable(c, chosen, exit)
    ensures var c', o := CycleSlots(c, chosen, exit), CycleOrigin(c, chosen, exit, p);
      SlotAt(c', p).Some? ==> SlotAt(c', p) == SlotAt(c, o)
  {
    match p
    case FreeAt(_) =>
    case Queued(g, k) =>
    case Parsed(g) =>
    case Recirc =>
    case Stage(i) =>
    case Left(port, k) =>
  }

  lemma CycleOriginInverse(c: Slots, chosen: Option<nat>, exit: Exit, p: Spot)
    requires Cyclable(c, chosen, exit)
    ensures SlotAt(CycleSlots(c, chosen, exit), p).Some? ==>
      CycleImage(c, chosen, exit, CycleOrigin(c, chosen, exit, p)) == p
  {
    match p
    case FreeAt(_) =>
    case Queued(g, k) =>
    case Parsed(g) =>
    case Recirc =>
    case Stage(i) =>
    case Left(port, k) =>
  }

  lemma CycleMovesFrom(c: Slots, chosen: Option<nat>, exit: Exit, p: Spot)
    requires Cyclable(c, chosen, exit)
    ensures var c', o := CycleSlots(c, chosen, exit), CycleOrigin(c, chosen, exit, p);
      SlotAt(c', p).Some? ==> SlotAt(c', p) == SlotAt(c, o) && CycleImage(c, chosen, exit, o) == p
  {
    CycleMovesSlot(c, chosen, exit, p);
    CycleOriginInverse(c, chosen, exit, p);
  }

  lemma CycleMovesTo(c: Slots, chosen: Option<nat>, exit: Exit, p: Spot)
    requires Cyclable(c, chosen, exit)
    ensures SlotAt(c, p).Some? ==>
      SlotAt(CycleSlots(c, chosen, exit), CycleImage(c, chosen, exit, p)) == SlotAt(c, p)
  {
    match p
    case FreeAt(_) =>
    case Queued(g, k) =>
    case Parsed(g) =>
    case Recirc =>
    case Stage(i) =>
    case Left(port, k) =>
  }

  lemma CycleKeepsPlaces(c: Slots, chosen: Option<nat>, exit: Exit)
    requires Cyclable(c, chosen, exit) && InOnePlace(c)
    ensures InOnePlace(CycleSlots(c, chosen, exit))
  {
    forall p {
      CycleMovesFrom(c, chosen, exit, p);
    }
    forall p {
      CycleMovesTo(c, chosen, exit, p);
    }
    MovesKeepPlaces(c, CycleSlots(c, chosen, exit),
                    p => CycleOrigin(c, chosen, exit, p), p => CycleImage(c, chosen, exit, p));
  }

  lemma {:induction false} GroupsAfterCycle(c: Slots, chosen: Option<nat>, exit: Exit, n: nat)
    requires Cyclable(c, chosen, exit) && n <= N_PORT_GROUPS
    ensures InGroups(CycleSlots(c, chosen, exit), n) +
      (if chosen.Some? && chosen.value < n then One(EnteringSlot(c, chosen)) else 0) == InGroups(c, n)
  {
    if n != 0 {
      GroupsAfterCycle(c, chosen, exit, n - 1);
    }
  }

  lemma {:induction false} PipeAfterCycle(x: Option<Slot>, pipe: seq<Option<Slot>>, n: nat)
    requires n < |pipe|
    ensures InPipe([x] + pipe[..|pipe| - 1], n + 1) == One(x) + InPipe(pipe, n)
  {
    var pipe' := [x] + pipe[..|pipe| - 1];
    if n == 0 {
      assert InPipe(pipe', 0) == 0;
    } else {
      PipeAfterCycle(x, pipe, n - 1);
      assert pipe'[n] == pipe[n - 1];
    }
  }

  lemma CycleKeepsSlotInv(c: Slots, chosen: Option<nat>, exit: Exit)
    requires SlotInv(c) && Cyclable(c, chosen, exit)
    ensures SlotInv(CycleSlots(c, chosen, exit))
  {
    var c', out := CycleSlots(c, chosen, exit), c.pipe[N_STAGES - 1];
    CycleKeepsPlaces(c, chosen, exit);
    GroupsAfterCycle(c, chosen, exit, |c.ipb|);
    PipeAfterCycle(EnteringSlot(c, chosen), c.pipe, |c.pipe| - 1);
    if exit.Exits? && out.Some? {
      EgressAfterPop(c'.egress, c.egress, exit.port, |c.egress|);
    }
  }
}
