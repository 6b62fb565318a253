/**
  Why a node has to wait for its packets before it gives its block back. If it does not, the next
  tenant can be told to go while a packet of the one before is under way, and that packet then writes
  the keys of the next tenant and spoils its replies. Tenants are isolated from one another exactly if
  nodes wait or no two tenants have hot keys at the same place of a block. What a late packet does to a
  later batch of its own tenant is the subject of `LateBatches`.
 */
module LatePackets {
  import BA = BlockAllocator
  import opened ControlPlane
  import opened Tenancy
  import HS = HotStore
  import Packet
  import HotCold

  // ---------------------------------------------------------------- the block changes hands

  /** The node is its tenant's only one. */
  predicate OnlyNode(s: State, fd: Fd) {
    fd < |s.nodes| && forall fd' :: 0 <= fd' < |s.nodes| && s.nodes[fd'].tenant == s.nodes[fd].tenant ==> fd' == fd
  }

  /** Tenant `b` comes next on the block that node `fd` uses, and all its nodes have their answer. */
  predicate IsNext(s: State, fd: Fd, b: Tenant) {
    && fd < |s.nodes| && s.nodes[fd].tenant != b && InfoOf(s, b).batch > 0 && InfoOf(s, b).blk == s.nodes[fd].block
    && BA.At(s.alloc, s.nodes[fd].block, 1, b) && InfoOf(s, b).uses == |Members(s, b)|
  }

  /** Serving a node of one tenant leaves what is cached for the others. */
  lemma OthersKeepInfo(s: State, fd: Fd, start: Time, duration: Time, b: Tenant)
    requires fd < |s.nodes| && AssertionsHold(s, fd, start) && b != s.nodes[fd].tenant
    ensures InfoOf(Served(s, fd, start, duration), b) == InfoOf(s, b)
  {
  }

  lemma ServedQueues(s: State, fd: Fd, start: Time, duration: Time)
    requires fd < |s.nodes| && AssertionsHold(s, fd, start)
    ensures Served(s, fd, start, duration).alloc.queue == Renewed(s, fd, start, duration).alloc.queue
    ensures Served(s, fd, start, duration).alloc.sorted == Renewed(s, fd, start, duration).alloc.sorted
  {
  }

  lemma SameMembers(s: State, s': State, t: Tenant)
    requires SameNodes(s, s')
    ensures Members(s', t) == Members(s, t)
  {
  }

  /** A fresh request of the tenant that heads a block hands the block to the next one. */
  lemma HandsOver(s: State, fd: Fd, start: Time, duration: Time, b: Tenant)
    requires Inv(s) && History(s) && fd < |s.nodes| && s.nodes[fd].phase == Requested && Fresh(s, fd)
    requires IsNext(s, fd, b)
    ensures AssertionsHold(s, fd, start)
    ensures var s' := Served(s, fd, start, duration); Going(s', b) && InfoOf(s', b) == InfoOf(s, b)
  {
    RequestsAreSafe(s, fd, start);
    var s' := Served(s, fd, start, duration);
    RenewedAlloc(s, fd, start, duration);
    OthersKeepInfo(s, fd, start, duration, b);
    ServedQueues(s, fd, start, duration);
    assert BA.At(Renewed(s, fd, start, duration).alloc, s.nodes[fd].block, 0, b);
    ServedSameNodes(s, fd, start, duration);
    SameMembers(s, s', b);
    ServeKeepsInv(s, fd, start, duration);
    ServeHistory(s, fd, start, duration);
    assert b !in s'.alloc.notify;
  }

  // ---------------------------------------------------------------- histories

  ghost predicate Reaches(plans: Plans, tenants: seq<Tenant>, acts: seq<Act>, worlds: seq<World>, w: World) {
    IsHistory(false, plans, tenants, acts, worlds) && worlds[|acts|] == w
  }

  /** One more act; the last ones before stay. */
  predicate Extends(acts: seq<Act>, worlds: seq<World>, act: Act, acts': seq<Act>, worlds': seq<World>, w': World) {
    && var n := |acts|;
       && |worlds| == n + 1 && |acts'| == n + 1 && |worlds'| == n + 2
       && acts'[n] == act && worlds'[n] == worlds[n] && worlds'[n + 1] == w'
       && (n > 0 ==> acts'[n - 1] == acts[n - 1] && worlds'[n - 1] == worlds[n - 1])
  }

  lemma Go(plans: Plans, tenants: seq<Tenant>, acts: seq<Act>, worlds: seq<World>, w: World, act: Act, w': World)
    returns (acts': seq<Act>, worlds': seq<World>)
    requires Reaches(plans, tenants, acts, worlds, w) && Moves(false, plans, w, act, w')
    ensures Reaches(plans, tenants, acts', worlds', w') && WorldInv(w')
    ensures Extends(acts, worlds, act, acts', worlds', w')
  {
    Extend(false, plans, tenants, acts, worlds, act, w');
    acts', worlds' := acts + [act], worlds + [w'];
    ReachableWorld(false, plans, tenants, acts', worlds', |acts'|);
  }

  /** One step of the control plane. */
  lemma GoControl(plans: Plans, tenants: seq<Tenant>, acts: seq<Act>, worlds: seq<World>, w: World, step: Step)
    returns (acts': seq<Act>, worlds': seq<World>, w': World)
    requires Reaches(plans, tenants, acts, worlds, w) && Tenancy.Shape(w) && Enabled(w.cp, step)
    requires step.Ask? ==> AllArrived(w, step.fd)
    ensures w' == w.(cp := Next(w.cp, step)) && WorldInv(w') && Reaches(plans, tenants, acts', worlds', w')
  {
    w' := w.(cp := Next(w.cp, step));
    acts', worlds' := Go(plans, tenants, acts, worlds, w, Control(step), w');
  }

  lemma GoSend(plans: Plans, tenants: seq<Tenant>, acts: seq<Act>, worlds: seq<World>, w: World, fd: Fd,
               ops: seq<HotCold.HotOp>)
    returns (acts': seq<Act>, worlds': seq<World>, w': World)
    requires Reaches(plans, tenants, acts, worlds, w) && InHotPeriod(w, fd) && HS.OpsOk(TenantOf(plans, w, fd), ops)
    ensures Reaches(plans, tenants, acts', worlds', w') && |acts'| == |acts| + 1
    ensures var x := w.cp.nodes[fd];
      w' == w.(under := w.under + [Flying(x.tenant, x.batch, TenantOf(plans, w, fd), ops)])
  {
    var x := w.cp.nodes[fd];
    w' := w.(under := w.under + [Flying(x.tenant, x.batch, TenantOf(plans, w, fd), ops)]);
    acts', worlds' := Go(plans, tenants, acts, worlds, w, Send(fd, ops), w');
  }

  /** One packet is executed. */
  lemma GoExecute(plans: Plans, tenants: seq<Tenant>, acts: seq<Act>, worlds: seq<World>, w: World, i: nat,
                  regs': Packet.Store, d: seq<nat>)
    returns (acts': seq<Act>, worlds': seq<World>, w': World)
    requires Reaches(plans, tenants, acts, worlds, w) && Tenancy.Shape(w) && i < |w.under|
    requires HS.Executed(w.under[i].t, w.under[i].ops, w.regs, regs', d)
    ensures w' == w.(under := Tenancy.Without(w.under, i), regs := regs') && Reaches(plans, tenants, acts', worlds', w')
    ensures Extends(acts, worlds, Execute(i, d), acts', worlds', w')
  {
    w' := w.(under := Tenancy.Without(w.under, i), regs := regs');
    acts', worlds' := Go(plans, tenants, acts, worlds, w, Execute(i, d), w');
  }

  /**
    From any state in which a node is in its hot period, alone for its tenant, and another tenant comes
    next on its block: the node can finish, ask and be served without anything being executed, and then
    the other tenant has been told to go on this very block.
   */
  lemma BlockChangesHands(plans: Plans, tenants: seq<Tenant>, acts: seq<Act>, worlds: seq<World>, w: World, fd: Fd,
                          b: Tenant, start: Time, duration: Time)
    returns (acts': seq<Act>, worlds': seq<World>, w': World)
    requires Reaches(plans, tenants, acts, worlds, w) && WorldInv(w) && InHotPeriod(w, fd) && OnlyNode(w.cp, fd)
    requires IsNext(w.cp, fd, b)
    ensures Reaches(plans, tenants, acts', worlds', w') && WorldInv(w')
    ensures Going(w'.cp, b) && InfoOf(w'.cp, b).blk == w.cp.nodes[fd].block && w'.under == w.under && w'.regs == w.regs
    ensures InfoOf(w'.cp, b) == InfoOf(w.cp, b)
    ensures forall fd': Fd :: fd' < |w.cp.nodes| && fd' != fd ==> StaysPut(w, w', fd')
  {
    var w1;
    acts', worlds', w1 := AsksAgain(plans, tenants, acts, worlds, w, fd);
    AskedStays(w, w1, fd, b);
    acts', worlds', w' := GoHandsOver(plans, tenants, acts', worlds', w1, fd, b, start, duration);
    forall fd': Fd | fd' < |w.cp.nodes| && fd' != fd
      ensures StaysPut(w, w', fd')
    {
      assert StaysPut(w, w1, fd') && StaysPut(w1, w', fd');
    }
  }

  /** The node has come to the barrier and asked for the next batch. */
  predicate HasAsked(w: World, w': World, fd: Fd) {
    && fd < |w.cp.nodes| && fd < |w.arrived|
    && var x := w.cp.nodes[fd];
       w' == w.(cp := w.cp.(nodes := w.cp.nodes[fd := Asked(x)]), arrived := w.arrived[fd := x.batch])
  }

  lemma AsksAgain(plans: Plans, tenants: seq<Tenant>, acts: seq<Act>, worlds: seq<World>, w: World, fd: Fd)
    returns (acts': seq<Act>, worlds': seq<World>, w': World)
    requires Reaches(plans, tenants, acts, worlds, w) && InHotPeriod(w, fd) && OnlyNode(w.cp, fd)
    ensures Reaches(plans, tenants, acts', worlds', w') && WorldInv(w') && HasAsked(w, w', fd)
  {
    var w1 := w.(arrived := w.arrived[fd := w.cp.nodes[fd].batch]);
    acts', worlds' := Go(plans, tenants, acts, worlds, w, Arrive(fd), w1);
    acts', worlds', w' := GoControl(plans, tenants, acts', worlds', w1, Ask(fd));
  }

  lemma AskedStays(w: World, w': World, fd: Fd, b: Tenant)
    requires WorldInv(w) && InHotPeriod(w, fd) && IsNext(w.cp, fd, b) && HasAsked(w, w', fd)
    ensures Fresh(w'.cp, fd) && IsNext(w'.cp, fd, b) && InfoOf(w'.cp, b) == InfoOf(w.cp, b)
    ensures forall fd': Fd :: fd' < |w.cp.nodes| && fd' != fd ==> StaysPut(w, w', fd')
  {
    HotIsCurrent(w, fd);
    SameTenantMembers(w.cp, w'.cp, b);
  }

  lemma GoHandsOver(plans: Plans, tenants: seq<Tenant>, acts: seq<Act>, worlds: seq<World>, w: World, fd: Fd,
                    b: Tenant, start: Time, duration: Time)
    returns (acts': seq<Act>, worlds': seq<World>, w': World)
    requires Reaches(plans, tenants, acts, worlds, w) && WorldInv(w)
    requires fd < |w.cp.nodes| && w.cp.nodes[fd].phase == Requested && Fresh(w.cp, fd) && IsNext(w.cp, fd, b)
    ensures Reaches(plans, tenants, acts', worlds', w') && WorldInv(w') && w'.under == w.under && w'.regs == w.regs
    ensures Going(w'.cp, b) && InfoOf(w'.cp, b) == InfoOf(w.cp, b)
    ensures forall fd': Fd :: fd' < |w.cp.nodes| && fd' != fd ==> StaysPut(w, w', fd')
  {
    HandsOver(w.cp, fd, start, duration, b);
    acts', worlds', w' := GoControl(plans, tenants, acts, worlds, w, Serve(fd, start, duration));
    OthersStayPut(w, w', fd, start, duration);
  }

  lemma OthersStayPut(w: World, w': World, fd: Fd, start: Time, duration: Time)
    requires Tenancy.Shape(w) && fd < |w.cp.nodes| && AssertionsHold(w.cp, fd, start)
    requires w' == w.(cp := Served(w.cp, fd, start, duration))
    ensures forall fd': Fd :: fd' < |w.cp.nodes| && fd' != fd ==> StaysPut(w, w', fd')
  {
    forall fd': Fd | fd' < |w.cp.nodes| && fd' != fd
      ensures StaysPut(w, w', fd')
    {
      ServedPhases(w.cp, fd, start, duration, fd');
    }
  }

  /** The node is where it was, but for what is in its inbox. */
  predicate StaysPut(w: World, w': World, fd: Fd) {
    && fd < |w.cp.nodes| && fd < |w.arrived| && fd < |w'.cp.nodes| && fd < |w'.arrived|
    && w'.arrived[fd] == w.arrived[fd]
    && var x, y := w.cp.nodes[fd], w'.cp.nodes[fd];
       y.tenant == x.tenant && y.phase == x.phase && y.batch == x.batch && y.block == x.block
  }

  lemma SameTenantMembers(s: State, s': State, t: Tenant)
    requires |s'.nodes| == |s.nodes| && forall fd :: 0 <= fd < |s.nodes| ==> s'.nodes[fd].tenant == s.nodes[fd].tenant
    ensures Members(s', t) == Members(s, t)
  {
  }

  // ---------------------------------------------------------------- the late packet

  /** Executed late, a packet of one tenant does its operations to the keys of a tenant with the same layout. */
  lemma LatePacketHits(p: Flying, plans: Plans, w: World, b: Tenant, regs': Packet.Store, d: seq<nat>)
    requires FlyingOk(plans, p) && plans(b) == plans(p.who) && p.t.block == InfoOf(w.cp, b).blk
    requires HS.Executed(p.t, p.ops, w.regs, regs', d)
    ensures var v := InBatch(plans, w, b); HS.Values(v, regs') == HS.Exec(HS.Values(v, w.regs), p.ops)
  {
    HS.PacketIsTxn(p.t, p.ops, w.regs, regs', d);
  }

  /** An operation that writes key `k`. */
  function WriteOp(t: HS.Tenant, k: HotCold.Key, value: nat): HotCold.HotOp {
    HotCold.HotOp(HotCold.Op(k, HotCold.WRITE, value), HS.At(t, k))
  }

  lemma WriteOpOk(t: HS.Tenant, k: HotCold.Key, value: nat)
    requires HS.TenantOk(t) && HS.HotSlot(t.plan, k) && value < Packet.WORD
    ensures HS.OpsOk(t, [WriteOp(t, k, value)])
  {
    HS.HotSlotIs(t, k);
  }

  /** A late write of a key at the same place of the block is a write of the other tenant's key. */
  lemma LateWriteHits(t: HS.Tenant, k: HotCold.Key, value: nat, v: HS.Tenant, k': HotCold.Key, regs: Packet.Store,
                      regs': Packet.Store, d: seq<nat>)
    requires HS.TenantOk(t) && HS.TenantOk(v) && t.block == v.block && HS.SameSlot(t.plan, k, v.plan, k')
    requires value < Packet.WORD
    requires HS.Executed(t, [WriteOp(t, k, value)], regs, regs', d)
    ensures k' in HS.Values(v, regs') && HS.Values(v, regs')[k'] == value
  {
    WriteOpOk(t, k, value);
    HS.HotSlotIs(t, k);
    HS.HotSlotIs(v, k');
    assert HS.KeyCell(t, k) == HS.KeyCell(v, k');
    HS.CellAfter(t, [WriteOp(t, k, value)], regs, regs', d, HS.KeyCell(v, k'));
    HS.OpForDistinct([WriteOp(t, k, value)], 0);
  }

  // ---------------------------------------------------------------- two tenants on one block

  /** Block `blk` is estimated to be free at `e` and all others at once. */
  ghost predicate OneUsed(ms: seq<BA.Meta>, blk: Block, e: Time) {
    BA.Meta(blk, e) in ms && forall m :: m in ms && m.blk != blk ==> m.est == 0
  }

  lemma FirstAlloc(t: Tenant)
    requires BA.IsTenant(t)
    ensures BA.Found(BA.Init(), 1).blk < BA.N_BLOCKS
    ensures OneUsed(BA.DoAlloc(BA.Init(), t, 1, 0).sorted, BA.Found(BA.Init(), 1).blk, 1)
  {
    BA.InitInv();
    var ms := BA.Init().sorted;
    var i := BA.Chosen(ms, 1);
    forall m
      ensures m in BA.DoAlloc(BA.Init(), t, 1, 0).sorted <==> (m in ms && m != ms[i]) || m == BA.Later(ms[i], 1, 0)
    {
      BA.InsertContents(BA.Without(ms, i), BA.Later(ms[i], 1, 0), m);
      BA.WithoutContents(ms, i, m);
    }
  }

  /** After `e` the block that is free last is chosen, which is the one in use. */
  lemma PicksUsed(a: BA.Alloc, blk: Block, e: Time, start: Time)
    requires BA.Inv(a) && OneUsed(a.sorted, blk, e) && 0 < e < start
    ensures BA.Found(a, start).blk == blk
  {
    var j :| 0 <= j < |a.sorted| && a.sorted[j] == BA.Meta(blk, e);
    BA.ChosenIsBestFit(a.sorted, start, j);
    assert BA.Found(a, start) in a.sorted;
  }

  /**
    What the first request for a batch leaves: the order of the blocks after an allocation, and the
    block found cached.
   */
  lemma FirstServed(s: State, fd: Fd, start: Time, duration: Time)
    requires fd < |s.nodes| && AssertionsHold(s, fd, start) && Fresh(s, fd)
    ensures var s', x, alloc := Served(s, fd, start, duration), s.nodes[fd], AfterFree(s, fd);
      && AllocOk(alloc, x.tenant, start) && s'.alloc.sorted == BA.DoAlloc(alloc, x.tenant, start, duration).sorted
      && InfoOf(s', x.tenant).blk == BA.Found(alloc, start).blk && InfoOf(s', x.tenant).batch == x.batch
  {
    ServedQueues(s, fd, start, duration);
    ServedBatch(s, fd, start, duration, s.nodes[fd].tenant);
    ServedBlock(s, fd, start, duration);
  }

  lemma ServedBlock(s: State, fd: Fd, start: Time, duration: Time)
    requires fd < |s.nodes| && AssertionsHold(s, fd, start)
    ensures InfoOf(Served(s, fd, start, duration), s.nodes[fd].tenant).blk ==
      InfoOf(Renewed(s, fd, start, duration), s.nodes[fd].tenant).blk
  {
  }

  /** Serving changes the phase of the node that is served, and of the others at most the inbox. */
  lemma ServedPhases(s: State, fd: Fd, start: Time, duration: Time, fd': Fd)
    requires fd < |s.nodes| && AssertionsHold(s, fd, start) && fd' < |s.nodes|
    ensures var s' := Served(s, fd, start, duration);
      && |s'.nodes| == |s.nodes| && s'.nodes[fd'].tenant == s.nodes[fd'].tenant
      && s'.nodes[fd'].block == s.nodes[fd'].block
      && s'.nodes[fd'].batch == s.nodes[fd'].batch
      && s'.nodes[fd'].phase == if fd' == fd then AwaitResp else s.nodes[fd'].phase
  {
    ServedSameNodes(s, fd, start, duration);
    var s2 := BeforeTelling(s, fd, start, duration);
    assert s2.nodes[fd'].block == s.nodes[fd'].block;
    TellingKeeps(s2, fd');
  }

  lemma TellingKeeps(s: State, fd: Fd)
    requires fd < |s.nodes|
    ensures Notified(s).nodes[fd].phase == s.nodes[fd].phase && Notified(s).nodes[fd].block == s.nodes[fd].block
  {
    assert Notified(s).nodes[fd] == Inform(s, GoesNow(s), fd);
  }

  /** The only tenant with a block heads its queue. */
  lemma HeadsAlone(s: State, t: Tenant)
    requires Inv(s) && InfoOf(s, t).batch > 0 && forall t': Tenant :: t' != t ==> InfoOf(s, t').batch == 0
    ensures BA.At(s.alloc, InfoOf(s, t).blk, 0, t)
  {
    assert QueueInv(s, t);
    var p: nat :| BA.At(s.alloc, InfoOf(s, t).blk, p, t);
    var t' := s.alloc.queue[InfoOf(s, t).blk][0];
    assert BA.At(s.alloc, InfoOf(s, t).blk, 0, t');
    assert QueueInv(s, t');
  }

  /** The only other tenant, with the same block, comes next. */
  lemma NextAlone(s: State, a: Tenant, b: Tenant)
    requires Inv(s) && a != b && Going(s, a) && InfoOf(s, b).batch > 0 && InfoOf(s, b).blk == InfoOf(s, a).blk
    requires forall t: Tenant :: t != a && t != b ==> InfoOf(s, t).batch == 0
    ensures BA.At(s.alloc, InfoOf(s, b).blk, 1, b)
  {
    var blk := InfoOf(s, b).blk;
    assert QueueInv(s, b);
    var p: nat :| BA.At(s.alloc, blk, p, b);
    var t := s.alloc.queue[blk][1];
    assert BA.At(s.alloc, blk, 1, t);
    assert QueueInv(s, t);
  }

  lemma AllAnswered(s: State, fd: Fd)
    requires Inv(s) && OnlyNode(s, fd) && Handled(s.nodes[fd], InfoOf(s, s.nodes[fd].tenant))
    ensures InfoOf(s, s.nodes[fd].tenant).uses == |Members(s, s.nodes[fd].tenant)|
  {
    var t := s.nodes[fd].tenant;
    assert Members(s, t) == {fd} && HandledBy(s, t) == {fd};
    assert UsesInv(s, t);
  }

  /** Two nodes of different tenants; the first tenant has been told to go, on the only block in use. */
  ghost predicate FirstIsOn(w: World, a: Tenant, b: Tenant, blk: Block) {
    && WorldInv(w) && |w.cp.nodes| == 2 && w.cp.nodes[0].tenant == a && w.cp.nodes[1].tenant == b && a != b
    && InfoOf(w.cp, a).batch == 1 && InfoOf(w.cp, a).blk == blk && Going(w.cp, a) && w.cp.nodes[0].batch == 1
    && InfoOf(w.cp, b).batch == 0 && (forall t: Tenant :: t != a ==> InfoOf(w.cp, t).batch == 0)
    && w.cp.nodes[1].batch == 0 && OneUsed(w.cp.alloc.sorted, blk, 1)
    && w.arrived == [0, 0] && w.under == [] && w.regs == map[]
  }

  lemma Starts(plans: Plans, tenants: seq<Tenant>) returns (acts: seq<Act>, worlds: seq<World>, w: World)
    requires PlansOk(plans) && forall fd :: 0 <= fd < |tenants| ==> BA.IsTenant(tenants[fd])
    ensures w == Start(tenants) && WorldInv(w) && Reaches(plans, tenants, acts, worlds, w)
  {
    w := Start(tenants);
    acts, worlds := [], [w];
    assert Reaches(plans, tenants, acts, worlds, w);
    ReachableWorld(false, plans, tenants, acts, worlds, 0);
  }

  lemma FirstRequests(plans: Plans, a: Tenant, b: Tenant) returns (acts: seq<Act>, worlds: seq<World>, w: World)
    requires PlansOk(plans) && BA.IsTenant(a) && BA.IsTenant(b)
    ensures Reaches(plans, [a, b], acts, worlds, w) && WorldInv(w) && FirstHasAsked(w.cp, a, b)
    ensures w.arrived == [0, 0] && w.under == [] && w.regs == map[]
  {
    var w0;
    acts, worlds, w0 := Starts(plans, [a, b]);
    acts, worlds, w := GoControl(plans, [a, b], acts, worlds, w0, Ask(0));
  }

  predicate FirstHasAsked(s: State, a: Tenant, b: Tenant) {
    && |s.nodes| == 2 && s.nodes[0] == Node(a, Requested, 1, NO_BLOCK, [])
    && s.nodes[1] == Node(b, Idle, 0, NO_BLOCK, [])
    && s.alloc == BA.Init() && s.info == map[]
  }

  /** The first tenant asks and is served. */
  lemma FirstAsks(plans: Plans, a: Tenant, b: Tenant) returns (acts: seq<Act>, worlds: seq<World>, w: World, blk: Block)
    requires PlansOk(plans) && BA.IsTenant(a) && BA.IsTenant(b) && a != b
    ensures Reaches(plans, [a, b], acts, worlds, w) && FirstIsOn(w, a, b, blk) && w.cp.nodes[0].phase == AwaitResp
  {
    var w0;
    acts, worlds, w0 := FirstRequests(plans, a, b);
    RequestsAreSafe(w0.cp, 0, 1);
    acts, worlds, w := GoControl(plans, [a, b], acts, worlds, w0, Serve(0, 1, 0));
    blk := BA.Found(BA.Init(), 1).blk;
    FirstIsServed(w0.cp, w.cp, a, b, blk);
  }

  lemma FirstIsServed(s: State, s': State, a: Tenant, b: Tenant, blk: Block)
    requires FirstHasAsked(s, a, b) && a != b && BA.IsTenant(a) && blk == BA.Found(BA.Init(), 1).blk
    requires AssertionsHold(s, 0, 1) && s' == Served(s, 0, 1, 0) && Inv(s') && History(s')
    ensures |s'.nodes| == 2 && s'.nodes[0].tenant == a && s'.nodes[1].tenant == b && s'.nodes[0].batch == 1
    ensures s'.nodes[1].batch == 0
    ensures InfoOf(s', a).batch == 1 && InfoOf(s', a).blk == blk && Going(s', a) && s'.nodes[0].phase == AwaitResp
    ensures (forall t: Tenant :: t != a ==> InfoOf(s', t).batch == 0) && OneUsed(s'.alloc.sorted, blk, 1)
  {
    FirstCached(s, s', a, blk);
    ServedPhases(s, 0, 1, 0, 0);
    ServedPhases(s, 0, 1, 0, 1);
    FirstOthers(s, a);
    AloneGoes(s', a);
  }

  lemma FirstCached(s: State, s': State, a: Tenant, blk: Block)
    requires |s.nodes| > 0 && s.nodes[0].tenant == a && s.nodes[0].block == NO_BLOCK && s.nodes[0].batch == 1
    requires s.alloc == BA.Init() && s.info == map[] && BA.IsTenant(a) && blk == BA.Found(BA.Init(), 1).blk
    requires AssertionsHold(s, 0, 1) && s' == Served(s, 0, 1, 0)
    ensures InfoOf(s', a).batch == 1 && InfoOf(s', a).blk == blk && OneUsed(s'.alloc.sorted, blk, 1)
  {
    FirstServed(s, 0, 1, 0);
    FirstAlloc(a);
  }

  lemma AloneGoes(s: State, a: Tenant)
    requires Inv(s) && History(s) && |s.nodes| == 2 && s.nodes[0].tenant == a != s.nodes[1].tenant
    requires s.nodes[0].batch == 1 == InfoOf(s, a).batch && s.nodes[0].phase == AwaitResp
    requires forall t: Tenant :: t != a ==> InfoOf(s, t).batch == 0
    ensures Going(s, a)
  {
    GoesAlone(s, 0);
  }

  lemma FirstOthers(s: State, a: Tenant)
    requires |s.nodes| > 0 && s.nodes[0].tenant == a && s.info == map[] && AssertionsHold(s, 0, 1)
    ensures forall t: Tenant :: t != a ==> InfoOf(Served(s, 0, 1, 0), t).batch == 0
  {
    forall t: Tenant | t != a
      ensures InfoOf(Served(s, 0, 1, 0), t).batch == 0
    {
      OthersKeepInfo(s, 0, 1, 0, t);
    }
  }

  /** The only tenant with a block, with its only node answered, has been told to go. */
  lemma GoesAlone(s: State, fd: Fd)
    requires Inv(s) && History(s) && OnlyNode(s, fd) && Handled(s.nodes[fd], InfoOf(s, s.nodes[fd].tenant))
    requires forall t: Tenant :: t != s.nodes[fd].tenant ==> InfoOf(s, t).batch == 0
    ensures Going(s, s.nodes[fd].tenant)
  {
    HeadsAlone(s, s.nodes[fd].tenant);
    AllAnswered(s, fd);
  }

  /** The node reads its answer and that it may go; nothing else changes. */
  lemma TakesBoth(s: State, fd: Fd, blk: Block)
    requires Inv(s) && fd < |s.nodes| && s.nodes[fd].phase == AwaitResp
    requires s.nodes[fd].batch == InfoOf(s, s.nodes[fd].tenant).batch > 0
    requires Going(s, s.nodes[fd].tenant) && InfoOf(s, s.nodes[fd].tenant).blk == blk
    ensures Enabled(s, Take(fd)) && Enabled(Next(s, Take(fd)), Take(fd))
    ensures Next(Next(s, Take(fd)), Take(fd)) ==
      s.(nodes := s.nodes[fd := s.nodes[fd].(phase := Idle, block := blk, inbox := [])])
  {
    var x := s.nodes[fd];
    assert NodeOk(x, InfoOf(s, x.tenant), true);
    assert x.inbox == [x.inbox[0]] + x.inbox[1..];
    var s1 := Next(s, Take(fd));
    var x1 := x.(phase := AwaitReady, block := blk, inbox := [Ready]);
    assert s1 == s.(nodes := s.nodes[fd := x1]);
    var x2 := x.(phase := Idle, block := blk, inbox := []);
    assert Took(x1) == x2;
    assert s.nodes[fd := x1][fd := x2] == s.nodes[fd := x2];
  }

  lemma SameFirst(w: World, w': World, a: Tenant, b: Tenant, blk: Block, x: Node)
    requires FirstIsOn(w, a, b, blk) && WorldInv(w') && w' == w.(cp := w.cp.(nodes := w.cp.nodes[0 := x]))
    requires x.tenant == a && x.batch == 1
    ensures FirstIsOn(w', a, b, blk)
  {
    assert InfoOf(w'.cp, a) == InfoOf(w.cp, a);
    assert forall t: Tenant :: InfoOf(w'.cp, t) == InfoOf(w.cp, t);
  }

  lemma FirstGoes(plans: Plans, a: Tenant, b: Tenant) returns (acts: seq<Act>, worlds: seq<World>, w: World, blk: Block)
    requires PlansOk(plans) && BA.IsTenant(a) && BA.IsTenant(b) && a != b
    ensures Reaches(plans, [a, b], acts, worlds, w) && FirstIsOn(w, a, b, blk) && InHotPeriod(w, 0)
    ensures w.cp.nodes[0].block == blk
  {
    var w0, w1;
    acts, worlds, w0, blk := FirstAsks(plans, a, b);
    TakesBoth(w0.cp, 0, blk);
    acts, worlds, w1 := GoControl(plans, [a, b], acts, worlds, w0, Take(0));
    acts, worlds, w := GoControl(plans, [a, b], acts, worlds, w1, Take(0));
    SameFirst(w0, w, a, b, blk, w0.cp.nodes[0].(phase := Idle, block := blk, inbox := []));
  }

  ghost predicate SecondHasAsked(s: State, a: Tenant, b: Tenant, blk: Block) {
    && |s.nodes| == 2 && s.nodes[0].tenant == a && s.nodes[1].tenant == b && a != b
    && Going(s, a) && InfoOf(s, a).blk == blk == s.nodes[0].block && OneUsed(s.alloc.sorted, blk, 1)
    && s.nodes[1].phase == Requested && s.nodes[1].batch == 1 && s.nodes[1].block == NO_BLOCK
    && forall t: Tenant :: t != a ==> InfoOf(s, t).batch == 0
  }

  lemma SecondAsks(s: State, a: Tenant, b: Tenant, blk: Block)
    requires Inv(s) && |s.nodes| == 2 && s.nodes[0].tenant == a && s.nodes[1].tenant == b && a != b
    requires Going(s, a) && InfoOf(s, a).blk == blk == s.nodes[0].block && OneUsed(s.alloc.sorted, blk, 1)
    requires s.nodes[1].batch == 0 && forall t: Tenant :: t != a ==> InfoOf(s, t).batch == 0
    ensures Enabled(s, Ask(1)) && SecondHasAsked(Next(s, Ask(1)), a, b, blk) && Next(s, Ask(1)).nodes[0] == s.nodes[0]
  {
    assert NodeOk(s.nodes[1], InfoOf(s, b), Going(s, b));
    var s' := Next(s, Ask(1));
    assert forall t: Tenant :: InfoOf(s', t) == InfoOf(s, t);
  }

  /** The second tenant is served and comes next on the same block. */
  lemma SecondIsServed(s: State, s': State, a: Tenant, b: Tenant, blk: Block)
    requires Inv(s) && History(s) && SecondHasAsked(s, a, b, blk)
    requires AssertionsHold(s, 1, 2) && s' == Served(s, 1, 2, 0) && Inv(s') && History(s')
    ensures IsNext(s', 0, b) && OnlyNode(s', 0)
    ensures s'.nodes[1].phase == AwaitResp && s'.nodes[1].tenant == b && s'.nodes[1].batch == 1 == InfoOf(s', b).batch
    ensures s'.nodes[0].phase == s.nodes[0].phase && s'.nodes[0].batch == s.nodes[0].batch
    ensures s'.nodes[0].block == blk && s'.nodes[0].tenant == a
  {
    FirstServed(s, 1, 2, 0);
    PicksUsed(s.alloc, blk, 1, 2);
    ServedPhases(s, 1, 2, 0, 0);
    ServedPhases(s, 1, 2, 0, 1);
    SecondOthers(s, a, b);
    OthersKeepInfo(s, 1, 2, 0, a);
    KeepsBlock(s, Serve(1, 2, 0), a);
    NextAlone(s', a, b);
    AllAnswered(s', 1);
  }

  lemma SecondOthers(s: State, a: Tenant, b: Tenant)
    requires |s.nodes| > 1 && s.nodes[1].tenant == b && AssertionsHold(s, 1, 2)
    requires forall t: Tenant :: t != a ==> InfoOf(s, t).batch == 0
    ensures forall t: Tenant :: t != a && t != b ==> InfoOf(Served(s, 1, 2, 0), t).batch == 0
  {
    forall t: Tenant | t != a && t != b
      ensures InfoOf(Served(s, 1, 2, 0), t).batch == 0
    {
      OthersKeepInfo(s, 1, 2, 0, t);
    }
  }

  lemma SecondWaits(plans: Plans, a: Tenant, b: Tenant) returns (acts: seq<Act>, worlds: seq<World>, w: World)
    requires PlansOk(plans) && BA.IsTenant(a) && BA.IsTenant(b) && a != b
    ensures Reaches(plans, [a, b], acts, worlds, w) && WorldInv(w) && InHotPeriod(w, 0) && OnlyNode(w.cp, 0)
    ensures IsNext(w.cp, 0, b)
    ensures w.cp.nodes[0].tenant == a && w.under == [] && w.regs == map[] && |w.cp.nodes| == 2 && w.arrived == [0, 0]
    ensures w.cp.nodes[1].phase == AwaitResp && w.cp.nodes[1].tenant == b
    ensures w.cp.nodes[1].batch == 1 == InfoOf(w.cp, b).batch
  {
    var w0, w1, blk;
    acts, worlds, w0, blk := FirstGoes(plans, a, b);
    SecondAsks(w0.cp, a, b, blk);
    acts, worlds, w1 := GoControl(plans, [a, b], acts, worlds, w0, Ask(1));
    RequestsAreSafe(w1.cp, 1, 2);
    acts, worlds, w := GoControl(plans, [a, b], acts, worlds, w1, Serve(1, 2, 0));
    SecondIsServed(w1.cp, w.cp, a, b, blk);
  }

  // ---------------------------------------------------------------- a write executed too late

  /** First of all packets under way is a write at the place of key `k'` in the block of a node that was told to go. */
  ghost predicate WriteAhead(plans: Plans, w: World, fd: Fd, k: HotCold.Key, k': HotCold.Key) {
    && InHotPeriod(w, fd) && w.regs == map[] && w.under != []
    && var p, v := w.under[0], TenantOf(plans, w, fd);
       && p.ops == [WriteOp(p.t, k, 1)] && HS.OpsOk(p.t, p.ops) && HS.TenantOk(p.t) && HS.TenantOk(v)
       && p.t.block == v.block && HS.SameSlot(p.t.plan, k, v.plan, k')
  }

  /** No cell starts with a one. */
  lemma NeverOne(c: Packet.Cell)
    ensures Packet.Lookup(map[], c) != 1
  {
    var n := c.reg / 10 * 16 + c.reg % 10;
    assert n == 0 || n >= 1;
  }

  lemma NeverWritten(v: HS.Tenant, k': HotCold.Key)
    requires HS.TenantOk(v) && HS.HotSlot(v.plan, k')
    ensures k' in HS.Values(v, map[]) && HS.Values(v, map[])[k'] != 1
  {
    HS.HotSlotIs(v, k');
    NeverOne(HS.KeyCell(v, k'));
  }

  /** The key gets the value one. */
  predicate BecomesOne(v: HS.Tenant, k: HotCold.Key, regs: Packet.Store, regs': Packet.Store) {
    && k in HS.Values(v, regs) && HS.Values(v, regs)[k] != 1
    && k in HS.Values(v, regs') && HS.Values(v, regs')[k] == 1
  }

  lemma LateEffect(t: HS.Tenant, k: HotCold.Key, v: HS.Tenant, k': HotCold.Key, regs': Packet.Store, d: seq<nat>)
    requires HS.TenantOk(t) && HS.TenantOk(v) && t.block == v.block && HS.SameSlot(t.plan, k, v.plan, k')
    requires HS.Executed(t, [WriteOp(t, k, 1)], map[], regs', d)
    ensures BecomesOne(v, k', map[], regs')
  {
    WriteOpOk(t, k, 1);
    NeverWritten(v, k');
    LateWriteHits(t, k, 1, v, k', map[], regs', d);
  }

  /** Any packet under way can be executed. */
  lemma Executes(plans: Plans, tenants: seq<Tenant>, acts: seq<Act>, worlds: seq<World>, w: World, i: nat)
    returns (acts': seq<Act>, worlds': seq<World>, w': World, d: seq<nat>)
    requires Reaches(plans, tenants, acts, worlds, w) && Tenancy.Shape(w) && i < |w.under|
    requires HS.TenantOk(w.under[i].t) && HS.OpsOk(w.under[i].t, w.under[i].ops)
    ensures Reaches(plans, tenants, acts', worlds', w') && Extends(acts, worlds, Execute(i, d), acts', worlds', w')
    ensures w' == w.(under := Tenancy.Without(w.under, i), regs := w'.regs)
    ensures HS.Executed(w.under[i].t, w.under[i].ops, w.regs, w'.regs, d)
  {
    var regs';
    regs', d := HS.CanExecute(w.under[i].t, w.under[i].ops, w.regs);
    acts', worlds', w' := GoExecute(plans, tenants, acts, worlds, w, i, regs', d);
  }

  /** Executed now, the write changes the node's key. */
  lemma LateIsSeen(plans: Plans, w: World, fd: Fd, k: HotCold.Key, k': HotCold.Key, regs': Packet.Store, d: seq<nat>)
    requires WriteAhead(plans, w, fd, k, k') && HS.Executed(w.under[0].t, w.under[0].ops, w.regs, regs', d)
    ensures BecomesOne(TenantOf(plans, w, fd), k', w.regs, regs')
  {
    LateEffect(w.under[0].t, k, TenantOf(plans, w, fd), k', regs', d);
  }

  lemma ExecutedLate(plans: Plans, tenants: seq<Tenant>, acts: seq<Act>, worlds: seq<World>, w: World, fd: Fd,
                     k: HotCold.Key, k': HotCold.Key)
    returns (acts': seq<Act>, worlds': seq<World>, w': World, d: seq<nat>)
    requires Reaches(plans, tenants, acts, worlds, w) && WriteAhead(plans, w, fd, k, k')
    ensures Reaches(plans, tenants, acts', worlds', w') && Extends(acts, worlds, Execute(0, d), acts', worlds', w')
    ensures w' == w.(under := w.under[1..], regs := w'.regs)
    ensures HS.Executed(w.under[0].t, w.under[0].ops, w.regs, w'.regs, d)
  {
    acts', worlds', w', d := Executes(plans, tenants, acts, worlds, w, 0);
  }

  /** What the node sends to read its key. */
  function OwnPacket(plans: Plans, w: World, fd: Fd, k': HotCold.Key): Flying
    requires fd < |w.cp.nodes|
  {
    var x, v := w.cp.nodes[fd], TenantOf(plans, w, fd);
    Flying(x.tenant, x.batch, v, [WriteOp(v, k', 1)])
  }

  /** Act `m` executes the late write and the one after it the node's own packet, which is answered with a one. */
  ghost predicate AnsweredLate(plans: Plans, acts: seq<Act>, worlds: seq<World>, m: nat, w: World, fd: Fd,
                               k': HotCold.Key)
  {
    && |acts| == m + 2 && |worlds| == m + 3 && fd < |w.cp.nodes| && w.under != []
    && worlds[m] == w.(under := w.under + [OwnPacket(plans, w, fd, k')])
    && worlds[m + 1] == w.(under := w.under[1..] + [OwnPacket(plans, w, fd, k')], regs := worlds[m + 1].regs)
    && acts[m].Execute? && acts[m].i == 0 && acts[m + 1].Execute? && acts[m + 1].i == |w.under| - 1
    && var v, d := TenantOf(plans, w, fd), acts[m + 1].d;
       k' in HS.Values(v, w.regs) && !HS.Answers(d, WriteOp(v, k', 1), HS.Values(v, w.regs))
  }

  /** The node sends a packet of its own behind the late write. */
  lemma SendsOwn(plans: Plans, tenants: seq<Tenant>, acts: seq<Act>, worlds: seq<World>, w: World, fd: Fd,
                 k: HotCold.Key, k': HotCold.Key) returns (acts': seq<Act>, worlds': seq<World>, w': World)
    requires Reaches(plans, tenants, acts, worlds, w) && WriteAhead(plans, w, fd, k, k')
    ensures Reaches(plans, tenants, acts', worlds', w') && WriteAhead(plans, w', fd, k, k') && |acts'| == |acts| + 1
    ensures HS.OpsOk(TenantOf(plans, w, fd), OwnPacket(plans, w, fd, k').ops)
    ensures w' == w.(under := w.under + [OwnPacket(plans, w, fd, k')])
    ensures w'.under[1..] == w.under[1..] + [OwnPacket(plans, w, fd, k')]
  {
    var own := OwnPacket(plans, w, fd, k');
    assert HS.OpsOk(own.t, own.ops) by {
      WriteOpOk(own.t, k', 1);
    }
    acts', worlds', w' := GoSend(plans, tenants, acts, worlds, w, fd, own.ops);
  }

  /** The last packet under way is executed. */
  lemma ExecutesLast(plans: Plans, tenants: seq<Tenant>, acts: seq<Act>, worlds: seq<World>, w: World, v: HS.Tenant,
                     k': HotCold.Key)
    returns (acts': seq<Act>, worlds': seq<World>, w': World, d: seq<nat>)
    requires Reaches(plans, tenants, acts, worlds, w) && Tenancy.Shape(w) && w.under != []
    requires w.under[|w.under| - 1].t == v && w.under[|w.under| - 1].ops == [WriteOp(v, k', 1)]
    requires HS.OpsOk(v, [WriteOp(v, k', 1)])
    requires HS.TenantOk(v) && HS.HotSlot(v.plan, k') && k' in HS.Values(v, w.regs) && HS.Values(v, w.regs)[k'] == 1
    ensures Reaches(plans, tenants, acts', worlds', w')
    ensures Extends(acts, worlds, Execute(|w.under| - 1, d), acts', worlds', w')
    ensures HS.Answers(d, WriteOp(v, k', 1), map[k' := 1])
  {
    acts', worlds', w', d := Executes(plans, tenants, acts, worlds, w, |w.under| - 1);
    ReadsOne(v, k', w.regs, w'.regs, d);
  }

  /** The late write is executed before the node's own packet. */
  lemma LateReply(plans: Plans, tenants: seq<Tenant>, acts: seq<Act>, worlds: seq<World>, w: World, fd: Fd,
                  k: HotCold.Key, k': HotCold.Key) returns (acts': seq<Act>, worlds': seq<World>)
    requires Reaches(plans, tenants, acts, worlds, w) && WriteAhead(plans, w, fd, k, k')
    ensures IsHistory(false, plans, tenants, acts', worlds')
    ensures AnsweredLate(plans, acts', worlds', |acts| + 1, w, fd, k')
  {
    var acts1, worlds1, w1 := SendsOwn(plans, tenants, acts, worlds, w, fd, k, k');
    var acts2, worlds2, w2, d := ExecutedLate(plans, tenants, acts1, worlds1, w1, fd, k, k');
    LateIsSeen(plans, w1, fd, k, k', w2.regs, d);
    var w3, d';
    acts', worlds', w3, d' := ExecutesLast(plans, tenants, acts2, worlds2, w2, TenantOf(plans, w, fd), k');
  }

  lemma ReadsOne(v: HS.Tenant, k': HotCold.Key, regs: Packet.Store, regs': Packet.Store, d: seq<nat>)
    requires HS.TenantOk(v) && HS.HotSlot(v.plan, k') && k' in HS.Values(v, regs) && HS.Values(v, regs)[k'] == 1
    requires HS.Executed(v, [WriteOp(v, k', 1)], regs, regs', d)
    ensures HS.Answers(d, WriteOp(v, k', 1), map[k' := 1])
  {
    WriteOpOk(v, k', 1);
    HS.PacketIsTxn(v, [WriteOp(v, k', 1)], regs, regs', d);
    assert HS.Answers(d, [WriteOp(v, k', 1)][0], HS.Exec(HS.Values(v, regs), [WriteOp(v, k', 1)][..0]));
  }

  // ---------------------------------------------------------------- tenants are not isolated

  /** One tenant's late write changes another tenant's values. */
  lemma ValuesNotIsolated(plans: Plans, tenants: seq<Tenant>, acts: seq<Act>, worlds: seq<World>, m: nat, fd: Fd,
                          k': HotCold.Key)
    requires |acts| == m + 1 && |worlds| == m + 2 && InHotPeriod(worlds[m], fd) && worlds[m + 1].cp == worlds[m].cp
    requires acts[m].Execute? && acts[m].i < |worlds[m].under|
    requires worlds[m].under[acts[m].i].who != worlds[m].cp.nodes[fd].tenant
    requires BecomesOne(TenantOf(plans, worlds[m], fd), k', worlds[m].regs, worlds[m + 1].regs)
    requires IsHistory(false, plans, tenants, acts, worlds)
    ensures !AlwaysIsolated(false, plans)
  {
    var w, t := worlds[m], worlds[m].cp.nodes[fd].tenant;
    ReachableWorld(false, plans, tenants, acts, worlds, m);
    HotIsCurrent(w, fd);
    var p := ExecutedBy(w, acts[m]);
    assert ExecutedIn(acts, worlds, m, m) == [];
    assert ExecutedIn(acts, worlds, m, m + 1) == [p];
    assert [p][..0] == [];
    assert HS.FromAs([p], t, InBatch(plans, w, t)) == [];
    assert SameBatch(worlds, m, m + 1, t) && !IsolatedBetween(plans, acts, worlds, m, m + 1, t);
    assert !IsolatedRun(false, plans, tenants, acts, worlds);
  }

  /** And its replies. */
  lemma RepliesNotIsolated(plans: Plans, acts: seq<Act>, worlds: seq<World>, m: nat, w: World, fd: Fd, k': HotCold.Key)
    requires AnsweredLate(plans, acts, worlds, m, w, fd, k') && WorldInv(w) && InHotPeriod(w, fd)
    requires w.under[0].who != w.cp.nodes[fd].tenant
    ensures !RepliesIsolated(plans, acts, worlds)
  {
    HotIsCurrent(w, fd);
    var own, late := OwnPacket(plans, w, fd, k'), ExecutedBy(worlds[m], acts[m]);
    assert worlds[m + 1].under[acts[m + 1].i] == own;
    assert ExecutedIn(acts, worlds, m, m) == [];
    assert ExecutedIn(acts, worlds, m, m + 1) == [late];
    assert [late][..0] == [];
    assert HS.FromAs([late], own.who, own.t) == [];
    assert OwnReply(plans, acts, worlds, m, m + 1);
    assert own.ops[..0] == [];
    assert !AnswersAll(own, acts[m + 1].d, HS.Values(own.t, w.regs));
    assert !ReplyBetween(plans, acts, worlds, m, m + 1);
  }

  /** A write of the first tenant is under way while the second, on the same block, is in its hot period. */
  lemma WriteIsLate(plans: Plans, a: Tenant, b: Tenant, k: HotCold.Key, k': HotCold.Key)
    returns (acts: seq<Act>, worlds: seq<World>, w: World)
    requires PlansOk(plans) && BA.IsTenant(a) && BA.IsTenant(b) && a != b && HS.SameSlot(plans(a), k, plans(b), k')
    ensures Reaches(plans, [a, b], acts, worlds, w) && WriteAhead(plans, w, 1, k, k')
    ensures w.under[0].who == a && w.cp.nodes[1].tenant == b
  {
    var w0, w2;
    acts, worlds, w0 := SecondWaits(plans, a, b);
    HotTenantOk(plans, w0, 0);
    var t := TenantOf(plans, w0, 0);
    WriteOpOk(t, k, 1);
    var w1 := w0.(under := [Flying(a, w0.cp.nodes[0].batch, t, [WriteOp(t, k, 1)])]);
    acts, worlds := Go(plans, [a, b], acts, worlds, w0, Send(0, [WriteOp(t, k, 1)]), w1);
    acts, worlds, w2 := BlockChangesHands(plans, [a, b], acts, worlds, w1, 0, b, 3, 0);
    assert StaysPut(w1, w2, 1);
    acts, worlds, w := TakesUp(plans, [a, b], acts, worlds, w2, 1);
    HotTenantOk(plans, w, 1);
  }

  /** A node that has been told to go reads its messages and is in its hot period. */
  lemma TakesUp(plans: Plans, tenants: seq<Tenant>, acts: seq<Act>, worlds: seq<World>, w: World, fd: Fd)
    returns (acts': seq<Act>, worlds': seq<World>, w': World)
    requires Reaches(plans, tenants, acts, worlds, w) && WorldInv(w) && fd < |w.cp.nodes|
    requires var x, i := w.cp.nodes[fd], InfoOf(w.cp, w.cp.nodes[fd].tenant);
      x.phase == AwaitResp && w.arrived[fd] < x.batch == i.batch && Going(w.cp, x.tenant)
    ensures Reaches(plans, tenants, acts', worlds', w') && WorldInv(w') && InHotPeriod(w', fd)
    ensures var x := w.cp.nodes[fd]; var x' := x.(phase := Idle, block := InfoOf(w.cp, x.tenant).blk, inbox := []);
      w' == w.(cp := w.cp.(nodes := w.cp.nodes[fd := x']))
  {
    TakesBoth(w.cp, fd, InfoOf(w.cp, w.cp.nodes[fd].tenant).blk);
    var w1;
    acts', worlds', w1 := GoControl(plans, tenants, acts, worlds, w, Take(fd));
    acts', worlds', w' := GoControl(plans, tenants, acts', worlds', w1, Take(fd));
  }

  ghost predicate IsolatedRun(waits: bool, plans: Plans, tenants: seq<Tenant>, acts: seq<Act>, worlds: seq<World>) {
    IsHistory(waits, plans, tenants, acts, worlds) ==> Isolated(plans, acts, worlds)
  }

  ghost predicate AlwaysIsolated(waits: bool, plans: Plans) {
    forall tenants, acts, worlds :: IsolatedRun(waits, plans, tenants, acts, worlds)
  }

  ghost predicate RepliesIsolatedRun(waits: bool, plans: Plans, tenants: seq<Tenant>, acts: seq<Act>,
                                     worlds: seq<World>)
  {
    IsHistory(waits, plans, tenants, acts, worlds) ==> RepliesIsolated(plans, acts, worlds)
  }

  ghost predicate AlwaysRepliesIsolated(waits: bool, plans: Plans) {
    forall tenants, acts, worlds :: RepliesIsolatedRun(waits, plans, tenants, acts, worlds)
  }

  lemma LateWriteFails(plans: Plans, tenants: seq<Tenant>, acts: seq<Act>, worlds: seq<World>, w: World, fd: Fd,
                       k: HotCold.Key, k': HotCold.Key)
    requires Reaches(plans, tenants, acts, worlds, w)
    requires WriteAhead(plans, w, fd, k, k') && w.under[0].who != w.cp.nodes[fd].tenant
    ensures !AlwaysIsolated(false, plans)
  {
    var acts', worlds', w', d := ExecutedLate(plans, tenants, acts, worlds, w, fd, k, k');
    assert BecomesOne(TenantOf(plans, w, fd), k', w.regs, w'.regs) by {
      LateIsSeen(plans, w, fd, k, k', w'.regs, d);
    }
    ValuesNotIsolated(plans, tenants, acts', worlds', |acts|, fd, k');
  }

  lemma LateReplyFails(plans: Plans, tenants: seq<Tenant>, acts: seq<Act>, worlds: seq<World>, w: World, fd: Fd,
                       k: HotCold.Key, k': HotCold.Key)
    requires Reaches(plans, tenants, acts, worlds, w)
    requires WriteAhead(plans, w, fd, k, k') && w.under[0].who != w.cp.nodes[fd].tenant
    ensures !AlwaysRepliesIsolated(false, plans)
  {
    var acts', worlds' := LateReply(plans, tenants, acts, worlds, w, fd, k, k');
    ReachableWorld(false, plans, tenants, acts, worlds, |acts|);
    RepliesNotIsolated(plans, acts', worlds', |acts| + 1, w, fd, k');
    assert !RepliesIsolatedRun(false, plans, tenants, acts', worlds');
  }

  lemma LatePacketFails(plans: Plans, a: Tenant, b: Tenant, k: HotCold.Key, k': HotCold.Key)
    requires PlansOk(plans) && BA.IsTenant(a) && BA.IsTenant(b) && a != b && HS.SameSlot(plans(a), k, plans(b), k')
    ensures !AlwaysIsolated(false, plans) && !AlwaysRepliesIsolated(false, plans)
  {
    var acts, worlds, w := WriteIsLate(plans, a, b, k, k');
    LateWriteFails(plans, [a, b], acts, worlds, w, 1, k, k');
    LateReplyFails(plans, [a, b], acts, worlds, w, 1, k, k');
  }

  lemma NotAlwaysIsolated(plans: Plans)
    requires PlansOk(plans) && TenantsShareSlots(plans)
    ensures !AlwaysIsolated(false, plans) && !AlwaysRepliesIsolated(false, plans)
  {
    var a: Tenant, b: Tenant :| BA.IsTenant(a) && BA.IsTenant(b) && a != b && HS.ShareSlot(plans(a), plans(b));
    var k, k' :| HS.SameSlot(plans(a), k, plans(b), k');
    LatePacketFails(plans, a, b, k, k');
  }

  /**
    Tenants are isolated from one another in every history, in their values as in their replies, if and
    only if nodes wait for their packets or no two tenants have hot keys at the same place. A packet that
    is left over from an earlier batch of the same tenant counts as its own here.
   */
  lemma IsolatedIff(waits: bool, plans: Plans)
    requires PlansOk(plans)
    ensures AlwaysIsolated(waits, plans) <==> waits || !TenantsShareSlots(plans)
    ensures AlwaysRepliesIsolated(waits, plans) <==> waits || !TenantsShareSlots(plans)
  {
    if waits || !TenantsShareSlots(plans) {
      forall tenants, acts, worlds
        ensures IsolatedRun(waits, plans, tenants, acts, worlds)
        ensures RepliesIsolatedRun(waits, plans, tenants, acts, worlds)
      {
        if IsHistory(waits, plans, tenants, acts, worlds) {
          WaitingIsolates(waits, plans, tenants, acts, worlds);
        }
      }
    } else {
      NotAlwaysIsolated(plans);
    }
  }
}
