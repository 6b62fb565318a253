/**
  The control plane, the last barrier of the hot period and the packets together. A node asks for
  its next block only after all nodes of its tenant have finished their hot period, so no two tenants
  send to one block at a time. What they sent may still be under way then: only if a node also waits
  until the tenant's packets have been executed does each batch run on the tenant's own key store,
  whoever had the block before and gets it after.
 */
module Tenancy {
  import BA = BlockAllocator
  import opened ControlPlane
  import HS = HotStore
  import Packet
  import HostLayout
  import HotCold

  /** The layout of each tenant, the same on all its nodes. */
  type Plans = Tenant -> HostLayout.Plan

  /** A packet on its way to the switch: whose it is, for which batch, and what it was made with. */
  datatype Flying = Flying(who: Tenant, batch: nat, t: HS.Tenant, ops: seq<HotCold.HotOp>)

  /** `arrived` is the last batch for which the node came to the barrier at the end of its hot period. */
  datatype World = World(cp: State, arrived: seq<nat>, under: seq<Flying>, regs: Packet.Store)

  datatype Act =
    | Control(step: Step)
    | Send(fd: Fd, ops: seq<HotCold.HotOp>)
    | Execute(i: nat, d: seq<nat>)
    | Arrive(fd: Fd)

  predicate Shape(w: World) {
    |w.arrived| == |w.cp.nodes|
  }

  /** The node was told to go and has not come to the last barrier yet. */
  predicate InHotPeriod(w: World, fd: Fd) {
    && Shape(w) && fd < |w.cp.nodes| && w.cp.nodes[fd].phase == Idle
    && w.cp.nodes[fd].batch > 0 && w.arrived[fd] < w.cp.nodes[fd].batch
  }

  /** Everybody of the tenant has come to the barrier that ends the node's batch. */
  predicate AllArrived(w: World, fd: Fd) {
    && Shape(w) && fd < |w.cp.nodes|
    && forall fd' :: 0 <= fd' < |w.cp.nodes| && w.cp.nodes[fd'].tenant == w.cp.nodes[fd].tenant ==>
       w.arrived[fd'] >= w.cp.nodes[fd].batch
  }

  predicate NoneUnderWay(w: World, t: Tenant) {
    forall i :: 0 <= i < |w.under| ==> w.under[i].who != t
  }

  function TenantOf(plans: Plans, w: World, fd: Fd): HS.Tenant
    requires fd < |w.cp.nodes|
  {
    HS.Tenant(plans(w.cp.nodes[fd].tenant), w.cp.nodes[fd].block)
  }

  function Without(under: seq<Flying>, i: nat): seq<Flying>
    requires i < |under|
  {
    under[..i] + under[i + 1..]
  }

  /** `waits` is whether a node that gives its block back waits for the packets of its tenant. */
  ghost predicate Moves(waits: bool, plans: Plans, w: World, act: Act, w': World) {
    && Shape(w)
    && match act
       case Control(step) =>
         && Enabled(w.cp, step)
         && (step.Ask? ==> AllArrived(w, step.fd) && (waits ==> NoneUnderWay(w, w.cp.nodes[step.fd].tenant)))
         && w' == w.(cp := Next(w.cp, step))
       case Send(fd, ops) =>
         && InHotPeriod(w, fd) && HS.OpsOk(TenantOf(plans, w, fd), ops)
         && w' == w.(under := w.under +
            [Flying(w.cp.nodes[fd].tenant, w.cp.nodes[fd].batch, TenantOf(plans, w, fd), ops)])
       case Execute(i, d) =>
         && i < |w.under| && HS.Executed(w.under[i].t, w.under[i].ops, w.regs, w'.regs, d)
         && w' == w.(under := Without(w.under, i), regs := w'.regs)
       case Arrive(fd) => InHotPeriod(w, fd) && w' == w.(arrived := w.arrived[fd := w.cp.nodes[fd].batch])
  }

  function Start(tenants: seq<Tenant>): World {
    World(Init(tenants), seq(|tenants|, fd => 0), [], map[])
  }

  /** No layout gives a register more keys than 16 bits can tell apart. */
  ghost predicate PlansOk(plans: Plans) {
    forall t: Tenant :: HostLayout.Inv(plans(t)) && HostLayout.Inverse(plans(t))
  }

  ghost predicate IsHistory(waits: bool, plans: Plans, tenants: seq<Tenant>, acts: seq<Act>, worlds: seq<World>) {
    && PlansOk(plans) && (forall fd :: 0 <= fd < |tenants| ==> BA.IsTenant(tenants[fd]))
    && |worlds| == |acts| + 1 && worlds[0] == Start(tenants)
    && forall n: nat :: n < |acts| ==> MovesAt(waits, plans, acts, worlds, n)
  }

  ghost predicate MovesAt(waits: bool, plans: Plans, acts: seq<Act>, worlds: seq<World>, n: nat) {
    n < |acts| && n + 1 < |worlds| && Moves(waits, plans, worlds[n], acts[n], worlds[n + 1])
  }

  lemma Extend(waits: bool, plans: Plans, tenants: seq<Tenant>, acts: seq<Act>, worlds: seq<World>, act: Act, w': World)
    requires IsHistory(waits, plans, tenants, acts, worlds) && Moves(waits, plans, worlds[|acts|], act, w')
    ensures IsHistory(waits, plans, tenants, acts + [act], worlds + [w'])
  {
    var acts', worlds' := acts + [act], worlds + [w'];
    forall n: nat | n < |acts'|
      ensures MovesAt(waits, plans, acts', worlds', n)
    {
      if n < |acts| {
        assert MovesAt(waits, plans, acts, worlds, n);
      }
    }
  }

  // ---------------------------------------------------------------- the invariant

  /** Nobody is more than one batch ahead of the last barrier anybody of its tenant came to. */
  ghost predicate BarrierInv(w: World) {
    && Shape(w)
    && forall fd, fd' ::
         0 <= fd < |w.cp.nodes| && 0 <= fd' < |w.cp.nodes| && w.cp.nodes[fd].tenant == w.cp.nodes[fd'].tenant ==>
           w.cp.nodes[fd].batch <= w.arrived[fd'] + 1
  }

  /** The cached batch was asked for. */
  ghost predicate AskedFor(s: State, t: Tenant) {
    InfoOf(s, t).batch > 0 ==>
      exists fd :: 0 <= fd < |s.nodes| && s.nodes[fd].tenant == t && s.nodes[fd].batch >= InfoOf(s, t).batch
  }

  ghost predicate WorldInv(w: World) {
    Inv(w.cp) && History(w.cp) && BarrierInv(w) && forall t: Tenant :: AskedFor(w.cp, t)
  }

  ghost predicate FlyingOk(plans: Plans, p: Flying) {
    BA.IsTenant(p.who) && p.t.plan == plans(p.who) && HS.TenantOk(p.t) && HS.OpsOk(p.t, p.ops)
  }

  ghost predicate AllFlyingOk(plans: Plans, w: World) {
    forall i :: 0 <= i < |w.under| ==> FlyingOk(plans, w.under[i])
  }

  ghost predicate SameNodes(s: State, s': State) {
    |s'.nodes| == |s.nodes| && forall fd :: 0 <= fd < |s.nodes| ==>
      s'.nodes[fd].tenant == s.nodes[fd].tenant && s'.nodes[fd].batch == s.nodes[fd].batch
  }

  lemma ServedSameNodes(s: State, fd: Fd, start: Time, duration: Time)
    requires fd < |s.nodes| && AssertionsHold(s, fd, start)
    ensures SameNodes(s, Served(s, fd, start, duration))
  {
    var s1 := Renewed(s, fd, start, duration);
    assert s1.nodes == s.nodes;
    var s2 := Answered(s1, fd);
    assert SameNodes(s, s2);
    NotifiedSameNodes(s2);
  }

  lemma NotifiedSameNodes(s: State)
    ensures SameNodes(s, Notified(s))
  {
  }

  lemma StepKeepsNodes(s: State, step: Step)
    requires Enabled(s, step)
    ensures var s' := Next(s, step);
      && |s'.nodes| == |s.nodes|
      && forall fd :: 0 <= fd < |s.nodes| ==>
           && s'.nodes[fd].tenant == s.nodes[fd].tenant
           && s'.nodes[fd].batch == s.nodes[fd].batch + if step == Ask(fd) then 1 else 0
  {
    if step.Serve? {
      ServedSameNodes(s, step.fd, step.start, step.duration);
    }
  }

  lemma StepKeepsAskedFor(s: State, step: Step, t: Tenant)
    requires Enabled(s, step) && AskedFor(s, t)
    ensures AskedFor(Next(s, step), t)
  {
    var s' := Next(s, step);
    StepKeepsNodes(s, step);
    if step.Serve? {
      ServedBatch(s, step.fd, step.start, step.duration, t);
    }
    if InfoOf(s', t).batch > 0 {
      if InfoOf(s', t).batch == InfoOf(s, t).batch {
        var fd :| 0 <= fd < |s.nodes| && s.nodes[fd].tenant == t && s.nodes[fd].batch >= InfoOf(s, t).batch;
        assert s'.nodes[fd].batch >= InfoOf(s', t).batch;
      } else {
        assert s'.nodes[step.fd].batch >= InfoOf(s', t).batch;
      }
    }
  }

  lemma ControlKeepsInv(s: State, step: Step)
    requires Inv(s) && History(s) && Enabled(s, step)
    ensures Inv(Next(s, step)) && History(Next(s, step))
  {
    match step
    case Serve(fd, start, duration) =>
      ServeKeepsInv(s, fd, start, duration);
      ServeHistory(s, fd, start, duration);
    case Ask(fd) =>
      AskKeepsInv(s, fd);
      NodeStepHistory(s, step);
    case Take(fd) =>
      TakeKeepsInv(s, fd);
      NodeStepHistory(s, step);
  }

  lemma MoveKeepsInv(waits: bool, plans: Plans, w: World, act: Act, w': World)
    requires WorldInv(w) && Moves(waits, plans, w, act, w')
    ensures WorldInv(w')
  {
    if act.Control? {
      ControlKeepsInv(w.cp, act.step);
      StepKeepsNodes(w.cp, act.step);
      forall t: Tenant
        ensures AskedFor(w'.cp, t)
      {
        StepKeepsAskedFor(w.cp, act.step, t);
      }
    }
  }

  lemma {:induction false} ReachableWorld(waits: bool, plans: Plans, tenants: seq<Tenant>, acts: seq<Act>,
                                          worlds: seq<World>, n: nat)
    requires IsHistory(waits, plans, tenants, acts, worlds) && n < |worlds|
    ensures WorldInv(worlds[n])
  {
    if n == 0 {
      ControlPlane.InitInv(tenants);
    } else {
      ReachableWorld(waits, plans, tenants, acts, worlds, n - 1);
      assert MovesAt(waits, plans, acts, worlds, n - 1);
      MoveKeepsInv(waits, plans, worlds[n - 1], acts[n - 1], worlds[n]);
    }
  }

  // ---------------------------------------------------------------- one tenant per block

  /** A node in its hot period works for its tenant's cached batch, on a block whose queue its tenant heads. */
  lemma HotIsCurrent(w: World, fd: Fd)
    requires WorldInv(w) && InHotPeriod(w, fd)
    ensures var x := w.cp.nodes[fd]; var i := InfoOf(w.cp, x.tenant);
      x.batch == i.batch && x.block == i.blk && Going(w.cp, x.tenant) && x.block < BA.N_BLOCKS
  {
    var x := w.cp.nodes[fd];
    assert NodeOk(x, InfoOf(w.cp, x.tenant), Going(w.cp, x.tenant));
    assert AskedFor(w.cp, x.tenant);
  }

  /** In every history no two tenants have nodes in their hot period on one block. */
  lemma OneTenantPerBlock(waits: bool, plans: Plans, tenants: seq<Tenant>, acts: seq<Act>, worlds: seq<World>,
                          n: nat, fd: Fd, fd': Fd)
    requires IsHistory(waits, plans, tenants, acts, worlds) && n < |worlds| && InHotPeriod(worlds[n], fd)
    requires InHotPeriod(worlds[n], fd')
    ensures var x, y := worlds[n].cp.nodes[fd], worlds[n].cp.nodes[fd'];
      if x.tenant == y.tenant then x.batch == y.batch && x.block == y.block else x.block != y.block
  {
    ReachableWorld(waits, plans, tenants, acts, worlds, n);
    HotIsCurrent(worlds[n], fd);
    HotIsCurrent(worlds[n], fd');
  }

  // ---------------------------------------------------------------- a tenant keeps its block for the batch

  lemma HistoryGrows(s: State, step: Step)
    requires Enabled(s, step)
    ensures s.told <= Next(s, step).told && s.grants <= Next(s, step).grants
  {
  }

  /** Until the next batch the tenant goes on heading the same block. */
  lemma KeepsBlock(s: State, step: Step, t: Tenant)
    requires Inv(s) && History(s) && Enabled(s, step) && Going(s, t)
    requires InfoOf(Next(s, step), t).batch == InfoOf(s, t).batch
    ensures Going(Next(s, step), t) && InfoOf(Next(s, step), t).blk == InfoOf(s, t).blk
  {
    var s', b := Next(s, step), InfoOf(s, t).batch;
    ControlKeepsInv(s, step);
    HistoryGrows(s, step);
    assert Told(t, b) in s'.told;
    assert CacheGranted(s, t) && CacheGranted(s', t);
    assert Grant(t, b, InfoOf(s, t).blk) in s'.grants && Grant(t, b, InfoOf(s', t).blk) in s'.grants;
  }

  /** The batch that the tenant is working on at both moments. */
  ghost predicate SameBatch(worlds: seq<World>, m: nat, n: nat, t: Tenant) {
    m <= n < |worlds| && Going(worlds[m].cp, t) && InfoOf(worlds[n].cp, t).batch == InfoOf(worlds[m].cp, t).batch
  }

  lemma {:induction false} BatchesGrow(waits: bool, plans: Plans, tenants: seq<Tenant>, acts: seq<Act>,
                                       worlds: seq<World>, m: nat, n: nat, t: Tenant)
    requires IsHistory(waits, plans, tenants, acts, worlds) && m <= n < |worlds|
    ensures InfoOf(worlds[m].cp, t).batch <= InfoOf(worlds[n].cp, t).batch
  {
    if m < n {
      BatchesGrow(waits, plans, tenants, acts, worlds, m, n - 1, t);
      ReachableWorld(waits, plans, tenants, acts, worlds, n - 1);
      assert MovesAt(waits, plans, acts, worlds, n - 1);
      if acts[n - 1].Control? {
        BatchGrowsByOne(worlds[n - 1].cp, acts[n - 1].step, t);
      }
    }
  }

  lemma {:induction false} StillGoing(waits: bool, plans: Plans, tenants: seq<Tenant>, acts: seq<Act>,
                                      worlds: seq<World>, m: nat, n: nat, t: Tenant)
    requires IsHistory(waits, plans, tenants, acts, worlds) && SameBatch(worlds, m, n, t)
    ensures Going(worlds[n].cp, t) && InfoOf(worlds[n].cp, t).blk == InfoOf(worlds[m].cp, t).blk
  {
    if m < n {
      BatchesGrow(waits, plans, tenants, acts, worlds, m, n - 1, t);
      BatchesGrow(waits, plans, tenants, acts, worlds, n - 1, n, t);
      StillGoing(waits, plans, tenants, acts, worlds, m, n - 1, t);
      ReachableWorld(waits, plans, tenants, acts, worlds, n - 1);
      assert MovesAt(waits, plans, acts, worlds, n - 1);
      if acts[n - 1].Control? {
        KeepsBlock(worlds[n - 1].cp, acts[n - 1].step, t);
      }
    }
  }

  // ---------------------------------------------------------------- packets under way

  lemma HotTenantOk(plans: Plans, w: World, fd: Fd)
    requires PlansOk(plans) && WorldInv(w) && InHotPeriod(w, fd)
    ensures HS.TenantOk(TenantOf(plans, w, fd)) && BA.IsTenant(w.cp.nodes[fd].tenant)
  {
    HotIsCurrent(w, fd);
  }

  lemma MoveKeepsFlying(waits: bool, plans: Plans, w: World, act: Act, w': World)
    requires PlansOk(plans) && WorldInv(w) && AllFlyingOk(plans, w) && Moves(waits, plans, w, act, w')
    ensures AllFlyingOk(plans, w')
  {
    if act.Send? {
      HotTenantOk(plans, w, act.fd);
    }
  }

  lemma {:induction false} ReachableFlying(waits: bool, plans: Plans, tenants: seq<Tenant>, acts: seq<Act>,
                                           worlds: seq<World>, n: nat)
    requires IsHistory(waits, plans, tenants, acts, worlds) && n < |worlds|
    ensures AllFlyingOk(plans, worlds[n])
  {
    if n > 0 {
      ReachableFlying(waits, plans, tenants, acts, worlds, n - 1);
      ReachableWorld(waits, plans, tenants, acts, worlds, n - 1);
      assert MovesAt(waits, plans, acts, worlds, n - 1);
      MoveKeepsFlying(waits, plans, worlds[n - 1], acts[n - 1], worlds[n]);
    }
  }

  /** The tenant as its nodes see it in this batch. */
  ghost function InBatch(plans: Plans, w: World, t: Tenant): HS.Tenant {
    HS.Tenant(plans(t), InfoOf(w.cp, t).blk)
  }

  /** The packet is for the batch its tenant works on. */
  ghost predicate Current(plans: Plans, w: World, p: Flying) {
    p.batch == InfoOf(w.cp, p.who).batch && Going(w.cp, p.who) && p.t == InBatch(plans, w, p.who)
  }

  /** A node has asked for the batch after the cached one. */
  predicate IsAhead(w: World, fd: Fd) {
    fd < |w.cp.nodes| && w.cp.nodes[fd].batch == InfoOf(w.cp, w.cp.nodes[fd].tenant).batch + 1
  }

  /** All packets under way are current, and none is of a tenant one of whose nodes is ahead. */
  ghost predicate CurrentInv(plans: Plans, w: World) {
    && (forall i :: 0 <= i < |w.under| ==> Current(plans, w, w.under[i]))
    && (forall fd :: 0 <= fd < |w.cp.nodes| && IsAhead(w, fd) ==> NoneUnderWay(w, w.cp.nodes[fd].tenant))
  }

  /** While a node is in its hot period none of its tenant is ahead. */
  lemma HotNoneAhead(w: World, fd: Fd, fd': Fd)
    requires WorldInv(w) && InHotPeriod(w, fd) && fd' < |w.cp.nodes| && w.cp.nodes[fd'].tenant == w.cp.nodes[fd].tenant
    ensures !IsAhead(w, fd')
  {
    HotIsCurrent(w, fd);
  }

  lemma SendKeepsCurrent(plans: Plans, w: World, act: Act, w': World)
    requires WorldInv(w) && CurrentInv(plans, w) && Moves(true, plans, w, act, w') && act.Send?
    ensures CurrentInv(plans, w')
  {
    HotIsCurrent(w, act.fd);
    forall fd | 0 <= fd < |w'.cp.nodes| && IsAhead(w', fd)
      ensures NoneUnderWay(w', w'.cp.nodes[fd].tenant)
    {
      assert IsAhead(w, fd);
      if w.cp.nodes[fd].tenant == w.cp.nodes[act.fd].tenant {
        HotNoneAhead(w, act.fd, fd);
      }
    }
  }

  /** The tenant's batch changes only when none of its packets is under way. */
  lemma BatchChanges(plans: Plans, w: World, step: Step, t: Tenant)
    requires WorldInv(w) && CurrentInv(plans, w) && Enabled(w.cp, step)
    requires InfoOf(Next(w.cp, step), t).batch != InfoOf(w.cp, t).batch
    ensures NoneUnderWay(w, t)
  {
    if step.Serve? {
      ServedBatch(w.cp, step.fd, step.start, step.duration, t);
      FreshNode(w.cp, step.fd);
      assert IsAhead(w, step.fd);
    }
  }

  lemma ControlKeepsCurrent(plans: Plans, w: World, act: Act, w': World)
    requires WorldInv(w) && CurrentInv(plans, w) && Moves(true, plans, w, act, w') && act.Control?
    ensures CurrentInv(plans, w')
  {
    StepKeepsNodes(w.cp, act.step);
    forall i | 0 <= i < |w'.under|
      ensures Current(plans, w', w'.under[i])
    {
      var t := w.under[i].who;
      assert Current(plans, w, w.under[i]);
      if InfoOf(w'.cp, t).batch != InfoOf(w.cp, t).batch {
        BatchChanges(plans, w, act.step, t);
      } else {
        KeepsBlock(w.cp, act.step, t);
      }
    }
    forall fd | 0 <= fd < |w'.cp.nodes| && IsAhead(w', fd)
      ensures NoneUnderWay(w', w'.cp.nodes[fd].tenant)
    {
      var t := w.cp.nodes[fd].tenant;
      if act.step != Ask(fd) {
        BatchGrowsByOne(w.cp, act.step, t);
        assert NodeOk(w.cp.nodes[fd], InfoOf(w.cp, t), Going(w.cp, t));
        assert IsAhead(w, fd);
      }
    }
  }

  lemma MoveKeepsCurrent(plans: Plans, w: World, act: Act, w': World)
    requires WorldInv(w) && CurrentInv(plans, w) && Moves(true, plans, w, act, w')
    ensures CurrentInv(plans, w')
  {
    match act
    case Control(_) => ControlKeepsCurrent(plans, w, act, w');
    case Send(_, _) => SendKeepsCurrent(plans, w, act, w');
    case Execute(i, _) => ExecuteKeepsCurrent(plans, w, act, w');
    case Arrive(_) => ArriveKeepsCurrent(plans, w, act, w');
  }

  lemma ExecuteKeepsCurrent(plans: Plans, w: World, act: Act, w': World)
    requires CurrentInv(plans, w) && Moves(true, plans, w, act, w') && act.Execute?
    ensures CurrentInv(plans, w')
  {
    assert forall i :: 0 <= i < |w'.under| ==> w'.under[i] == w.under[if i < act.i then i else i + 1];
    forall i | 0 <= i < |w'.under|
      ensures Current(plans, w', w'.under[i])
    {
      assert Current(plans, w, w.under[if i < act.i then i else i + 1]);
    }
    forall fd | 0 <= fd < |w'.cp.nodes| && IsAhead(w', fd)
      ensures NoneUnderWay(w', w'.cp.nodes[fd].tenant)
    {
      assert IsAhead(w, fd);
    }
  }

  lemma ArriveKeepsCurrent(plans: Plans, w: World, act: Act, w': World)
    requires CurrentInv(plans, w) && Moves(true, plans, w, act, w') && act.Arrive?
    ensures CurrentInv(plans, w')
  {
    forall i | 0 <= i < |w'.under|
      ensures Current(plans, w', w'.under[i])
    {
      assert Current(plans, w, w.under[i]);
    }
    forall fd | 0 <= fd < |w'.cp.nodes| && IsAhead(w', fd)
      ensures NoneUnderWay(w', w'.cp.nodes[fd].tenant)
    {
      assert IsAhead(w, fd);
    }
  }

  lemma {:induction false} ReachableCurrent(plans: Plans, tenants: seq<Tenant>, acts: seq<Act>, worlds: seq<World>,
                                            n: nat)
    requires IsHistory(true, plans, tenants, acts, worlds) && n < |worlds|
    ensures CurrentInv(plans, worlds[n])
  {
    if n > 0 {
      ReachableCurrent(plans, tenants, acts, worlds, n - 1);
      ReachableWorld(true, plans, tenants, acts, worlds, n - 1);
      assert MovesAt(true, plans, acts, worlds, n - 1);
      MoveKeepsCurrent(plans, worlds[n - 1], acts[n - 1], worlds[n]);
    }
  }

  // ---------------------------------------------------------------- the packets executed

  /** The packet that this act executes, with the reply. */
  ghost function ExecutedBy(w: World, act: Act): HS.Sent
    requires act.Execute? && act.i < |w.under|
  {
    HS.Sent(w.under[act.i].who, w.under[act.i].t, w.under[act.i].ops, act.d)
  }

  /** The packets executed between two moments, and the registers before the first and after each of them. */
  ghost function ExecutedIn(acts: seq<Act>, worlds: seq<World>, m: nat, n: nat): seq<HS.Sent>
    requires m <= n <= |acts| && |worlds| == |acts| + 1
  {
    if m == n then [] else
      ExecutedIn(acts, worlds, m, n - 1) +
      if acts[n - 1].Execute? && acts[n - 1].i < |worlds[n - 1].under|
      then [ExecutedBy(worlds[n - 1], acts[n - 1])]
      else []
  }

  ghost function RegsIn(acts: seq<Act>, worlds: seq<World>, m: nat, n: nat): (trace: seq<Packet.Store>)
    requires m <= n <= |acts| && |worlds| == |acts| + 1
    ensures trace != [] && trace[0] == worlds[m].regs
  {
    if m == n then [worlds[m].regs] else
      RegsIn(acts, worlds, m, n - 1) +
        if acts[n - 1].Execute? && acts[n - 1].i < |worlds[n - 1].under| then [worlds[n].regs] else []
  }

  lemma RunAppend(sent: seq<HS.Sent>, trace: seq<Packet.Store>, p: HS.Sent, regs: Packet.Store)
    requires HS.IsRun(sent, trace) && HS.Step(p, trace[|sent|], regs)
    ensures HS.IsRun(sent + [p], trace + [regs])
  {
    var sent', trace' := sent + [p], trace + [regs];
    forall i: nat | i < |sent'|
      ensures HS.StepAt(sent', trace', i)
    {
      if i < |sent| {
        assert HS.StepAt(sent, trace, i);
      }
    }
  }

  ghost predicate ExecutesPacket(w: World, act: Act, w': World) {
    if act.Execute? then act.i < |w.under| && HS.Step(ExecutedBy(w, act), w.regs, w'.regs) else w'.regs == w.regs
  }

  /** One act, as far as the registers go. */
  lemma ActIsStep(waits: bool, plans: Plans, tenants: seq<Tenant>, acts: seq<Act>, worlds: seq<World>, n: nat)
    requires IsHistory(waits, plans, tenants, acts, worlds) && n < |acts|
    ensures ExecutesPacket(worlds[n], acts[n], worlds[n + 1])
  {
    assert MovesAt(waits, plans, acts, worlds, n);
    if acts[n].Execute? {
      ReachableFlying(waits, plans, tenants, acts, worlds, n);
      assert FlyingOk(plans, worlds[n].under[acts[n].i]);
    }
  }

  ghost predicate RunsTo(sent: seq<HS.Sent>, trace: seq<Packet.Store>, regs: Packet.Store) {
    HS.IsRun(sent, trace) && trace[|sent|] == regs
  }

  lemma RunNext(acts: seq<Act>, worlds: seq<World>, m: nat, n: nat)
    requires m < n <= |acts| && |worlds| == |acts| + 1 && ExecutesPacket(worlds[n - 1], acts[n - 1], worlds[n])
    requires RunsTo(ExecutedIn(acts, worlds, m, n - 1), RegsIn(acts, worlds, m, n - 1), worlds[n - 1].regs)
    ensures RunsTo(ExecutedIn(acts, worlds, m, n), RegsIn(acts, worlds, m, n), worlds[n].regs)
  {
    var sent, trace := ExecutedIn(acts, worlds, m, n - 1), RegsIn(acts, worlds, m, n - 1);
    if acts[n - 1].Execute? {
      RunAppend(sent, trace, ExecutedBy(worlds[n - 1], acts[n - 1]), worlds[n].regs);
      assert RegsIn(acts, worlds, m, n) == trace + [worlds[n].regs];
    } else {
      assert ExecutedIn(acts, worlds, m, n) == sent && RegsIn(acts, worlds, m, n) == trace;
    }
  }

  lemma NothingExecuted(acts: seq<Act>, worlds: seq<World>, m: nat)
    requires m <= |acts| && |worlds| == |acts| + 1
    ensures RunsTo(ExecutedIn(acts, worlds, m, m), RegsIn(acts, worlds, m, m), worlds[m].regs)
  {
  }

  lemma {:induction false} ExecutedIsRun(waits: bool, plans: Plans, tenants: seq<Tenant>, acts: seq<Act>,
                                         worlds: seq<World>, m: nat, n: nat)
    requires IsHistory(waits, plans, tenants, acts, worlds) && m <= n < |worlds|
    ensures RunsTo(ExecutedIn(acts, worlds, m, n), RegsIn(acts, worlds, m, n), worlds[n].regs)
  {
    if m == n {
      NothingExecuted(acts, worlds, m);
    } else {
      ExecutedIsRun(waits, plans, tenants, acts, worlds, m, n - 1);
      ActIsStep(waits, plans, tenants, acts, worlds, n - 1);
      RunNext(acts, worlds, m, n);
    }
  }

  lemma InBatchOk(plans: Plans, w: World, t: Tenant)
    requires PlansOk(plans) && WorldInv(w) && Going(w.cp, t)
    ensures HS.TenantOk(InBatch(plans, w, t)) && BA.IsTenant(t)
  {
  }

  // ---------------------------------------------------------------- isolation when nodes wait

  /** Executed while the tenant works on a batch: its own packets for this batch, or packets for other blocks. */
  lemma OwnsNext(plans: Plans, tenants: seq<Tenant>, acts: seq<Act>, worlds: seq<World>, m: nat, n: nat, t: Tenant)
    requires IsHistory(true, plans, tenants, acts, worlds) && SameBatch(worlds, m, n, t) && n < |acts|
    requires acts[n].Execute?
    ensures acts[n].i < |worlds[n].under|
    ensures var p, v := worlds[n].under[acts[n].i], InBatch(plans, worlds[m], t);
      if p.who == t then p.t == v && p.batch == InfoOf(worlds[m].cp, t).batch else p.t.block != v.block
  {
    var w := worlds[n];
    StillGoing(true, plans, tenants, acts, worlds, m, n, t);
    ReachableWorld(true, plans, tenants, acts, worlds, n);
    ReachableCurrent(plans, tenants, acts, worlds, n);
    assert MovesAt(true, plans, acts, worlds, n);
    assert Current(plans, w, w.under[acts[n].i]);
  }

  lemma {:induction false} OwnsInBatch(plans: Plans, tenants: seq<Tenant>, acts: seq<Act>, worlds: seq<World>,
                                       m: nat, n: nat, t: Tenant)
    requires IsHistory(true, plans, tenants, acts, worlds) && SameBatch(worlds, m, n, t)
    ensures HS.Owns(t, InBatch(plans, worlds[m], t), ExecutedIn(acts, worlds, m, n))
  {
    if m < n {
      BatchesGrow(true, plans, tenants, acts, worlds, m, n - 1, t);
      BatchesGrow(true, plans, tenants, acts, worlds, n - 1, n, t);
      OwnsInBatch(plans, tenants, acts, worlds, m, n - 1, t);
      if acts[n - 1].Execute? {
        OwnsNext(plans, tenants, acts, worlds, m, n - 1, t);
        OwnsAppend(t, InBatch(plans, worlds[m], t), ExecutedIn(acts, worlds, m, n - 1),
          ExecutedBy(worlds[n - 1], acts[n - 1]));
      }
    }
  }

  lemma OwnsAppend(who: Tenant, v: HS.Tenant, sent: seq<HS.Sent>, p: HS.Sent)
    requires HS.Owns(who, v, sent) && if p.who == who then p.t == v else p.t.block != v.block
    ensures HS.Owns(who, v, sent + [p])
  {
  }

  /**
    In every history in which nodes wait for their packets, as long as a tenant works on a batch its
    values in the switch are those of the packets that its own nodes sent for this batch, in the order
    in which they are executed.
   */
  lemma BatchIsIsolated(plans: Plans, tenants: seq<Tenant>, acts: seq<Act>, worlds: seq<World>, m: nat, n: nat,
                        t: Tenant)
    requires IsHistory(true, plans, tenants, acts, worlds) && SameBatch(worlds, m, n, t)
    ensures var v := InBatch(plans, worlds[m], t);
      HS.Values(v, worlds[n].regs) == HS.Exec(HS.Values(v, worlds[m].regs), HS.From(ExecutedIn(acts, worlds, m, n), t))
    ensures forall i :: 0 <= i < |worlds[n].under| && worlds[n].under[i].who == t ==>
      worlds[n].under[i].batch == InfoOf(worlds[m].cp, t).batch
  {
    ReachableWorld(true, plans, tenants, acts, worlds, m);
    InBatchOk(plans, worlds[m], t);
    ExecutedIsRun(true, plans, tenants, acts, worlds, m, n);
    OwnsInBatch(plans, tenants, acts, worlds, m, n, t);
    HS.TenantsAreIsolated(ExecutedIn(acts, worlds, m, n), RegsIn(acts, worlds, m, n), t, InBatch(plans, worlds[m], t));
    ReachableCurrent(plans, tenants, acts, worlds, n);
    forall i | 0 <= i < |worlds[n].under| && worlds[n].under[i].who == t
      ensures worlds[n].under[i].batch == InfoOf(worlds[m].cp, t).batch
    {
      assert Current(plans, worlds[n], worlds[n].under[i]);
    }
  }

  /** And every reply is what the operations of its own tenant for the batch left. */
  lemma RepliesAreIsolated(plans: Plans, tenants: seq<Tenant>, acts: seq<Act>, worlds: seq<World>, m: nat, n: nat,
                           i: nat)
    requires IsHistory(true, plans, tenants, acts, worlds) && n < |acts| && acts[n].Execute?
    requires acts[n].i < |worlds[n].under|
    requires i < |worlds[n].under[acts[n].i].ops| && SameBatch(worlds, m, n, worlds[n].under[acts[n].i].who)
    ensures var p := worlds[n].under[acts[n].i];
      var before := HS.Exec(HS.Values(InBatch(plans, worlds[m], p.who), worlds[m].regs),
        HS.From(ExecutedIn(acts, worlds, m, n), p.who));
      HS.Answers(acts[n].d, p.ops[i], HS.Exec(before, p.ops[..i]))
  {
    var w, act := worlds[n], acts[n];
    var p := w.under[act.i];
    BatchIsIsolated(plans, tenants, acts, worlds, m, n, p.who);
    OwnsNext(plans, tenants, acts, worlds, m, n, p.who);
    ReachableFlying(true, plans, tenants, acts, worlds, n);
    assert FlyingOk(plans, p);
    assert MovesAt(true, plans, acts, worlds, n);
    HS.PacketIsTxn(p.t, p.ops, w.regs, worlds[n + 1].regs, act.d);
  }

  // ---------------------------------------------------------------- and exactly when without

  /**
    Isolation of tenants from one another: while a tenant works on a batch its values are changed by
    packets of its own for this block only, be they of this batch or left over from an earlier one.
   */
  ghost predicate Isolated(plans: Plans, acts: seq<Act>, worlds: seq<World>) {
    forall m: nat, n: nat, t: Tenant :: |worlds| == |acts| + 1 && SameBatch(worlds, m, n, t) ==>
      IsolatedBetween(plans, acts, worlds, m, n, t)
  }

  ghost predicate IsolatedBetween(plans: Plans, acts: seq<Act>, worlds: seq<World>, m: nat, n: nat, t: Tenant)
    requires |worlds| == |acts| + 1 && m <= n < |worlds|
  {
    var v := InBatch(plans, worlds[m], t);
    HS.Values(v, worlds[n].regs) ==
      HS.Exec(HS.Values(v, worlds[m].regs), HS.FromAs(ExecutedIn(acts, worlds, m, n), t, v))
  }

  /** Act `n` executes a packet of a tenant for the block that the tenant has had since moment `m`. */
  ghost predicate OwnReply(plans: Plans, acts: seq<Act>, worlds: seq<World>, m: nat, n: nat) {
    && |worlds| == |acts| + 1 && n < |acts| && acts[n].Execute? && acts[n].i < |worlds[n].under|
    && var p := worlds[n].under[acts[n].i];
       SameBatch(worlds, m, n, p.who) && p.t == InBatch(plans, worlds[m], p.who)
  }

  /** The reply is what the packet's operations read, one after another, on a store with these values. */
  predicate AnswersAll(p: Flying, d: seq<nat>, kv: map<HotCold.Key, nat>) {
    forall i :: 0 <= i < |p.ops| ==> HS.Answers(d, p.ops[i], HS.Exec(kv, p.ops[..i]))
  }

  ghost predicate ReplyBetween(plans: Plans, acts: seq<Act>, worlds: seq<World>, m: nat, n: nat)
    requires OwnReply(plans, acts, worlds, m, n)
  {
    var p := worlds[n].under[acts[n].i];
    var own := HS.FromAs(ExecutedIn(acts, worlds, m, n), p.who, p.t);
    AnswersAll(p, acts[n].d, HS.Exec(HS.Values(p.t, worlds[m].regs), own))
  }

  /** Replies, too, depend on the tenant's own packets only. */
  ghost predicate RepliesIsolated(plans: Plans, acts: seq<Act>, worlds: seq<World>) {
    forall m: nat, n: nat :: OwnReply(plans, acts, worlds, m, n) ==> ReplyBetween(plans, acts, worlds, m, n)
  }

  /** Two different tenants have hot keys at the same place of a block. */
  ghost predicate TenantsShareSlots(plans: Plans) {
    exists a: Tenant, b: Tenant :: BA.IsTenant(a) && BA.IsTenant(b) && a != b && HS.ShareSlot(plans(a), plans(b))
  }

  lemma HarmlessNext(waits: bool, plans: Plans, tenants: seq<Tenant>, acts: seq<Act>, worlds: seq<World>, m: nat,
                     n: nat, t: Tenant)
    requires waits || !TenantsShareSlots(plans)
    requires IsHistory(waits, plans, tenants, acts, worlds) && SameBatch(worlds, m, n, t) && n < |acts|
    requires acts[n].Execute?
    ensures acts[n].i < |worlds[n].under|
    ensures HS.Harmless(ExecutedBy(worlds[n], acts[n]), t, InBatch(plans, worlds[m], t))
  {
    if waits {
      OwnsNext(plans, tenants, acts, worlds, m, n, t);
    } else {
      assert MovesAt(waits, plans, acts, worlds, n);
      ReachableFlying(waits, plans, tenants, acts, worlds, n);
      ReachableWorld(waits, plans, tenants, acts, worlds, m);
      InBatchOk(plans, worlds[m], t);
      assert FlyingOk(plans, worlds[n].under[acts[n].i]);
    }
  }

  ghost predicate AllHarmless(sent: seq<HS.Sent>, who: Tenant, v: HS.Tenant) {
    forall i :: 0 <= i < |sent| ==> HS.Harmless(sent[i], who, v)
  }

  lemma {:induction false} HarmlessInBatch(waits: bool, plans: Plans, tenants: seq<Tenant>, acts: seq<Act>,
                                           worlds: seq<World>, m: nat, n: nat, t: Tenant)
    requires waits || !TenantsShareSlots(plans)
    requires IsHistory(waits, plans, tenants, acts, worlds) && SameBatch(worlds, m, n, t)
    ensures AllHarmless(ExecutedIn(acts, worlds, m, n), t, InBatch(plans, worlds[m], t))
  {
    if m < n {
      BatchesGrow(waits, plans, tenants, acts, worlds, m, n - 1, t);
      BatchesGrow(waits, plans, tenants, acts, worlds, n - 1, n, t);
      HarmlessInBatch(waits, plans, tenants, acts, worlds, m, n - 1, t);
      if acts[n - 1].Execute? {
        HarmlessNext(waits, plans, tenants, acts, worlds, m, n - 1, t);
      }
    }
  }

  /** A packet is answered by the values that its tenant has when it is executed. */
  lemma ReplyToPacket(waits: bool, plans: Plans, tenants: seq<Tenant>, acts: seq<Act>, worlds: seq<World>, n: nat)
    requires IsHistory(waits, plans, tenants, acts, worlds) && n < |acts| && acts[n].Execute?
    ensures acts[n].i < |worlds[n].under|
    ensures var p := worlds[n].under[acts[n].i]; AnswersAll(p, acts[n].d, HS.Values(p.t, worlds[n].regs))
  {
    ActIsStep(waits, plans, tenants, acts, worlds, n);
    var p := worlds[n].under[acts[n].i];
    HS.PacketIsTxn(p.t, p.ops, worlds[n].regs, worlds[n + 1].regs, acts[n].d);
  }

  lemma WaitingIsolatesReplies(waits: bool, plans: Plans, tenants: seq<Tenant>, acts: seq<Act>, worlds: seq<World>)
    requires IsHistory(waits, plans, tenants, acts, worlds) && Isolated(plans, acts, worlds)
    ensures RepliesIsolated(plans, acts, worlds)
  {
    forall m: nat, n: nat | OwnReply(plans, acts, worlds, m, n)
      ensures ReplyBetween(plans, acts, worlds, m, n)
    {
      ReplyToPacket(waits, plans, tenants, acts, worlds, n);
      assert IsolatedBetween(plans, acts, worlds, m, n, worlds[n].under[acts[n].i].who);
    }
  }

  /** Tenants are isolated if nodes wait, and also if no two tenants have hot keys at the same place. */
  lemma WaitingIsolates(waits: bool, plans: Plans, tenants: seq<Tenant>, acts: seq<Act>, worlds: seq<World>)
    requires (waits || !TenantsShareSlots(plans)) && IsHistory(waits, plans, tenants, acts, worlds)
    ensures Isolated(plans, acts, worlds) && RepliesIsolated(plans, acts, worlds)
  {
    forall m: nat, n: nat, t: Tenant | SameBatch(worlds, m, n, t)
      ensures IsolatedBetween(plans, acts, worlds, m, n, t)
    {
      ReachableWorld(waits, plans, tenants, acts, worlds, m);
      InBatchOk(plans, worlds[m], t);
      ExecutedIsRun(waits, plans, tenants, acts, worlds, m, n);
      HarmlessInBatch(waits, plans, tenants, acts, worlds, m, n, t);
      HS.HarmlessRun(ExecutedIn(acts, worlds, m, n), RegsIn(acts, worlds, m, n), t, InBatch(plans, worlds[m], t));
    }
    WaitingIsolatesReplies(waits, plans, tenants, acts, worlds);
  }
}
