/**
  The request loop of the control plane with the nodes that talk to it: one allocation per tenant
  and batch, answered from a cache to all the tenant's nodes, and one ready message to each of them
  when the tenant heads its block's queue and all have their answer.
 */
module ControlPlane {
  import BA = BlockAllocator

  type Tenant = BA.Tenant
  type Block = BA.Block
  type Time = BA.Time
  type Fd = nat

  const NO_BLOCK: Block := 0xFFFF_FFFF

  datatype Msg = Resp(batch: nat, blk: Block) | Ready

  /** A node may ask, has asked, has been served and waits for its answer, or waits to be told to go. */
  datatype Phase = Idle | Requested | AwaitResp | AwaitReady

  datatype Node = Node(tenant: Tenant, phase: Phase, batch: nat, block: Block, inbox: seq<Msg>)

  datatype Info = Info(batch: nat, blk: Block, uses: nat, fds: set<Fd>)

  datatype Grant = Grant(tenant: Tenant, batch: nat, blk: Block)

  datatype Told = Told(tenant: Tenant, batch: nat)

  /**
    `grants` and `frees` list all allocations and frees, and `told` says who was told to go for which
    batch; none of them is read.
   */
  datatype State = State(alloc: BA.Alloc, info: map<Tenant, Info>, nodes: seq<Node>, grants: seq<Grant>,
                         frees: seq<Grant>, told: set<Told>)

  function InfoOf(s: State, t: Tenant): Info {
    if t in s.info then s.info[t] else Info(0, 0, 0, {})
  }

  /** The nodes of a tenant; a request says how many they are. */
  function Members(s: State, t: Tenant): set<Fd> {
    set fd: Fd | fd < |s.nodes| && s.nodes[fd].tenant == t
  }

  datatype Step = Ask(fd: Fd) | Serve(fd: Fd, start: Time, duration: Time) | Take(fd: Fd)

  // ---------------------------------------------------------------- serving a request

  predicate Fresh(s: State, fd: Fd)
    requires fd < |s.nodes|
  {
    InfoOf(s, s.nodes[fd].tenant).batch != s.nodes[fd].batch
  }

  /** What `handle_free` and `handle_alloc` assert, and the indices they use. */
  ghost predicate FreeOk(a: BA.Alloc, t: Tenant, b: Block) {
    BA.Shape(a) && b < BA.N_BLOCKS && BA.At(a, b, 0, t) && (|a.queue[b]| > 1 ==> a.queue[b][1] < BA.N_MAX_TENANTS)
  }

  ghost predicate AllocOk(a: BA.Alloc, t: Tenant, start: Time) {
    BA.Shape(a) && BA.IsTenant(t) && a.waiting[t] == 0 && BA.Found(a, start).blk < BA.N_BLOCKS
  }

  ghost function AfterFree(s: State, fd: Fd): BA.Alloc
    requires fd < |s.nodes|
    requires s.nodes[fd].block != NO_BLOCK ==> FreeOk(s.alloc, s.nodes[fd].tenant, s.nodes[fd].block)
  {
    var x := s.nodes[fd];
    if x.block != NO_BLOCK then BA.DoFree(s.alloc, x.block) else s.alloc
  }

  ghost predicate AssertionsHold(s: State, fd: Fd, start: Time)
    requires fd < |s.nodes|
  {
    var x := s.nodes[fd];
    Fresh(s, fd) ==>
      && (x.block != NO_BLOCK ==> FreeOk(s.alloc, x.tenant, x.block))
      && AllocOk(AfterFree(s, fd), x.tenant, start)
  }

  /** The first request for a batch frees the old block and allocates a new one. */
  ghost function Renewed(s: State, fd: Fd, start: Time, duration: Time): State
    requires fd < |s.nodes| && AssertionsHold(s, fd, start)
  {
    var x := s.nodes[fd];
    if !Fresh(s, fd) then s else
      var a := AfterFree(s, fd);
      var blk := BA.Found(a, start).blk;
      s.(alloc := BA.DoAlloc(a, x.tenant, start, duration),
         info := s.info[x.tenant := Info(x.batch, blk, 0, InfoOf(s, x.tenant).fds)],
         grants := s.grants + [Grant(x.tenant, x.batch, blk)],
         frees := s.frees + if x.block != NO_BLOCK then [Grant(x.tenant, InfoOf(s, x.tenant).batch, x.block)] else [])
  }

  /** Every request is answered from the cache. */
  function Answered(s: State, fd: Fd): State
    requires fd < |s.nodes|
  {
    var x := s.nodes[fd];
    var i := InfoOf(s, x.tenant);
    s.(info := s.info[x.tenant := i.(uses := i.uses + 1, fds := i.fds + {fd})],
       nodes := s.nodes[fd := x.(phase := AwaitResp, inbox := x.inbox + [Resp(i.batch, i.blk)])])
  }

  predicate Complete(s: State, t: Tenant) {
    |InfoOf(s, t).fds| == |Members(s, t)| && InfoOf(s, t).uses == |Members(s, t)|
  }

  function GoesNow(s: State): set<Tenant> {
    set t | t in s.alloc.notify && Complete(s, t)
  }

  function Inform(s: State, now: set<Tenant>, fd: Fd): Node
    requires fd < |s.nodes|
  {
    var x := s.nodes[fd];
    if x.tenant in now && fd in InfoOf(s, x.tenant).fds then x.(inbox := x.inbox + [Ready]) else x
  }

  /** Tells the tenants that can go, each on all its connections. */
  function Notified(s: State): State {
    var now := GoesNow(s);
    s.(alloc := s.alloc.(notify := s.alloc.notify - now),
       nodes := seq(|s.nodes|, fd requires 0 <= fd < |s.nodes| => Inform(s, now, fd)),
       told := s.told + (set t | t in now :: Told(t, InfoOf(s, t).batch)))
  }

  ghost function Served(s: State, fd: Fd, start: Time, duration: Time): State
    requires fd < |s.nodes| && AssertionsHold(s, fd, start)
  {
    var s' := Answered(Renewed(s, fd, start, duration), fd);
    var t := s.nodes[fd].tenant;
    if |InfoOf(s', t).fds| == |Members(s', t)| then Notified(s') else s'
  }

  // ---------------------------------------------------------------- nodes

  /** Asks for the next batch, giving back the block it has. */
  function Asked(x: Node): Node {
    x.(phase := Requested, batch := x.batch + 1)
  }

  function Took(x: Node): Node
    requires x.inbox != []
  {
    match x.inbox[0]
    case Resp(_, blk) => x.(phase := AwaitReady, block := blk, inbox := x.inbox[1..])
    case Ready => x.(phase := Idle, inbox := x.inbox[1..])
  }

  ghost predicate Enabled(s: State, step: Step) {
    && step.fd < |s.nodes|
    && var x := s.nodes[step.fd];
       match step
       case Ask(fd) => x.phase == Idle
       case Serve(fd, start, duration) => x.phase == Requested && AssertionsHold(s, fd, start)
       case Take(fd) => (x.phase == AwaitResp || x.phase == AwaitReady) && x.inbox != []
  }

  ghost function Next(s: State, step: Step): State
    requires Enabled(s, step)
  {
    match step
    case Ask(fd) => s.(nodes := s.nodes[fd := Asked(s.nodes[fd])])
    case Serve(fd, start, duration) => Served(s, fd, start, duration)
    case Take(fd) => s.(nodes := s.nodes[fd := Took(s.nodes[fd])])
  }

  function Init(tenants: seq<Tenant>): State {
    State(BA.Init(), map[], seq(|tenants|, fd requires 0 <= fd < |tenants| => Node(tenants[fd], Idle, 0, NO_BLOCK, [])),
      [], [], {})
  }

  ghost predicate IsRun(tenants: seq<Tenant>, steps: seq<Step>, states: seq<State>) {
    && (forall fd :: 0 <= fd < |tenants| ==> BA.IsTenant(tenants[fd]))
    && |states| == |steps| + 1 && states[0] == Init(tenants)
    && forall n :: 0 <= n < |steps| ==> Enabled(states[n], steps[n]) && states[n + 1] == Next(states[n], steps[n])
  }

  // ---------------------------------------------------------------- the invariant

  /** The request for the cached batch has been served. */
  predicate Handled(x: Node, i: Info) {
    i.batch > 0 && (x.batch == i.batch + 1 || (x.batch == i.batch && x.phase != Requested))
  }

  function HandledBy(s: State, t: Tenant): set<Fd> {
    set fd: Fd | fd < |s.nodes| && s.nodes[fd].tenant == t && Handled(s.nodes[fd], InfoOf(s, t))
  }

  /** The tenant was told to go for its cached batch. */
  predicate Going(s: State, t: Tenant) {
    InfoOf(s, t).batch > 0 && BA.At(s.alloc, InfoOf(s, t).blk, 0, t) && t !in s.alloc.notify
  }

  predicate IfGoing(going: bool, inbox: seq<Msg>) {
    inbox == if going then [Ready] else []
  }

  /** Where a node can be while its tenant's cached batch is that of `i`. */
  predicate NodeOk(x: Node, i: Info, going: bool) {
    if x.batch == i.batch + 1 then
      x.phase == Requested && x.inbox == [] && if i.batch == 0 then x.block == NO_BLOCK else going && x.block == i.blk
    else if x.batch == i.batch && i.batch > 0 then
      match x.phase
      case Requested => x.inbox == []
      case AwaitResp => |x.inbox| > 0 && x.inbox[0] == Resp(i.batch, i.blk) && IfGoing(going, x.inbox[1..])
      case AwaitReady => x.block == i.blk && IfGoing(going, x.inbox)
      case Idle => x.block == i.blk && going && x.inbox == []
    else if x.batch == 0 then
      i.batch <= 1 && x.phase == Idle && x.inbox == [] && x.block == NO_BLOCK
    else
      && x.batch + 1 == i.batch
      && match x.phase
         case Requested => false
         case AwaitResp => |x.inbox| == 2 && x.inbox[0].Resp? && x.inbox[0].batch == x.batch && x.inbox[1] == Ready
         case AwaitReady => x.inbox == [Ready]
         case Idle => x.inbox == []
  }

  ghost predicate NodesInv(s: State) {
    forall fd :: 0 <= fd < |s.nodes| ==>
      BA.IsTenant(s.nodes[fd].tenant)
      && NodeOk(s.nodes[fd], InfoOf(s, s.nodes[fd].tenant), Going(s, s.nodes[fd].tenant))
  }

  ghost predicate UsesInv(s: State, t: Tenant) {
    var i := InfoOf(s, t);
    && i.uses == |HandledBy(s, t)|
    && i.fds == (if i.batch <= 1 then HandledBy(s, t) else Members(s, t))
    && (Going(s, t) ==> i.uses == |Members(s, t)|)
  }

  /** The tenant waits in the queue of its cached block, and is to be told only if it heads it. */
  ghost predicate QueueInv(s: State, t: Tenant) {
    var i := InfoOf(s, t);
    && (i.batch == 0 ==> !BA.Queued(s.alloc, t) && t !in s.alloc.notify)
    && (i.batch > 0 ==> exists p: nat :: BA.At(s.alloc, i.blk, p, t))
    && (t in s.alloc.notify ==> BA.At(s.alloc, i.blk, 0, t))
  }

  ghost predicate TenantsInv(s: State) {
    forall t: Tenant :: UsesInv(s, t) && QueueInv(s, t)
  }

  ghost predicate Inv(s: State) {
    BA.Inv(s.alloc) && NodesInv(s) && TenantsInv(s)
  }

  // ---------------------------------------------------------------- asking and taking

  lemma HandledIsMember(s: State, t: Tenant)
    ensures HandledBy(s, t) <= Members(s, t)
    ensures |HandledBy(s, t)| <= |Members(s, t)|
    ensures |HandledBy(s, t)| == |Members(s, t)| ==> HandledBy(s, t) == Members(s, t)
  {
    var h, m := HandledBy(s, t), Members(s, t);
    assert m == h + (m - h);
  }

  lemma SameTenants(s: State, s': State)
    requires |s'.nodes| == |s.nodes| && s'.alloc == s.alloc && s'.info == s.info && TenantsInv(s)
    requires forall fd :: 0 <= fd < |s.nodes| ==>
      && s'.nodes[fd].tenant == s.nodes[fd].tenant
      && (Handled(s'.nodes[fd], InfoOf(s, s.nodes[fd].tenant)) <==> Handled(s.nodes[fd], InfoOf(s, s.nodes[fd].tenant)))
    ensures TenantsInv(s')
  {
    forall t: Tenant
      ensures UsesInv(s', t) && QueueInv(s', t)
    {
      assert UsesInv(s, t) && QueueInv(s, t);
      assert Members(s', t) == Members(s, t);
      assert HandledBy(s', t) == HandledBy(s, t);
    }
  }

  lemma AskKeepsInv(s: State, fd: Fd)
    requires Inv(s) && Enabled(s, Ask(fd))
    ensures Inv(Next(s, Ask(fd)))
  {
    SameTenants(s, Next(s, Ask(fd)));
  }

  lemma TakeKeepsInv(s: State, fd: Fd)
    requires Inv(s) && Enabled(s, Take(fd))
    ensures Inv(Next(s, Take(fd)))
  {
    SameTenants(s, Next(s, Take(fd)));
  }

  // ---------------------------------------------------------------- the first request for a batch

  /**
    A node that asks for a new batch was told to go for the one before, so its tenant heads the block
    it gives back.
   */
  lemma FreshNode(s: State, fd: Fd)
    requires Inv(s) && fd < |s.nodes| && s.nodes[fd].phase == Requested && Fresh(s, fd)
    ensures var x := s.nodes[fd]; var i := InfoOf(s, x.tenant);
      && x.batch == i.batch + 1 && BA.IsTenant(x.tenant) && x.tenant !in s.alloc.notify
      && (if i.batch == 0 then x.block == NO_BLOCK && !BA.Queued(s.alloc, x.tenant)
          else
            && Going(s, x.tenant) && x.block == i.blk != NO_BLOCK
            && x.block < BA.N_BLOCKS && BA.At(s.alloc, x.block, 0, x.tenant))
  {
    assert QueueInv(s, s.nodes[fd].tenant);
  }

  lemma FreedAlloc(s: State, fd: Fd)
    requires Inv(s) && fd < |s.nodes| && s.nodes[fd].phase == Requested && Fresh(s, fd)
    ensures var x := s.nodes[fd]; var t0, b0 := x.tenant, x.block;
      && (b0 != NO_BLOCK ==> FreeOk(s.alloc, t0, b0))
      && var a := AfterFree(s, fd);
      && BA.Inv(a) && !BA.Queued(a, t0) && t0 !in a.notify
      && (forall b: nat, p: nat, t: Tenant :: BA.At(a, b, p, t) <==> BA.At(s.alloc, b, if b == b0 then p + 1 else p, t))
      && (forall t: Tenant :: t in a.notify <==> t in s.alloc.notify || BA.At(s.alloc, b0, 1, t))
  {
    FreshNode(s, fd);
    var x := s.nodes[fd];
    if x.block != NO_BLOCK {
      BA.FreeAt(s.alloc, x.block);
      BA.FreeKeepsInv(s.alloc, x.block);
    }
  }

  /** No assertion of the allocator fails, whoever is served. */
  lemma RequestsAreSafe(s: State, fd: Fd, start: Time)
    requires Inv(s) && fd < |s.nodes| && s.nodes[fd].phase == Requested
    ensures AssertionsHold(s, fd, start)
  {
    if Fresh(s, fd) {
      FreedAlloc(s, fd);
      FreshNode(s, fd);
      BA.AllocReady(AfterFree(s, fd), s.nodes[fd].tenant, start);
    }
  }

  /**
    Tenant `t0` has left block `b0`, if it had one, and queued up for `blk`; whoever was next on `b0`
    is to be told.
   */
  ghost predicate Moved(a: BA.Alloc, a': BA.Alloc, t0: Tenant, b0: Block, blk: Block) {
    && BA.Inv(a')
    && (exists p: nat :: BA.At(a', blk, p, t0)) && (t0 in a'.notify <==> BA.At(a', blk, 0, t0))
    && (forall b: nat, p: nat, t: Tenant :: t != t0 ==>
       (BA.At(a', b, p, t) <==> BA.At(a, b, if b == b0 then p + 1 else p, t)))
    && (forall t: Tenant :: t != t0 ==> (t in a'.notify <==> t in a.notify || BA.At(a, b0, 1, t)))
  }

  lemma AllocMoves(a: BA.Alloc, t0: Tenant, start: Time, duration: Time)
    requires BA.Inv(a) && BA.IsTenant(t0) && !BA.Queued(a, t0) && t0 !in a.notify
    ensures var a', blk := BA.DoAlloc(a, t0, start, duration), BA.Found(a, start).blk;
      && BA.Inv(a')
      && (exists p: nat :: BA.At(a', blk, p, t0)) && (t0 in a'.notify <==> BA.At(a', blk, 0, t0))
      && (forall b: nat, p: nat, t: Tenant :: t != t0 ==> (BA.At(a', b, p, t) <==> BA.At(a, b, p, t)))
      && (forall t: Tenant :: t != t0 ==> (t in a'.notify <==> t in a.notify))
  {
    BA.AllocKeepsInv(a, t0, start, duration);
    BA.AllocAt(a, t0, start, duration);
    var blk := BA.Found(a, start).blk;
    assert BA.At(BA.DoAlloc(a, t0, start, duration), blk, |a.queue[blk]|, t0);
  }

  lemma RenewedAlloc(s: State, fd: Fd, start: Time, duration: Time)
    requires Inv(s) && fd < |s.nodes| && s.nodes[fd].phase == Requested && Fresh(s, fd) && AssertionsHold(s, fd, start)
    ensures var s', t0 := Renewed(s, fd, start, duration), s.nodes[fd].tenant;
      Moved(s.alloc, s'.alloc, t0, s.nodes[fd].block, InfoOf(s', t0).blk)
  {
    FreshNode(s, fd);
    FreedAlloc(s, fd);
    AllocMoves(AfterFree(s, fd), s.nodes[fd].tenant, start, duration);
  }

  /** The state after a renewal, as far as the invariant goes. */
  ghost predicate IsRenewed(s: State, s': State, fd: Fd) {
    && fd < |s.nodes| && s.nodes[fd].phase == Requested && Fresh(s, fd) && s'.nodes == s.nodes
    && var x := s.nodes[fd];
    && s'.info == s.info[x.tenant := InfoOf(s', x.tenant)]
    && InfoOf(s', x.tenant) == Info(x.batch, InfoOf(s', x.tenant).blk, 0, InfoOf(s, x.tenant).fds)
    && Moved(s.alloc, s'.alloc, x.tenant, x.block, InfoOf(s', x.tenant).blk)
  }

  /** For the other tenants nothing changes but, maybe, their place in the queue. */
  lemma RenewedOthers(s: State, s': State, fd: Fd, t: Tenant)
    requires Inv(s) && IsRenewed(s, s', fd) && t != s.nodes[fd].tenant
    ensures InfoOf(s', t) == InfoOf(s, t) && (Going(s', t) <==> Going(s, t)) && QueueInv(s', t)
  {
    FreshNode(s, fd);
    var x, i := s.nodes[fd], InfoOf(s, t);
    assert QueueInv(s, t);
    if i.batch > 0 {
      var p: nat :| BA.At(s.alloc, i.blk, p, t);
      assert i.blk == x.block ==> p > 0;
      assert BA.At(s'.alloc, i.blk, if i.blk == x.block then p - 1 else p, t);
    }
  }

  lemma RenewedUses(s: State, s': State, fd: Fd, t: Tenant)
    requires Inv(s) && IsRenewed(s, s', fd)
    ensures UsesInv(s', t)
  {
    FreshNode(s, fd);
    var t0 := s.nodes[fd].tenant;
    assert UsesInv(s, t);
    assert Members(s', t) == Members(s, t);
    if t != t0 {
      RenewedOthers(s, s', fd, t);
      assert HandledBy(s', t) == HandledBy(s, t);
    } else {
      assert HandledBy(s', t) == {};
      HandledIsMember(s, t);
    }
  }

  lemma GoingAllHandled(s: State, fd: Fd)
    requires Inv(s) && fd < |s.nodes| && Going(s, s.nodes[fd].tenant)
    ensures Handled(s.nodes[fd], InfoOf(s, s.nodes[fd].tenant))
  {
    var t := s.nodes[fd].tenant;
    assert UsesInv(s, t);
    HandledIsMember(s, t);
    assert fd in Members(s, t);
  }

  lemma RenewedKeepsInv(s: State, s': State, fd: Fd)
    requires Inv(s) && IsRenewed(s, s', fd)
    ensures Inv(s')
  {
    FreshNode(s, fd);
    var t0 := s.nodes[fd].tenant;
    forall t: Tenant
      ensures UsesInv(s', t) && QueueInv(s', t)
    {
      RenewedUses(s, s', fd, t);
      if t != t0 {
        RenewedOthers(s, s', fd, t);
      }
    }
    forall fd' | 0 <= fd' < |s'.nodes|
      ensures NodeOk(s'.nodes[fd'], InfoOf(s', s'.nodes[fd'].tenant), Going(s', s'.nodes[fd'].tenant))
    {
      var t := s.nodes[fd'].tenant;
      assert NodeOk(s.nodes[fd'], InfoOf(s, t), Going(s, t));
      if t != t0 {
        RenewedOthers(s, s', fd, t);
      } else if Going(s, t0) {
        GoingAllHandled(s, fd');
      }
    }
  }

  // ---------------------------------------------------------------- the answer

  lemma NotServedYet(s: State, fd: Fd)
    requires Inv(s) && fd < |s.nodes| && s.nodes[fd].phase == Requested && !Fresh(s, fd)
    ensures var t0 := s.nodes[fd].tenant;
      && InfoOf(s, t0).batch > 0 && !Going(s, t0) && fd in Members(s, t0) && fd !in HandledBy(s, t0)
  {
    assert NodeOk(s.nodes[fd], InfoOf(s, s.nodes[fd].tenant), Going(s, s.nodes[fd].tenant));
    if Going(s, s.nodes[fd].tenant) {
      GoingAllHandled(s, fd);
    }
  }

  lemma AnsweredHandled(s: State, fd: Fd, t: Tenant)
    requires Inv(s) && fd < |s.nodes| && s.nodes[fd].phase == Requested && !Fresh(s, fd)
    ensures var s' := Answered(s, fd);
      && Members(s', t) == Members(s, t)
      && HandledBy(s', t) == HandledBy(s, t) + (if t == s.nodes[fd].tenant then {fd} else {})
      && InfoOf(s', t).batch == InfoOf(s, t).batch && InfoOf(s', t).blk == InfoOf(s, t).blk
  {
    NotServedYet(s, fd);
  }

  lemma AnsweredUses(s: State, fd: Fd, t: Tenant)
    requires Inv(s) && fd < |s.nodes| && s.nodes[fd].phase == Requested && !Fresh(s, fd)
    ensures UsesInv(Answered(s, fd), t)
  {
    NotServedYet(s, fd);
    AnsweredHandled(s, fd, t);
    assert UsesInv(s, t);
    if t == s.nodes[fd].tenant {
      AnsweredInfo(s, fd);
    }
  }

  lemma AnsweredInfo(s: State, fd: Fd)
    requires fd < |s.nodes|
    ensures var t0 := s.nodes[fd].tenant; var i, i' := InfoOf(s, t0), InfoOf(Answered(s, fd), t0);
      i'.uses == i.uses + 1 && i'.fds == i.fds + {fd}
  {
  }

  lemma AnsweredKeepsInv(s: State, fd: Fd)
    requires Inv(s) && fd < |s.nodes| && s.nodes[fd].phase == Requested && !Fresh(s, fd)
    ensures Inv(Answered(s, fd))
  {
    var s', t0 := Answered(s, fd), s.nodes[fd].tenant;
    forall t: Tenant
      ensures UsesInv(s', t) && QueueInv(s', t) && (Going(s', t) <==> Going(s, t))
      ensures InfoOf(s', t).batch == InfoOf(s, t).batch && InfoOf(s', t).blk == InfoOf(s, t).blk
    {
      AnsweredUses(s, fd, t);
      AnsweredHandled(s, fd, t);
      assert QueueInv(s, t);
    }
    forall fd' | 0 <= fd' < |s'.nodes|
      ensures NodeOk(s'.nodes[fd'], InfoOf(s', s'.nodes[fd'].tenant), Going(s', s'.nodes[fd'].tenant))
    {
      AnsweredHandled(s, fd, s.nodes[fd'].tenant);
      NotServedYet(s, fd);
      assert NodeOk(s.nodes[fd'], InfoOf(s, s.nodes[fd'].tenant), Going(s, s.nodes[fd'].tenant));
    }
  }

  // ---------------------------------------------------------------- telling tenants to go

  /** A tenant that is to be told and complete has all its nodes served, and was not told before. */
  lemma CompleteTenant(s: State, t: Tenant)
    requires Inv(s) && t in GoesNow(s)
    ensures !Going(s, t) && InfoOf(s, t).batch > 0 && InfoOf(s, t).fds == HandledBy(s, t) == Members(s, t)
    ensures BA.At(s.alloc, InfoOf(s, t).blk, 0, t)
  {
    assert UsesInv(s, t) && QueueInv(s, t);
    HandledIsMember(s, t);
  }

  lemma NotifiedQueue(s: State, t: Tenant)
    requires QueueInv(s, t)
    ensures var s' := Notified(s);
      && QueueInv(s', t) && InfoOf(s', t) == InfoOf(s, t)
      && (BA.At(s'.alloc, InfoOf(s, t).blk, 0, t) <==> BA.At(s.alloc, InfoOf(s, t).blk, 0, t))
  {
    var s' := Notified(s);
    assert forall b: nat, p: nat, t': Tenant :: BA.At(s'.alloc, b, p, t') <==> BA.At(s.alloc, b, p, t');
    if InfoOf(s, t).batch > 0 {
      var p: nat :| BA.At(s.alloc, InfoOf(s, t).blk, p, t);
      assert BA.At(s'.alloc, InfoOf(s, t).blk, p, t);
    }
  }

  lemma NotifiedMembers(s: State, t: Tenant)
    ensures Members(Notified(s), t) == Members(s, t) && HandledBy(Notified(s), t) == HandledBy(s, t)
  {
  }

  lemma NotifiedTenant(s: State, t: Tenant)
    requires Inv(s)
    ensures var s' := Notified(s);
      && (Going(s', t) <==> Going(s, t) || t in GoesNow(s))
      && UsesInv(s', t) && QueueInv(s', t)
  {
    assert UsesInv(s, t) && QueueInv(s, t);
    if t in GoesNow(s) {
      CompleteTenant(s, t);
    }
    NotifiedQueue(s, t);
    NotifiedMembers(s, t);
  }

  lemma NotifiedAlloc(a: BA.Alloc, now: set<Tenant>)
    requires BA.Inv(a)
    ensures BA.Inv(a.(notify := a.notify - now))
  {
    var a' := a.(notify := a.notify - now);
    assert forall b: nat, p: nat, t: Tenant :: BA.At(a', b, p, t) <==> BA.At(a, b, p, t);
    forall t: Tenant | BA.Queued(a, t)
      ensures BA.Queued(a', t)
    {
      var b: nat, p: nat :| BA.At(a, b, p, t);
      assert BA.At(a', b, p, t);
    }
  }

  lemma NotifiedKeepsInv(s: State)
    requires Inv(s)
    ensures Inv(Notified(s))
  {
    var s' := Notified(s);
    NotifiedAlloc(s.alloc, GoesNow(s));
    forall t: Tenant
      ensures UsesInv(s', t) && QueueInv(s', t)
    {
      NotifiedTenant(s, t);
    }
    forall fd: nat | fd < |s'.nodes|
      ensures NodeOk(s'.nodes[fd], InfoOf(s', s'.nodes[fd].tenant), Going(s', s'.nodes[fd].tenant))
    {
      var t := s.nodes[fd].tenant;
      NotifiedTenant(s, t);
      assert NodeOk(s.nodes[fd], InfoOf(s, t), Going(s, t));
      if t in GoesNow(s) {
        CompleteTenant(s, t);
        assert fd in Members(s, t);
        assert Handled(s.nodes[fd], InfoOf(s, t));
      }
    }
  }

  // ---------------------------------------------------------------- serving

  lemma RenewedStep(s: State, fd: Fd, start: Time, duration: Time)
    requires Inv(s) && fd < |s.nodes| && s.nodes[fd].phase == Requested && AssertionsHold(s, fd, start)
    ensures var s' := Renewed(s, fd, start, duration);
      && Inv(s') && s'.nodes == s.nodes && !Fresh(s', fd)
      && (if Fresh(s, fd) then IsRenewed(s, s', fd) else s' == s)
  {
    if Fresh(s, fd) {
      RenewedAlloc(s, fd, start, duration);
      RenewedKeepsInv(s, Renewed(s, fd, start, duration), fd);
    }
  }

  lemma ServeKeepsInv(s: State, fd: Fd, start: Time, duration: Time)
    requires Inv(s) && fd < |s.nodes| && s.nodes[fd].phase == Requested && AssertionsHold(s, fd, start)
    ensures Inv(Served(s, fd, start, duration))
  {
    RenewedStep(s, fd, start, duration);
    var s1 := Renewed(s, fd, start, duration);
    AnsweredKeepsInv(s1, fd);
    NotifiedKeepsInv(Answered(s1, fd));
  }

  // ---------------------------------------------------------------- nobody is left waiting who could go

  /** Who is to be told still has nodes that were not served. */
  ghost predicate Prompt(s: State) {
    forall t :: t in s.alloc.notify ==> InfoOf(s, t).uses < |Members(s, t)|
  }

  lemma NotifiedPrompt(s: State)
    requires Inv(s)
    ensures Prompt(Notified(s))
  {
    var s' := Notified(s);
    forall t | t in s'.alloc.notify
      ensures InfoOf(s', t).uses < |Members(s', t)|
    {
      assert UsesInv(s, t);
      HandledIsMember(s, t);
      assert Members(s', t) == Members(s, t);
      assert t !in GoesNow(s);
    }
  }

  /** While the tenant's nodes have not all shown up, it has freed nothing, so nobody else is to be told anew. */
  lemma IncompleteRenewed(s: State, s': State, fd: Fd, t: Tenant)
    requires Inv(s) && Prompt(s) && IsRenewed(s, s', fd) && InfoOf(s, s.nodes[fd].tenant).batch == 0
    requires t in s'.alloc.notify && t != s.nodes[fd].tenant
    ensures InfoOf(s', t).uses < |Members(s', t)|
  {
    FreshNode(s, fd);
    RenewedOthers(s, s', fd, t);
    assert Members(s', t) == Members(s, t);
  }

  lemma FirstBatch(s: State, fd: Fd)
    requires Inv(s) && fd < |s.nodes| && s.nodes[fd].phase == Requested && !Fresh(s, fd)
    requires var s', t0 := Answered(s, fd), s.nodes[fd].tenant; |InfoOf(s', t0).fds| != |Members(s', t0)|
    ensures var s', t0 := Answered(s, fd), s.nodes[fd].tenant;
      InfoOf(s, t0).batch <= 1 && InfoOf(s', t0).uses < |Members(s', t0)|
  {
    var s', t0 := Answered(s, fd), s.nodes[fd].tenant;
    AnsweredUses(s, fd, t0);
    AnsweredHandled(s, fd, t0);
    HandledIsMember(s', t0);
  }

  lemma IncompletePrompt(s: State, fd: Fd, start: Time, duration: Time)
    requires Inv(s) && Prompt(s) && fd < |s.nodes| && s.nodes[fd].phase == Requested && AssertionsHold(s, fd, start)
    requires var s' := Answered(Renewed(s, fd, start, duration), fd); var t0 := s.nodes[fd].tenant;
      |InfoOf(s', t0).fds| != |Members(s', t0)|
    ensures Prompt(Answered(Renewed(s, fd, start, duration), fd))
  {
    RenewedStep(s, fd, start, duration);
    var s1, t0 := Renewed(s, fd, start, duration), s.nodes[fd].tenant;
    var s' := Answered(s1, fd);
    FirstBatch(s1, fd);
    if Fresh(s, fd) {
      FreshNode(s, fd);
    }
    forall t | t in s'.alloc.notify && t != t0
      ensures InfoOf(s', t).uses < |Members(s', t)|
    {
      AnsweredHandled(s1, fd, t);
      if Fresh(s, fd) {
        IncompleteRenewed(s, s1, fd, t);
      }
    }
  }

  lemma ServePrompt(s: State, fd: Fd, start: Time, duration: Time)
    requires Inv(s) && Prompt(s) && fd < |s.nodes| && s.nodes[fd].phase == Requested && AssertionsHold(s, fd, start)
    ensures Prompt(Served(s, fd, start, duration))
  {
    RenewedStep(s, fd, start, duration);
    var s' := Answered(Renewed(s, fd, start, duration), fd);
    AnsweredKeepsInv(Renewed(s, fd, start, duration), fd);
    if |InfoOf(s', s.nodes[fd].tenant).fds| == |Members(s', s.nodes[fd].tenant)| {
      NotifiedPrompt(s');
    } else {
      IncompletePrompt(s, fd, start, duration);
    }
  }

  // ---------------------------------------------------------------- the logs

  /** Each tenant was granted blocks for batches in increasing order, up to the cached one. */
  ghost predicate GrantsInv(s: State) {
    && (forall p, q :: 0 <= p < q < |s.grants| && s.grants[p].tenant == s.grants[q].tenant ==>
       s.grants[p].batch < s.grants[q].batch)
    && (forall p :: 0 <= p < |s.grants| ==> 0 < s.grants[p].batch <= InfoOf(s, s.grants[p].tenant).batch)
    && (forall t: Tenant :: CacheGranted(s, t))
    && FreesInv(s)
  }

  /** Every block granted for a batch before the cached one was freed, once, and no other. */
  ghost predicate FreesInv(s: State) {
    && (forall g :: g in s.frees <==> g in s.grants && g.batch < InfoOf(s, g.tenant).batch)
    && (forall p, q :: 0 <= p < q < |s.frees| ==> s.frees[p] != s.frees[q])
  }

  ghost predicate CacheGranted(s: State, t: Tenant) {
    InfoOf(s, t).batch > 0 ==> Grant(t, InfoOf(s, t).batch, InfoOf(s, t).blk) in s.grants
  }

  /** The cached batches and blocks, and who was granted what, stay as they are. */
  lemma SameCacheGrants(s: State, s': State)
    requires GrantsInv(s) && s'.grants == s.grants && s'.frees == s.frees
    requires forall t: Tenant :: InfoOf(s', t).batch == InfoOf(s, t).batch && InfoOf(s', t).blk == InfoOf(s, t).blk
    ensures GrantsInv(s')
  {
    forall t: Tenant
      ensures CacheGranted(s', t)
    {
      assert CacheGranted(s, t);
    }
  }

  /** What a node was told, or will read, is what its tenant was granted for that batch. */
  ghost predicate BlockOk(s: State, x: Node) {
    && (forall k :: 0 <= k < |x.inbox| && x.inbox[k].Resp? ==>
       Grant(x.tenant, x.inbox[k].batch, x.inbox[k].blk) in s.grants)
    && (x.phase == AwaitReady || (x.phase == Idle && x.batch > 0) ==> Grant(x.tenant, x.batch, x.block) in s.grants)
  }

  ghost predicate BlocksInv(s: State) {
    forall fd :: 0 <= fd < |s.nodes| ==> BlockOk(s, s.nodes[fd])
  }

  /** A tenant was told to go for every batch before the cached one, and for that one if it is going. */
  ghost predicate ToldInv(s: State) {
    forall t: Tenant, b: nat :: Told(t, b) in s.told <==>
      0 < b < InfoOf(s, t).batch || (b == InfoOf(s, t).batch && Going(s, t))
  }

  ghost predicate History(s: State) {
    Prompt(s) && GrantsInv(s) && BlocksInv(s) && ToldInv(s)
  }

  lemma RenewedGrants(s: State, s': State, fd: Fd)
    requires Inv(s) && GrantsInv(s) && IsRenewed(s, s', fd)
    requires s'.grants == s.grants + [Grant(s.nodes[fd].tenant, s.nodes[fd].batch, InfoOf(s', s.nodes[fd].tenant).blk)]
    requires s'.frees == s.frees +
      if s.nodes[fd].block != NO_BLOCK then
        [Grant(s.nodes[fd].tenant, InfoOf(s, s.nodes[fd].tenant).batch, s.nodes[fd].block)] else []
    ensures GrantsInv(s')
  {
    FreshNode(s, fd);
    forall t: Tenant
      ensures CacheGranted(s', t)
    {
      assert CacheGranted(s, t);
      if t == s.nodes[fd].tenant {
        assert s'.grants[|s.grants|] == Grant(t, s.nodes[fd].batch, InfoOf(s', t).blk);
      }
    }
    RenewedFrees(s, s', fd);
  }

  lemma GrantIsCached(s: State, g: Grant)
    requires GrantsInv(s) && g in s.grants && g.batch == InfoOf(s, g.tenant).batch
    ensures g.blk == InfoOf(s, g.tenant).blk
  {
    assert CacheGranted(s, g.tenant);
    var p :| 0 <= p < |s.grants| && s.grants[p] == g;
    var q :| 0 <= q < |s.grants| && s.grants[q] == Grant(g.tenant, InfoOf(s, g.tenant).batch, InfoOf(s, g.tenant).blk);
  }

  /** The block given back is the one granted for the batch before, and was not given back yet. */
  lemma RenewedFrees(s: State, s': State, fd: Fd)
    requires Inv(s) && GrantsInv(s) && IsRenewed(s, s', fd)
    requires s'.grants == s.grants + [Grant(s.nodes[fd].tenant, s.nodes[fd].batch, InfoOf(s', s.nodes[fd].tenant).blk)]
    requires s'.frees == s.frees +
      if s.nodes[fd].block != NO_BLOCK then
        [Grant(s.nodes[fd].tenant, InfoOf(s, s.nodes[fd].tenant).batch, s.nodes[fd].block)] else []
    ensures FreesInv(s')
  {
    FreshNode(s, fd);
    var x := s.nodes[fd];
    var i := InfoOf(s, x.tenant);
    assert CacheGranted(s, x.tenant);
    forall g
      ensures g in s'.frees <==> g in s'.grants && g.batch < InfoOf(s', g.tenant).batch
    {
      if g in s.grants && g.tenant == x.tenant && g.batch == i.batch {
        GrantIsCached(s, g);
      }
    }
  }

  lemma RenewedTold(s: State, s': State, fd: Fd)
    requires Inv(s) && ToldInv(s) && IsRenewed(s, s', fd) && s'.told == s.told
    ensures ToldInv(s')
  {
    var t0 := s.nodes[fd].tenant;
    FreshNode(s, fd);
    forall t: Tenant, b: nat
      ensures Told(t, b) in s'.told <==> 0 < b < InfoOf(s', t).batch || (b == InfoOf(s', t).batch && Going(s', t))
    {
      if t != t0 {
        RenewedOthers(s, s', fd, t);
      }
    }
  }

  lemma RenewedHistory(s: State, fd: Fd, start: Time, duration: Time)
    requires Inv(s) && GrantsInv(s) && BlocksInv(s) && ToldInv(s)
    requires fd < |s.nodes| && s.nodes[fd].phase == Requested && AssertionsHold(s, fd, start)
    ensures var s' := Renewed(s, fd, start, duration); GrantsInv(s') && BlocksInv(s') && ToldInv(s')
  {
    RenewedStep(s, fd, start, duration);
    if Fresh(s, fd) {
      RenewedGrants(s, Renewed(s, fd, start, duration), fd);
      RenewedTold(s, Renewed(s, fd, start, duration), fd);
    }
  }

  lemma AnsweredHistory(s: State, fd: Fd)
    requires Inv(s) && GrantsInv(s) && BlocksInv(s) && ToldInv(s)
    requires fd < |s.nodes| && s.nodes[fd].phase == Requested && !Fresh(s, fd)
    ensures var s' := Answered(s, fd); GrantsInv(s') && BlocksInv(s') && ToldInv(s')
  {
    var s' := Answered(s, fd);
    NotServedYet(s, fd);
    forall t: Tenant
      ensures InfoOf(s', t).batch == InfoOf(s, t).batch && InfoOf(s', t).blk == InfoOf(s, t).blk
    {
      AnsweredHandled(s, fd, t);
    }
    SameCacheGrants(s, s');
    assert CacheGranted(s, s.nodes[fd].tenant);
    assert BlockOk(s, s.nodes[fd]);
  }

  lemma NotifiedHistory(s: State)
    requires Inv(s) && GrantsInv(s) && BlocksInv(s) && ToldInv(s)
    ensures var s' := Notified(s); GrantsInv(s') && BlocksInv(s') && ToldInv(s')
  {
    var s' := Notified(s);
    SameCacheGrants(s, s');
    forall t: Tenant, b: nat
      ensures Told(t, b) in s'.told <==> 0 < b < InfoOf(s', t).batch || (b == InfoOf(s', t).batch && Going(s', t))
    {
      NotifiedTenant(s, t);
    }
    forall fd: nat | fd < |s'.nodes|
      ensures BlockOk(s', s'.nodes[fd])
    {
      assert BlockOk(s, s.nodes[fd]);
    }
  }

  lemma ServeHistory(s: State, fd: Fd, start: Time, duration: Time)
    requires Inv(s) && History(s) && fd < |s.nodes| && s.nodes[fd].phase == Requested && AssertionsHold(s, fd, start)
    ensures History(Served(s, fd, start, duration))
  {
    ServePrompt(s, fd, start, duration);
    RenewedStep(s, fd, start, duration);
    RenewedHistory(s, fd, start, duration);
    var s1 := Renewed(s, fd, start, duration);
    AnsweredKeepsInv(s1, fd);
    AnsweredHistory(s1, fd);
    NotifiedHistory(Answered(s1, fd));
  }

  lemma NodeStepBlocks(s: State, step: Step)
    requires NodesInv(s) && BlocksInv(s) && Enabled(s, step) && !step.Serve?
    ensures BlocksInv(Next(s, step))
  {
    var x := s.nodes[step.fd];
    assert BlockOk(s, x);
    assert NodeOk(x, InfoOf(s, x.tenant), Going(s, x.tenant));
  }

  lemma NodeStepHistory(s: State, step: Step)
    requires Inv(s) && History(s) && Enabled(s, step) && !step.Serve?
    ensures History(Next(s, step))
  {
    var s' := Next(s, step);
    NodeStepBlocks(s, step);
    SameCacheGrants(s, s');
    forall t | t in s'.alloc.notify
      ensures InfoOf(s', t).uses < |Members(s', t)|
    {
      assert Members(s', t) == Members(s, t);
    }
  }

  // ---------------------------------------------------------------- every run

  lemma InitInv(tenants: seq<Tenant>)
    requires forall fd :: 0 <= fd < |tenants| ==> BA.IsTenant(tenants[fd])
    ensures Inv(Init(tenants)) && History(Init(tenants))
  {
    var s := Init(tenants);
    BA.InitInv();
    forall t: Tenant
      ensures UsesInv(s, t) && QueueInv(s, t)
    {
      assert HandledBy(s, t) == {};
    }
  }

  lemma {:induction false} ReachableInv(tenants: seq<Tenant>, steps: seq<Step>, states: seq<State>, n: nat)
    requires IsRun(tenants, steps, states) && n < |states|
    ensures Inv(states[n]) && History(states[n])
  {
    if n == 0 {
      InitInv(tenants);
    } else {
      ReachableInv(tenants, steps, states, n - 1);
      var s, step := states[n - 1], steps[n - 1];
      match step
      case Serve(fd, start, duration) =>
        ServeKeepsInv(s, fd, start, duration);
        ServeHistory(s, fd, start, duration);
      case Ask(fd) =>
        AskKeepsInv(s, fd);
        NodeStepHistory(s, step);
      case Take(fd) =>
        TakeKeepsInv(s, fd);
        NodeStepHistory(s, step);
    }
  }

  // ---------------------------------------------------------------- what the control plane promises

  /** No assertion fails: neither the allocator's nor those of a node about the message it reads. */
  lemma NoAssertionFails(tenants: seq<Tenant>, steps: seq<Step>, states: seq<State>, n: nat, fd: Fd, start: Time)
    requires IsRun(tenants, steps, states) && n < |states| && fd < |states[n].nodes|
    ensures var x := states[n].nodes[fd];
      && (x.phase == Requested ==> AssertionsHold(states[n], fd, start))
      && (x.phase == AwaitResp && x.inbox != [] ==> x.inbox[0].Resp? && x.inbox[0].batch == x.batch)
      && (x.phase == AwaitReady && x.inbox != [] ==> x.inbox[0] == Ready)
  {
    ReachableInv(tenants, steps, states, n);
    var x := states[n].nodes[fd];
    if x.phase == Requested {
      RequestsAreSafe(states[n], fd, start);
    }
    assert NodeOk(x, InfoOf(states[n], x.tenant), Going(states[n], x.tenant));
  }

  predicate HasBlock(x: Node) {
    x.phase == AwaitReady || (x.phase == Idle && x.batch > 0)
  }

  predicate SharesBatch(x: Node, y: Node) {
    HasBlock(x) && HasBlock(y) && x.tenant == y.tenant && x.batch == y.batch
  }

  /**
    Alloc runs once per tenant and batch, free once for every batch before the last one and not for
    that, and all nodes of the tenant have the same block for a batch.
   */
  lemma OneBlockPerBatch(tenants: seq<Tenant>, steps: seq<Step>, states: seq<State>, n: nat)
    requires IsRun(tenants, steps, states) && n < |states|
    ensures var s := states[n];
      && (forall p, q :: 0 <= p < q < |s.grants| && s.grants[p].tenant == s.grants[q].tenant ==>
         s.grants[p].batch != s.grants[q].batch)
      && (forall g :: g in s.frees <==> g in s.grants && g.batch < InfoOf(s, g.tenant).batch)
      && (forall p, q :: 0 <= p < q < |s.frees| ==> s.frees[p] != s.frees[q])
      && (forall fd, fd' :: 0 <= fd < |s.nodes| && 0 <= fd' < |s.nodes| && SharesBatch(s.nodes[fd], s.nodes[fd']) ==>
            s.nodes[fd].block == s.nodes[fd'].block)
  {
    var s := states[n];
    ReachableInv(tenants, steps, states, n);
    forall fd, fd' | 0 <= fd < |s.nodes| && 0 <= fd' < |s.nodes| && SharesBatch(s.nodes[fd], s.nodes[fd'])
      ensures s.nodes[fd].block == s.nodes[fd'].block
    {
      assert BlockOk(s, s.nodes[fd]) && BlockOk(s, s.nodes[fd']);
    }
  }

  /** The cached answer is replaced only after all nodes of the tenant have it. */
  lemma CacheKeptForAll(tenants: seq<Tenant>, steps: seq<Step>, states: seq<State>, n: nat, fd: Fd)
    requires IsRun(tenants, steps, states) && n < |steps| && steps[n].Serve? && Fresh(states[n], steps[n].fd)
    requires var s := states[n]; var t := s.nodes[steps[n].fd].tenant; fd in Members(s, t) && InfoOf(s, t).batch > 0
    ensures var s := states[n]; var i, x := InfoOf(s, s.nodes[steps[n].fd].tenant), s.nodes[fd];
      i.uses == |Members(s, x.tenant)|
      && (x.batch == i.batch + 1 || (x.batch == i.batch && (x.block == i.blk || Resp(i.batch, i.blk) in x.inbox)))
  {
    var s := states[n]; var t := s.nodes[steps[n].fd].tenant;
    ReachableInv(tenants, steps, states, n);
    FreshNode(s, steps[n].fd);
    GoingAllHandled(s, fd);
    assert UsesInv(s, t) && NodeOk(s.nodes[fd], InfoOf(s, t), Going(s, t));
  }

  /** The state after the answer, before anybody is told to go. */
  ghost function BeforeTelling(s: State, fd: Fd, start: Time, duration: Time): State
    requires fd < |s.nodes| && AssertionsHold(s, fd, start)
  {
    Answered(Renewed(s, fd, start, duration), fd)
  }

  /** This step tells tenant `t` to go. */
  ghost predicate Tells(s: State, step: Step, t: Tenant) {
    && Enabled(s, step) && step.Serve?
    && var s2, t0 := BeforeTelling(s, step.fd, step.start, step.duration), s.nodes[step.fd].tenant;
    && |InfoOf(s2, t0).fds| == |Members(s2, t0)| && t in GoesNow(s2)
  }

  /** How often the tenant was told to go for batch `b` in the first `n` steps. */
  ghost function TimesTold(steps: seq<Step>, states: seq<State>, t: Tenant, b: nat, n: nat): nat
    requires n <= |steps| && n < |states|
  {
    if n == 0 then 0 else
      TimesTold(steps, states, t, b, n - 1) +
        if Tells(states[n - 1], steps[n - 1], t) && InfoOf(states[n], t).batch == b then 1 else 0
  }

  /** Who is told heads its block's queue, has all its nodes answered and was not told for this batch before. */
  lemma TellsNew(s: State, step: Step, t: Tenant)
    requires Inv(s) && History(s) && Tells(s, step, t)
    ensures var s' := Next(s, step); var i := InfoOf(s', t);
      && i.batch > 0 && BA.At(s'.alloc, i.blk, 0, t) && i.uses == |Members(s', t)|
      && Told(t, i.batch) !in s.told && Told(t, i.batch) in s'.told
  {
    var fd, start, duration := step.fd, step.start, step.duration;
    var s1 := Renewed(s, fd, start, duration);
    RenewedStep(s, fd, start, duration);
    RenewedHistory(s, fd, start, duration);
    AnsweredKeepsInv(s1, fd);
    AnsweredHistory(s1, fd);
    var s2 := Answered(s1, fd);
    CompleteTenant(s2, t);
    assert UsesInv(s2, t) && QueueInv(s2, t);
    NotifiedQueue(s2, t);
    NotifiedMembers(s2, t);
  }

  lemma ToldStep(s: State, step: Step, t: Tenant, b: nat)
    requires Inv(s) && History(s) && Enabled(s, step)
    ensures var s' := Next(s, step);
      Told(t, b) in s'.told <==> Told(t, b) in s.told || (Tells(s, step, t) && InfoOf(s', t).batch == b)
  {
  }

  lemma {:induction false} TimesToldIs(tenants: seq<Tenant>, steps: seq<Step>, states: seq<State>, n: nat, t: Tenant,
                                       b: nat)
    requires IsRun(tenants, steps, states) && n < |states|
    ensures TimesTold(steps, states, t, b, n) == if Told(t, b) in states[n].told then 1 else 0
  {
    if n > 0 {
      var s, step := states[n - 1], steps[n - 1];
      TimesToldIs(tenants, steps, states, n - 1, t, b);
      ReachableInv(tenants, steps, states, n - 1);
      ToldStep(s, step, t, b);
      if Tells(s, step, t) {
        TellsNew(s, step, t);
      }
    }
  }

  /**
    In every run a tenant is told to go at most once per batch, and whenever it is told it heads its
    block's queue, all its nodes have their answer, and it was not told for this batch before.
   */
  lemma ToldOnceWhenItHeads(tenants: seq<Tenant>, steps: seq<Step>, states: seq<State>, n: nat, t: Tenant, b: nat)
    requires IsRun(tenants, steps, states) && n < |steps|
    ensures TimesTold(steps, states, t, b, n) <= TimesTold(steps, states, t, b, n + 1) <= 1
    ensures var s' := states[n + 1]; var i := InfoOf(s', t); Tells(states[n], steps[n], t) ==>
      && i.batch > 0 && BA.At(s'.alloc, i.blk, 0, t) && i.uses == |Members(s', t)|
      && TimesTold(steps, states, t, i.batch, n) == 0
  {
    TimesToldIs(tenants, steps, states, n, t, b);
    TimesToldIs(tenants, steps, states, n + 1, t, b);
    if Tells(states[n], steps[n], t) {
      ReachableInv(tenants, steps, states, n);
      TellsNew(states[n], steps[n], t);
      TimesToldIs(tenants, steps, states, n, t, InfoOf(states[n + 1], t).batch);
    }
  }

  lemma ServedBatch(s: State, fd: Fd, start: Time, duration: Time, t: Tenant)
    requires fd < |s.nodes| && AssertionsHold(s, fd, start)
    ensures InfoOf(Served(s, fd, start, duration), t).batch ==
      if Fresh(s, fd) && t == s.nodes[fd].tenant then s.nodes[fd].batch else InfoOf(s, t).batch
  {
    var s1 := Renewed(s, fd, start, duration);
    assert InfoOf(Answered(s1, fd), t).batch == InfoOf(s1, t).batch;
  }

  lemma BatchGrowsByOne(s: State, step: Step, t: Tenant)
    requires Inv(s) && Enabled(s, step)
    ensures InfoOf(s, t).batch <= InfoOf(Next(s, step), t).batch <= InfoOf(s, t).batch + 1
    ensures InfoOf(Next(s, step), t).batch == InfoOf(s, t).batch + 1 ==> InfoOf(s, t).batch == 0 || Going(s, t)
  {
    if step.Serve? {
      ServedBatch(s, step.fd, step.start, step.duration, t);
      if Fresh(s, step.fd) {
        FreshNode(s, step.fd);
      }
    }
  }

  /** And at once: whoever heads its block's queue with all its nodes answered has been told. */
  lemma ToldAtOnce(tenants: seq<Tenant>, steps: seq<Step>, states: seq<State>, n: nat, t: Tenant)
    requires IsRun(tenants, steps, states) && n < |states|
    requires var s := states[n]; var i := InfoOf(s, t);
      i.batch > 0 && BA.At(s.alloc, i.blk, 0, t) && i.uses == |Members(s, t)|
    ensures Told(t, InfoOf(states[n], t).batch) in states[n].told
  {
    ReachableInv(tenants, steps, states, n);
  }

  /** The loop over the ready set only meets tenants it knows. */
  lemma ReadyIsKnown(s: State, t: Tenant)
    requires Inv(s) && t in s.alloc.notify
    ensures t in s.info
  {
    assert QueueInv(s, t);
  }
}
