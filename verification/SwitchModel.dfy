/**
  The cycle-level switch simulator (`mine/fast_layout/src/sim.h`, `switch.cpp`) on values:
  what one `run_cycle` does to the packets, the registers and the lock manager. The class
  `SwitchSim.Switch` implements these functions on pool slots.
 */
module SwitchModel {

  const N_STAGES: nat := 18
  const REGS_PER_STAGE: nat := 2
  const N_PORTS: nat := 32
  const N_PORT_GROUPS: nat := 8
  const IPB_SIZE: nat := 500
  const MAX_FAIL_CT: nat := 24
  const START_TXN_ID: nat := 0

  type TxnId = nat

  datatype Option<+T> = None | Some(value: T)

  datatype Reg = Reg(stage: nat, reg: nat)
  datatype Cell = Cell(r: Reg, idx: nat)

  /** One pass: at most one index per register. */
  type Grid = map<Reg, nat>

  datatype Txn = Txn(port: nat, id: TxnId, passCt: nat, failCt: nat, valid: bool,
                     locksCheck: set<nat>, locksWanted: set<nat>, locksUndo: set<nat>,
                     passes: seq<Grid>)

  predicate GridOk(g: Grid) {
    forall r :: r in g ==> r.stage < N_STAGES && r.reg < REGS_PER_STAGE
  }

  /** A transaction as the host sends it; the switch assigns the id. */
  predicate Sendable(t: Txn) {
    && t.port < N_PORTS && |t.passes| > 0
    && (forall p :: 0 <= p < |t.passes| ==> GridOk(t.passes[p]))
    && t.passCt == 0 && t.failCt == 0 && t.valid && t.locksUndo == {}
  }

  predicate Touches(g: Grid, c: Cell) {
    c.r in g && g[c.r] == c.idx
  }

  // ---------------------------------------------------------------- lock managers

  /** The state of the lock manager in force, and with it the choice made in `manage_locks`. */
  datatype Lock = WholePipe(holder: Option<TxnId>) | Granular(locks: set<nat>)

  datatype LockResult = LockResult(lock: Lock, txn: Txn)

  function WholePipeLock(holder: Option<TxnId>, t: Txn): LockResult {
    match holder
    case None =>
      LockResult(WholePipe(if |t.passes| >= 2 then Some(t.id) else None), t.(valid := true))
    case Some(h) =>
      if h == t.id then
        LockResult(WholePipe(if |t.passes| == t.passCt + 1 then None else holder), t.(valid := true))
      else
        LockResult(WholePipe(holder), t.(valid := false))
  }

  function Xor(a: set<nat>, b: set<nat>): set<nat> {
    (a - b) + (b - a)
  }

  function GranularLock(locks: set<nat>, t: Txn): LockResult {
    if t.passCt == 0 then
      if t.locksUndo == {} then
        var after := Granular(locks + t.locksWanted);
        if locks * t.locksCheck == {} then LockResult(after, t.(valid := true))
        else LockResult(after, t.(locksUndo := t.locksWanted - locks, failCt := t.failCt + 1, valid := false))
      else
        LockResult(Granular(Xor(locks, t.locksUndo)), t.(locksUndo := {}, valid := false))
    else
      LockResult(Granular(Xor(locks, t.locksWanted)), t.(valid := true))
  }

  /** The assertions inside `granular_lock_real`. */
  predicate GranularAsserts(locks: set<nat>, t: Txn) {
    if t.passCt == 0 then
      t.locksUndo == {} && locks * t.locksCheck == {} ==> locks * t.locksWanted == {}
    else
      t.passCt + 1 == |t.passes| && t.locksWanted <= locks
  }

  function ManageLocks(lock: Lock, t: Txn): LockResult {
    match lock
    case WholePipe(holder) => WholePipeLock(holder, t)
    case Granular(locks) => GranularLock(locks, t)
  }

  // ---------------------------------------------------------------- register operations

  /** The last transaction that touched a cell. */
  type Last = map<Cell, TxnId>

  datatype Dep = Dep(txn: TxnId, on: TxnId)

  function LastTxn(last: Last, c: Cell): TxnId {
    if c in last then last[c] else START_TXN_ID
  }

  /** The packet in stage `i` performs the operations of its current pass on the registers of that stage. */
  predicate Executes(pipe: seq<Option<Txn>>, i: nat, c: Cell) {
    && i < |pipe| && c.r.stage == i && c.r.reg < REGS_PER_STAGE
    && pipe[i].Some? && pipe[i].value.valid && pipe[i].value.passCt < |pipe[i].value.passes|
    && Touches(pipe[i].value.passes[pipe[i].value.passCt], c)
  }

  predicate Live(p: Option<Txn>) {
    p.Some? && p.value.valid && p.value.passCt < |p.value.passes|
  }

  /** The registers and the dependencies reported to the checker. */
  datatype Regs = Regs(last: Last, deps: set<Dep>)

  /** One register operation: report the previous transaction, then leave this one's id. */
  function OneOp(regs: Regs, g: Grid, id: TxnId, r: Reg): Regs {
    if r in g
    then Regs(regs.last[Cell(r, g[r]) := id], regs.deps + {Dep(id, LastTxn(regs.last, Cell(r, g[r])))})
    else regs
  }

  predicate InStage(g: Grid, i: nat, n: nat, c: Cell) {
    c.r.stage == i && c.r.reg < n && Touches(g, c)
  }

  /** The operations of a pass on the first `n` registers of stage `i`. */
  function GridOps(regs: Regs, g: Grid, id: TxnId, i: nat, n: nat): (regs': Regs)
    ensures forall c: Cell :: LastTxn(regs'.last, c) == if InStage(g, i, n, c) then id else LastTxn(regs.last, c)
    ensures forall d :: d in regs'.deps <==>
      d in regs.deps || (d.txn == id && exists c: Cell :: InStage(g, i, n, c) && d.on == LastTxn(regs.last, c))
  {
    if n == 0 then regs
    else
      var r := Reg(i, n - 1);
      assert forall c: Cell :: c.r.stage == i && c.r.reg == n - 1 ==> c.r == r;
      assert forall c: Cell :: InStage(g, i, n, c) <==> InStage(g, i, n - 1, c) || (r in g && c == Cell(r, g[r]));
      assert r in g ==> InStage(g, i, n, Cell(r, g[r]));
      OneOp(GridOps(regs, g, id, i, n - 1), g, id, r)
  }

  /** `run_reg_ops`: the packet in stage `i` performs the operations of its current pass there. */
  function StageOps(regs: Regs, p: Option<Txn>, i: nat): Regs {
    if Live(p) then GridOps(regs, p.value.passes[p.value.passCt], p.value.id, i, REGS_PER_STAGE) else regs
  }

  /** `run_reg_ops` on the stages from the last down to `n`. */
  function RegOps(regs: Regs, pipe: seq<Option<Txn>>, n: nat): (regs': Regs)
    requires n <= |pipe|
    ensures forall c: Cell :: n <= c.r.stage && Executes(pipe, c.r.stage, c) ==>
      LastTxn(regs'.last, c) == pipe[c.r.stage].value.id
    ensures forall c: Cell :: !(n <= c.r.stage && Executes(pipe, c.r.stage, c)) ==>
      LastTxn(regs'.last, c) == LastTxn(regs.last, c)
    ensures forall d :: d in regs'.deps <==> d in regs.deps || NewDep(regs, pipe, n, d)
    decreases |pipe| - n
  {
    if n == |pipe| then regs
    else
      var before := RegOps(regs, pipe, n + 1);
      assert forall c: Cell :: c.r.stage == n && Executes(pipe, n, c) ==>
        LastTxn(before.last, c) == LastTxn(regs.last, c);
      StageOps(before, pipe[n], n)
  }

  ghost predicate NewDep(regs: Regs, pipe: seq<Option<Txn>>, n: nat, d: Dep) {
    exists c: Cell ::
      n <= c.r.stage && Executes(pipe, c.r.stage, c) && d == Dep(pipe[c.r.stage].value.id, LastTxn(regs.last, c))
  }

  // ---------------------------------------------------------------- the switch

  /** What left the switch: executed (`ok`) or given up after too many failed lock attempts. */
  datatype Done = Done(ok: bool, txn: Txn)

  /** One valid pass entering stage 0. */
  datatype Entry = Entry(id: TxnId, pass: nat, of: nat, grid: Grid)

  /**
    The packets by place, the registers, the dependencies reported to the serializability
    checker and the lock manager. `recirc` is the parser of the recirculation port.
    `entered` is the history of valid passes in the order in which they entered stage 0.
   */
  datatype State = State(
    ipb: seq<seq<Txn>>, parser: seq<Option<Txn>>, recirc: Option<Txn>, pipe: seq<Option<Txn>>,
    egress: seq<seq<Done>>, last: Last, deps: set<Dep>, lock: Lock, nextId: TxnId, entered: seq<Entry>)

  predicate Shape(s: State) {
    && |s.ipb| == N_PORT_GROUPS && |s.parser| == N_PORT_GROUPS
    && |s.pipe| == N_STAGES && |s.egress| == N_PORTS
    && (forall i :: 0 <= i < N_STAGES && s.pipe[i].Some? ==> s.pipe[i].value.port < N_PORTS)
  }

  function Init(lock: Lock): State {
    State(seq(N_PORT_GROUPS, i => []), seq(N_PORT_GROUPS, i => None), None, seq(N_STAGES, i => None),
          seq(N_PORTS, i => []), map[], {}, lock, 1, [])
  }

  function PortToGroup(port: nat): nat {
    port / (N_PORTS / N_PORT_GROUPS)
  }

  /** `send`: false when the input buffer of the port group is full. */
  predicate Accepts(s: State, t: Txn)
    requires Shape(s) && t.port < N_PORTS
  {
    |s.ipb[PortToGroup(t.port)]| < IPB_SIZE
  }

  function Send(s: State, t: Txn): State
    requires Shape(s) && t.port < N_PORTS
  {
    var g := PortToGroup(t.port);
    if Accepts(s, t)
    then s.(ipb := s.ipb[g := s.ipb[g] + [t.(id := s.nextId)]], nextId := s.nextId + 1)
    else s
  }

  /** `recv`: takes the oldest finished transaction of a port, if there is one. */
  function Recv(s: State, port: nat): State
    requires Shape(s) && port < N_PORTS
  {
    if s.egress[port] == [] then s else s.(egress := s.egress[port := s.egress[port][1..]])
  }

  /** The packet at the end of the pipe, with this pass counted. */
  function Finished(t: Txn): Txn {
    if t.valid then t.(passCt := t.passCt + 1) else t
  }

  predicate GivesUp(t: Txn) {
    t.passCt == 0 && t.failCt >= MAX_FAIL_CT && t.locksUndo == {}
  }

  predicate Leaves(t: Txn) {
    |t.passes| == t.passCt || GivesUp(t)
  }

  function ToEgress(egress: seq<seq<Done>>, out: Option<Txn>): seq<seq<Done>>
    requires |egress| == N_PORTS && (out.Some? ==> out.value.port < N_PORTS)
  {
    if out.None? then egress
    else
      var t := Finished(out.value);
      if Leaves(t) then egress[t.port := egress[t.port] + [Done(|t.passes| == t.passCt, t)]] else egress
  }

  function ToRecirc(out: Option<Txn>): Option<Txn> {
    if out.None? then None
    else
      var t := Finished(out.value);
      if Leaves(t) then None else Some(t.(valid := true))
  }

  /** Among the first `n` port groups, the first with a parsed packet and the fullest input buffer. */
  function Fullest(s: State, n: nat): (g: Option<nat>)
    requires |s.ipb| == |s.parser| && n <= |s.ipb|
    ensures g.None? <==> forall i :: 0 <= i < n ==> s.parser[i].None?
    ensures g.Some? ==> g.value < n && s.parser[g.value].Some?
    ensures g.Some? ==> forall i :: 0 <= i < n && s.parser[i].Some? ==> |s.ipb[i]| <= |s.ipb[g.value]|
    ensures g.Some? ==> forall i :: 0 <= i < g.value && s.parser[i].Some? ==> |s.ipb[i]| < |s.ipb[g.value]|
  {
    if n == 0 then None
    else
      var g := Fullest(s, n - 1);
      if s.parser[n - 1].Some? && (g.None? || |s.ipb[n - 1]| > |s.ipb[g.value]|) then Some(n - 1) else g
  }

  /** The port group that gets the next pipe slot; the recirculation port goes first. */
  function Chosen(s: State): Option<nat>
    requires Shape(s)
  {
    if s.recirc.Some? then None else Fullest(s, N_PORT_GROUPS)
  }

  function Entering(s: State): Option<Txn>
    requires Shape(s)
  {
    if s.recirc.Some? then s.recirc
    else if Chosen(s).Some? then s.parser[Chosen(s).value] else None
  }

  /** A parser that is empty, or that has just handed over its packet, is refilled. */
  predicate Refills(s: State, g: nat)
    requires Shape(s) && g < N_PORT_GROUPS
  {
    s.parser[g].None? || Chosen(s) == Some(g)
  }

  function NextParser(s: State, g: nat): Option<Txn>
    requires Shape(s) && g < N_PORT_GROUPS
  {
    if Refills(s, g) then (if s.ipb[g] == [] then None else Some(s.ipb[g][0])) else s.parser[g]
  }

  function NextIpb(s: State, g: nat): seq<Txn>
    requires Shape(s) && g < N_PORT_GROUPS
  {
    if Refills(s, g) && s.ipb[g] != [] then s.ipb[g][1..] else s.ipb[g]
  }

  function EntryOf(t: Txn): Entry {
    Entry(t.id, t.passCt, |t.passes|, if t.passCt < |t.passes| then t.passes[t.passCt] else map[])
  }

  /** The packet that enters stage 0 in this cycle, after the lock manager decided about it. */
  function Admitted(s: State): Option<Txn>
    requires Shape(s)
  {
    if Entering(s).None? then None else Some(ManageLocks(s.lock, Entering(s).value).txn)
  }

  /** `run_cycle`. */
  function Cycle(s: State): State
    requires Shape(s)
  {
    var out := s.pipe[N_STAGES - 1];
    var t := Admitted(s);
    var regs := RegOps(Regs(s.last, s.deps), s.pipe, 0);
    State(
      seq(N_PORT_GROUPS, g requires 0 <= g < N_PORT_GROUPS => NextIpb(s, g)),
      seq(N_PORT_GROUPS, g requires 0 <= g < N_PORT_GROUPS => NextParser(s, g)),
      ToRecirc(out),
      [t] + s.pipe[..N_STAGES - 1],
      ToEgress(s.egress, out),
      regs.last,
      regs.deps,
      if t.None? then s.lock else ManageLocks(s.lock, Entering(s).value).lock,
      s.nextId,
      if t.Some? && t.value.valid then s.entered + [EntryOf(t.value)] else s.entered)
  }

  // ---------------------------------------------------------------- runs

  datatype Step = Offer(t: Txn) | Tick | Take(port: nat)

  /** Which transactions the hosts may send. */
  type Host = Txn -> bool

  predicate Enabled(host: Host, s: State, step: Step)
    requires Shape(s)
  {
    match step
    case Offer(t) => Sendable(t) && host(t)
    case Tick => true
    case Take(port) => port < N_PORTS
  }

  function Next(host: Host, s: State, step: Step): State
    requires Shape(s) && Enabled(host, s, step)
  {
    match step
    case Offer(t) => Send(s, t)
    case Tick => Cycle(s)
    case Take(port) => Recv(s, port)
  }

  ghost predicate IsRun(host: Host, lock: Lock, steps: seq<Step>, states: seq<State>) {
    && |states| == |steps| + 1
    && states[0] == Init(lock)
    && forall k :: 0 <= k < |steps| ==>
         Shape(states[k]) && Enabled(host, states[k], steps[k]) && states[k + 1] == Next(host, states[k], steps[k])
  }
}
