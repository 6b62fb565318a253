/**
  The cold path: row locks, the release log and lock-all-then-access execution, as a step system
  in which any number of transactions on any number of nodes interleave.
 */
module ColdModel {
  type Key = nat
  type Val = int

  // ---------------------------------------------------------------- rows

  datatype Mode = INVALID | READ | WRITE

  datatype TxnId = TxnId(valid: bool, node: nat, miniBatch: nat)

  datatype Row = Row(lockType: Mode, owners: nat, value: Val, lastAcq: TxnId)

  predicate Compatible(r: Row, mode: Mode) {
    r.lockType == INVALID || !(r.lockType == WRITE || mode == WRITE)
  }

  /** A mini-batch may use a row only from the node that used it first. */
  predicate MiniBatchAllows(r: Row, id: TxnId) {
    id.valid ==> !(id.miniBatch == r.lastAcq.miniBatch && id.node != r.lastAcq.node)
  }

  predicate Grants(r: Row, mode: Mode, id: TxnId) {
    Compatible(r, mode) && MiniBatchAllows(r, id)
  }

  function Locked(r: Row, mode: Mode): Row {
    r.(owners := r.owners + 1, lockType := mode)
  }

  /** `last_acq` is written before the mode is checked; the owner count is a 32-bit word. */
  function Unlocked(r: Row, mode: Mode, id: TxnId): Row {
    var left := if r.owners == 0 then 0xFFFF_FFFF else r.owners - 1;
    if r.lockType != mode then r.(lastAcq := id)
    else if left > 0 then r.(lastAcq := id, owners := left)
    else r.(lastAcq := id, owners := 0, lockType := INVALID)
  }

  // ---------------------------------------------------------------- transactions

  datatype Op = Op(mode: Mode, key: Key, value: Val, local: bool)

  /** One entry of the release log. `got` is false when a remote row refused the lock. */
  datatype Future = Future(got: bool, copy: Val, lastAcq: TxnId)

  datatype Phase = Locking | Accessing | Releasing(committed: bool)

  /**
    `results` holds, per accessed operation, the value read or written. `point` is the transaction's
    position in the order in which transactions finished acquiring their locks.
   */
  datatype Txn = Txn(id: TxnId, ops: seq<Op>, phase: Phase, log: seq<Future>, accessed: nat,
                     results: seq<Val>, released: nat, point: nat)

  predicate Done(x: Txn) {
    x.phase.Releasing? && x.released >= |x.log|
  }

  datatype Exec = Exec(tid: nat, ops: seq<Op>)

  /** `order` lists the transactions that held all their locks, in the order they came to. */
  datatype State = State(rows: seq<Row>, txns: seq<Txn>, miniBatch: nat, order: seq<Exec>)

  datatype Step =
    | Begin(id: TxnId, ops: seq<Op>)
    | Lock(t: nat)
    | Ready(t: nat)
    | Access(t: nat)
    | Commit(t: nat)
    | Release(t: nat)
    | NextMiniBatch

  predicate OpsOk(ops: seq<Op>, nRows: nat) {
    forall j :: 0 <= j < |ops| ==> ops[j].key < nRows && ops[j].mode != INVALID
  }

  /** The state of a transaction that lets it take the step; mini-batches are separated by a barrier. */
  predicate Enabled(s: State, step: Step) {
    match step
    case Begin(id, ops) => OpsOk(ops, |s.rows|) && (id.valid ==> id.miniBatch == s.miniBatch)
    case Lock(t) => t < |s.txns| && s.txns[t].phase.Locking? && |s.txns[t].log| < |s.txns[t].ops|
      && s.txns[t].ops[|s.txns[t].log|].key < |s.rows|
    case Ready(t) => t < |s.txns| && s.txns[t].phase.Locking? && |s.txns[t].log| == |s.txns[t].ops|
    case Access(t) => t < |s.txns| && s.txns[t].phase.Accessing? && s.txns[t].accessed < |s.txns[t].ops|
      && s.txns[t].accessed < |s.txns[t].log| && s.txns[t].ops[s.txns[t].accessed].key < |s.rows|
    case Commit(t) => t < |s.txns| && s.txns[t].phase.Accessing? && s.txns[t].accessed == |s.txns[t].ops|
    case Release(t) => t < |s.txns| && s.txns[t].phase.Releasing? && s.txns[t].released < |s.txns[t].log|
      && s.txns[t].released < |s.txns[t].ops| && s.txns[t].ops[s.txns[t].released].key < |s.rows|
    case NextMiniBatch => forall t :: 0 <= t < |s.txns| ==> Done(s.txns[t]) || !s.txns[t].id.valid
  }

  function LockTxn(r: Row, x: Txn): Txn
    requires |x.log| < |x.ops|
  {
    var op := x.ops[|x.log|];
    if Grants(r, op.mode, x.id) then x.(log := x.log + [Future(true, r.value, r.lastAcq)])
    else if op.local then x.(phase := Releasing(false))
    else x.(phase := Releasing(false), log := x.log + [Future(false, 0, r.lastAcq)])
  }

  function LockedRow(r: Row, x: Txn): Row
    requires |x.log| < |x.ops|
  {
    var op := x.ops[|x.log|];
    if Grants(r, op.mode, x.id) then Locked(r, op.mode) else r
  }

  /** Local operations work on the row, remote ones on the copy that came with the lock. */
  function AccessTxn(r: Row, x: Txn): Txn
    requires x.accessed < |x.ops| && x.accessed < |x.log|
  {
    var j := x.accessed;
    var op, f := x.ops[j], x.log[j];
    var f' := if x.id.valid then f.(lastAcq := x.id) else f;
    var result := if op.mode == WRITE then op.value else if op.local then r.value else f.copy;
    x.(accessed := j + 1, results := x.results + [result],
       log := x.log[j := if op.mode == WRITE && !op.local then f'.(copy := op.value) else f'])
  }

  function AccessedRow(r: Row, x: Txn): Row
    requires x.accessed < |x.ops|
  {
    var op := x.ops[x.accessed];
    if op.mode == WRITE && op.local then r.(value := op.value) else r
  }

  function ReleasedRow(r: Row, x: Txn): Row
    requires x.released < |x.ops| && x.released < |x.log|
  {
    var op, f := x.ops[x.released], x.log[x.released];
    if !f.got then r
    else Unlocked(if op.mode == WRITE && !op.local then r.(value := f.copy) else r, op.mode, f.lastAcq)
  }

  function With(s: State, t: nat, x: Txn, k: Key, r: Row): State
    requires t < |s.txns| && k < |s.rows|
  {
    s.(txns := s.txns[t := x], rows := s.rows[k := r])
  }

  function Next(s: State, step: Step): State
    requires Enabled(s, step)
  {
    match step
    case Begin(id, ops) => s.(txns := s.txns + [Txn(id, ops, Locking, [], 0, [], 0, 0)])
    case Lock(t) =>
      var x := s.txns[t]; var k := x.ops[|x.log|].key;
      With(s, t, LockTxn(s.rows[k], x), k, LockedRow(s.rows[k], x))
    case Ready(t) =>
      var x := s.txns[t];
      s.(txns := s.txns[t := x.(phase := Accessing, point := |s.order|)], order := s.order + [Exec(t, x.ops)])
    case Access(t) =>
      var x := s.txns[t]; var k := x.ops[x.accessed].key;
      With(s, t, AccessTxn(s.rows[k], x), k, AccessedRow(s.rows[k], x))
    case Commit(t) => s.(txns := s.txns[t := s.txns[t].(phase := Releasing(true))])
    case Release(t) =>
      var x := s.txns[t]; var k := x.ops[x.released].key;
      With(s, t, x.(released := x.released + 1), k, ReleasedRow(s.rows[k], x))
    case NextMiniBatch => s.(miniBatch := s.miniBatch + 1)
  }

  const NoAcq := TxnId(true, 0, 0)

  function InitRow(v: Val): Row {
    Row(INVALID, 0, v, NoAcq)
  }

  function Init(vals: seq<Val>): State {
    State(seq(|vals|, k requires 0 <= k < |vals| => InitRow(vals[k])), [], 1, [])
  }

  ghost predicate IsRun(vals: seq<Val>, steps: seq<Step>, states: seq<State>) {
    && |states| == |steps| + 1 && states[0] == Init(vals)
    && forall n :: 0 <= n < |steps| ==> Enabled(states[n], steps[n]) && states[n + 1] == Next(states[n], steps[n])
  }

  // ---------------------------------------------------------------- the serial reference

  function RunOp(vals: seq<Val>, op: Op): seq<Val> {
    if op.mode == WRITE && op.key < |vals| then vals[op.key := op.value] else vals
  }

  function RunOps(vals: seq<Val>, ops: seq<Op>): (r: seq<Val>)
    ensures |r| == |vals|
  {
    if ops == [] then vals else RunOp(RunOps(vals, ops[..|ops| - 1]), ops[|ops| - 1])
  }

  /** The value operation `j` reads or writes when `ops` runs alone, in order, from `vals`. */
  function ResultOf(vals: seq<Val>, ops: seq<Op>, j: nat): Val
    requires j < |ops| && ops[j].key < |vals|
  {
    if ops[j].mode == WRITE then ops[j].value else RunOps(vals, ops[..j])[ops[j].key]
  }

  /** Running whole transactions one after the other. */
  function Serial(vals: seq<Val>, order: seq<Exec>): (r: seq<Val>)
    ensures |r| == |vals|
  {
    if order == [] then vals else RunOps(Serial(vals, order[..|order| - 1]), order[|order| - 1].ops)
  }
}
