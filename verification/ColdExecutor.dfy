/**
  The executor as it runs one transaction: rows, futures and the release log updated in place by
  the loops of `my_execute` and `execute`, with whatever locks others hold meanwhile. It commits
  exactly when every row grants its lock, and then does what the serial reference does; when it
  rolls back it leaves every row as it found it.
 */
module ColdExecutor {
  import opened ColdModel
  import opened ColdSerial

  // ---------------------------------------------------------------- the loops as functions

  predicate RowOk(r: Row) {
    r.lockType == INVALID <==> r.owners == 0
  }

  predicate RowsOk(rows: seq<Row>) {
    forall k :: 0 <= k < |rows| ==> RowOk(rows[k])
  }

  /** The rows after the locks of the first `n` operations were taken. */
  function LockedAll(rows: seq<Row>, ops: seq<Op>, n: nat): (r: seq<Row>)
    requires OpsOk(ops, |rows|) && n <= |ops|
    ensures |r| == |rows|
  {
    if n == 0 then rows else
      var r, op := LockedAll(rows, ops, n - 1), ops[n - 1];
      r[op.key := Locked(r[op.key], op.mode)]
  }

  /** Each of the first `n` operations found its row free for it. */
  ghost predicate Granted(rows: seq<Row>, ops: seq<Op>, id: TxnId, n: nat)
    requires OpsOk(ops, |rows|) && n <= |ops|
  {
    n == 0 || (Granted(rows, ops, id, n - 1)
      && Grants(LockedAll(rows, ops, n - 1)[ops[n - 1].key], ops[n - 1].mode, id))
  }

  /** The release log right after locking. */
  ghost predicate LogOf(rows: seq<Row>, ops: seq<Op>, log: seq<Future>, n: nat)
    requires OpsOk(ops, |rows|)
  {
    n <= |ops| && n <= |log|
    && forall j :: 0 <= j < n ==> log[j] == Future(true, rows[ops[j].key].value, rows[ops[j].key].lastAcq)
  }

  /** The rows after the local writes of the first `n` operations. */
  function AccessedAll(rows: seq<Row>, ops: seq<Op>, n: nat): (r: seq<Row>)
    requires OpsOk(ops, |rows|) && n <= |ops|
    ensures |r| == |rows|
  {
    if n == 0 then rows else
      var r, op := AccessedAll(rows, ops, n - 1), ops[n - 1];
      if op.mode == WRITE && op.local then r[op.key := r[op.key].(value := op.value)] else r
  }

  function AccessedFuture(f: Future, op: Op, id: TxnId): Future {
    var f' := if id.valid then f.(lastAcq := id) else f;
    if op.mode == WRITE && !op.local then f'.(copy := op.value) else f'
  }

  function Cleared(r: Row, op: Op, f: Future): Row {
    if !f.got then r
    else Unlocked(if op.mode == WRITE && !op.local then r.(value := f.copy) else r, op.mode, f.lastAcq)
  }

  /** The rows after the first `n` entries of the release log were run. */
  function ClearedAll(rows: seq<Row>, ops: seq<Op>, log: seq<Future>, n: nat): (r: seq<Row>)
    requires OpsOk(ops, |rows|) && n <= |ops| && n <= |log|
    ensures |r| == |rows|
  {
    if n == 0 then rows else
      var r, op := ClearedAll(rows, ops, log, n - 1), ops[n - 1];
      r[op.key := Cleared(r[op.key], op, log[n - 1])]
  }

  /** The release of entry `j` throws: a local row was not locked, or is locked in another mode. */
  predicate Throws(rows: seq<Row>, ops: seq<Op>, log: seq<Future>, j: nat)
    requires OpsOk(ops, |rows|) && j < |ops| && j < |log|
  {
    ops[j].local && (!log[j].got || ClearedAll(rows, ops, log, j)[ops[j].key].lockType != ops[j].mode)
  }

  // ---------------------------------------------------------------- locking

  /** Operations `from`, ..., `to - 1` on row `k`. */
  ghost function CountOn(ops: seq<Op>, from: nat, to: nat, k: Key): nat
    requires from <= to <= |ops|
  {
    if from == to then 0 else CountOn(ops, from, to - 1, k) + (if ops[to - 1].key == k then 1 else 0)
  }

  lemma {:induction false} CountFirst(ops: seq<Op>, from: nat, to: nat, k: Key)
    requires from < to <= |ops|
    ensures CountOn(ops, from, to, k) == CountOn(ops, from + 1, to, k) + (if ops[from].key == k then 1 else 0)
  {
    if from < to - 1 {
      CountFirst(ops, from, to - 1, k);
    }
  }

  lemma {:induction false} CountSeen(ops: seq<Op>, from: nat, to: nat, j: nat)
    requires from <= j < to <= |ops|
    ensures CountOn(ops, from, to, ops[j].key) > 0
  {
    if j < to - 1 {
      CountSeen(ops, from, to - 1, j);
    }
  }

  lemma {:induction false} LockedRowIs(rows: seq<Row>, ops: seq<Op>, n: nat, k: Key)
    requires OpsOk(ops, |rows|) && n <= |ops| && k < |rows|
    ensures var r := LockedAll(rows, ops, n)[k];
      && r.value == rows[k].value && r.lastAcq == rows[k].lastAcq
      && r.owners == rows[k].owners + CountOn(ops, 0, n, k)
      && (CountOn(ops, 0, n, k) == 0 ==> r == rows[k])
  {
    if n > 0 {
      LockedRowIs(rows, ops, n - 1, k);
    }
  }

  predicate NoConflictUpTo(ops: seq<Op>, n: nat)
    requires n <= |ops|
  {
    forall i, j :: 0 <= i < n && 0 <= j < n && i != j && ops[i].key == ops[j].key ==> ops[i].mode != WRITE
  }

  /** While locks are granted, a row has the mode of every operation that locked it. */
  lemma {:induction false} GrantedModes(rows: seq<Row>, ops: seq<Op>, id: TxnId, n: nat)
    requires OpsOk(ops, |rows|) && n <= |ops| && Granted(rows, ops, id, n)
    ensures NoConflictUpTo(ops, n)
    ensures forall i :: 0 <= i < n ==> LockedAll(rows, ops, n)[ops[i].key].lockType == ops[i].mode
  {
    if n > 0 {
      GrantedModes(rows, ops, id, n - 1);
    }
  }

  /** Locks are granted exactly if every row grants its own and the transaction does not stand in its own way. */
  lemma {:induction false} GrantedIff(rows: seq<Row>, ops: seq<Op>, id: TxnId, n: nat)
    requires OpsOk(ops, |rows|) && n <= |ops|
    ensures Granted(rows, ops, id, n) <==>
      NoConflictUpTo(ops, n) && forall j :: 0 <= j < n ==> Grants(rows[ops[j].key], ops[j].mode, id)
  {
    if n > 0 {
      GrantedIff(rows, ops, id, n - 1);
      var k := ops[n - 1].key;
      LockedRowIs(rows, ops, n - 1, k);
      if Granted(rows, ops, id, n - 1) {
        GrantedModes(rows, ops, id, n - 1);
        if i :| 0 <= i < n - 1 && ops[i].key == k {
          assert Grants(rows[k], ops[i].mode, id);
          assert LockedAll(rows, ops, n - 1)[k].lockType == ops[i].mode;
        } else {
          NotSeen(ops, n - 1, k);
        }
      }
    }
  }

  lemma {:induction false} NotSeen(ops: seq<Op>, n: nat, k: Key)
    requires n <= |ops| && forall i :: 0 <= i < n ==> ops[i].key != k
    ensures CountOn(ops, 0, n, k) == 0
  {
    if n > 0 {
      NotSeen(ops, n - 1, k);
    }
  }

  // ---------------------------------------------------------------- releasing

  /** Lock and owner count of row `k` while entries `from`, ..., `to - 1` still hold their rows. */
  ghost predicate StillHeld(r0: Row, r: Row, ops: seq<Op>, from: nat, to: nat, k: Key)
    requires from <= to <= |ops|
  {
    && r.owners == r0.owners + CountOn(ops, from, to, k)
    && (CountOn(ops, from, to, k) == 0 ==> r.lockType == r0.lockType)
    && (forall i :: from <= i < to && ops[i].key == k ==> r.lockType == ops[i].mode)
  }

  /** One more entry released. */
  lemma ReleaseOne(r0: Row, r: Row, ops: seq<Op>, from: nat, to: nat, acq: TxnId)
    requires from < to <= |ops| && RowOk(r0) && StillHeld(r0, r, ops, from, to, ops[from].key)
    requires Compatible(r0, ops[from].mode) && ops[from].mode != INVALID
    requires NoConflictUpTo(ops, to)
    ensures var k := ops[from].key; StillHeld(r0, Unlocked(r, ops[from].mode, acq), ops, from + 1, to, k)
  {
    var k := ops[from].key;
    CountFirst(ops, from, to, k);
    if CountOn(ops, from + 1, to, k) == 0 {
      forall i | from + 1 <= i < to
        ensures ops[i].key != k
      {
        if ops[i].key == k {
          CountSeen(ops, from + 1, to, i);
        }
      }
    }
  }

  /** Every entry is a granted lock. */
  ghost predicate Releases(rows0: seq<Row>, rows: seq<Row>, ops: seq<Op>, log: seq<Future>, id: TxnId, n: nat) {
    && OpsOk(ops, |rows0|) && |rows| == |rows0| && RowsOk(rows0) && n <= |ops| && n <= |log|
    && Granted(rows0, ops, id, n)
    && (forall j :: 0 <= j < n ==> log[j].got)
    && (forall k :: 0 <= k < |rows| ==>
       rows[k].owners == LockedAll(rows0, ops, n)[k].owners && rows[k].lockType == LockedAll(rows0, ops, n)[k].lockType)
  }

  lemma {:induction false} ClearedHeld(rows0: seq<Row>, rows: seq<Row>, ops: seq<Op>, log: seq<Future>, id: TxnId,
                                       n: nat, j: nat, k: Key)
    requires Releases(rows0, rows, ops, log, id, n) && j <= n && k < |rows|
    ensures StillHeld(rows0[k], ClearedAll(rows, ops, log, j)[k], ops, j, n, k)
  {
    GrantedModes(rows0, ops, id, n);
    if j == 0 {
      LockedRowIs(rows0, ops, n, k);
    } else {
      ClearedHeld(rows0, rows, ops, log, id, n, j - 1, k);
      CountFirst(ops, j - 1, n, k);
      if ops[j - 1].key == k {
        GrantedIff(rows0, ops, id, n);
        var r := ClearedAll(rows, ops, log, j - 1)[k];
        var r' := if ops[j - 1].mode == WRITE && !ops[j - 1].local then r.(value := log[j - 1].copy) else r;
        assert StillHeld(rows0[k], r', ops, j - 1, n, k);
        ReleaseOne(rows0[k], r', ops, j - 1, n, log[j - 1].lastAcq);
      }
    }
  }

  /** No release throws. */
  lemma NothingThrows(rows0: seq<Row>, rows: seq<Row>, ops: seq<Op>, log: seq<Future>, id: TxnId, n: nat, j: nat)
    requires Releases(rows0, rows, ops, log, id, n) && j < n
    ensures !Throws(rows, ops, log, j)
  {
    ClearedHeld(rows0, rows, ops, log, id, n, j, ops[j].key);
  }

  /** Once the whole log has run, locks and owner counts are what they were. */
  lemma AllReleased(rows0: seq<Row>, rows: seq<Row>, ops: seq<Op>, log: seq<Future>, id: TxnId, n: nat)
    requires Releases(rows0, rows, ops, log, id, n)
    ensures forall k :: 0 <= k < |rows| ==>
      ClearedAll(rows, ops, log, n)[k].owners == rows0[k].owners
      && ClearedAll(rows, ops, log, n)[k].lockType == rows0[k].lockType
  {
    forall k | 0 <= k < |rows|
      ensures ClearedAll(rows, ops, log, n)[k].owners == rows0[k].owners
      ensures ClearedAll(rows, ops, log, n)[k].lockType == rows0[k].lockType
    {
      ClearedHeld(rows0, rows, ops, log, id, n, n, k);
    }
  }

  // ---------------------------------------------------------------- rollback

  lemma {:induction false} RollbackKeepsValue(rows0: seq<Row>, ops: seq<Op>, log: seq<Future>, n: nat, j: nat, k: Key)
    requires OpsOk(ops, |rows0|) && j <= n && LogOf(rows0, ops, log, n) && k < |rows0|
    ensures var r := ClearedAll(LockedAll(rows0, ops, n), ops, log, j)[k];
      r.value == rows0[k].value && r.lastAcq == rows0[k].lastAcq
  {
    if j == 0 {
      LockedRowIs(rows0, ops, n, k);
    } else {
      RollbackKeepsValue(rows0, ops, log, n, j - 1, k);
    }
  }

  /** Taking some locks and running the release log leaves every row exactly as it was. */
  lemma RollbackRestores(rows0: seq<Row>, ops: seq<Op>, log: seq<Future>, id: TxnId, n: nat)
    requires OpsOk(ops, |rows0|) && RowsOk(rows0) && LogOf(rows0, ops, log, n) && Granted(rows0, ops, id, n)
    ensures ClearedAll(LockedAll(rows0, ops, n), ops, log, n) == rows0
    ensures forall j :: 0 <= j < n ==> !Throws(LockedAll(rows0, ops, n), ops, log, j)
  {
    var rows := LockedAll(rows0, ops, n);
    AllReleased(rows0, rows, ops, log, id, n);
    forall j | 0 <= j < n
      ensures !Throws(rows, ops, log, j)
    {
      NothingThrows(rows0, rows, ops, log, id, n, j);
    }
    forall k | 0 <= k < |rows0|
      ensures ClearedAll(rows, ops, log, n)[k] == rows0[k]
    {
      RollbackKeepsValue(rows0, ops, log, n, n, k);
    }
  }

  // ---------------------------------------------------------------- commit

  function Values(rows: seq<Row>): seq<Val> {
    seq(|rows|, k requires 0 <= k < |rows| => rows[k].value)
  }

  predicate Touches(ops: seq<Op>, n: nat, k: Key)
    requires n <= |ops|
  {
    exists j :: 0 <= j < n && ops[j].key == k
  }

  ghost predicate FullLog(rows0: seq<Row>, ops: seq<Op>, log: seq<Future>, id: TxnId)
    requires OpsOk(ops, |rows0|)
  {
    && |log| == |ops|
    && forall j :: 0 <= j < |ops| ==>
         log[j] == AccessedFuture(Future(true, rows0[ops[j].key].value, rows0[ops[j].key].lastAcq), ops[j], id)
  }

  lemma {:induction false} AccessedRowIs(rows: seq<Row>, ops: seq<Op>, n: nat, k: Key)
    requires OpsOk(ops, |rows|) && n <= |ops| && k < |rows|
    ensures var r := AccessedAll(rows, ops, n)[k]; r.(value := rows[k].value) == rows[k]
    ensures (forall j :: 0 <= j < n && Writes(ops[j], k) ==> !ops[j].local) ==> AccessedAll(rows, ops, n)[k] == rows[k]
  {
    if n > 0 {
      AccessedRowIs(rows, ops, n - 1, k);
    }
  }

  lemma {:induction false} AccessedValueIs(rows: seq<Row>, ops: seq<Op>, n: nat, j: nat)
    requires OpsOk(ops, |rows|) && NoSelfConflict(ops) && j < n <= |ops| && ops[j].mode == WRITE && ops[j].local
    ensures AccessedAll(rows, ops, n)[ops[j].key].value == ops[j].value
  {
    if j < n - 1 {
      AccessedValueIs(rows, ops, n - 1, j);
    }
  }

  /** Releasing writes the remote values and the transaction's id. */
  lemma {:induction false} ClearedValueIs(rows: seq<Row>, ops: seq<Op>, log: seq<Future>, id: TxnId, n: nat, k: Key)
    requires OpsOk(ops, |rows|) && NoSelfConflict(ops) && n <= |ops| == |log| && k < |rows|
    requires forall j :: 0 <= j < |ops| ==> log[j].got && (id.valid ==> log[j].lastAcq == id)
    requires !id.valid ==> forall j :: 0 <= j < |ops| ==> log[j].lastAcq == rows[ops[j].key].lastAcq
    requires forall j :: 0 <= j < |ops| && ops[j].mode == WRITE && !ops[j].local ==> log[j].copy == ops[j].value
    ensures var r := ClearedAll(rows, ops, log, n)[k];
      && (forall j :: 0 <= j < n && Writes(ops[j], k) && !ops[j].local ==> r.value == ops[j].value)
      && ((forall j :: 0 <= j < n && Writes(ops[j], k) ==> ops[j].local) ==> r.value == rows[k].value)
      && r.lastAcq == if id.valid && Touches(ops, n, k) then id else rows[k].lastAcq
  {
    if n > 0 {
      ClearedValueIs(rows, ops, log, id, n - 1, k);
    }
  }

  /** What a commit leaves in row `k`. */
  ghost predicate CommittedRow(rows0: seq<Row>, ops: seq<Op>, id: TxnId, r: Row, k: Key)
    requires k < |rows0|
  {
    r == Row(rows0[k].lockType, rows0[k].owners, RunOps(Values(rows0), ops)[k],
             if id.valid && Touches(ops, |ops|, k) then id else rows0[k].lastAcq)
  }

  lemma CommitValue(rows0: seq<Row>, ops: seq<Op>, log: seq<Future>, id: TxnId, k: Key)
    requires OpsOk(ops, |rows0|) && NoSelfConflict(ops) && FullLog(rows0, ops, log, id) && k < |rows0|
    ensures var rows := AccessedAll(LockedAll(rows0, ops, |ops|), ops, |ops|);
      var r := ClearedAll(rows, ops, log, |ops|)[k];
      && r.value == RunOps(Values(rows0), ops)[k]
      && r.lastAcq == if id.valid && Touches(ops, |ops|, k) then id else rows0[k].lastAcq
  {
    var locked := LockedAll(rows0, ops, |ops|);
    var rows := AccessedAll(locked, ops, |ops|);
    forall k' | 0 <= k' < |rows0|
      ensures rows[k'].lastAcq == rows0[k'].lastAcq
    {
      LockedRowIs(rows0, ops, |ops|, k');
      AccessedRowIs(locked, ops, |ops|, k');
    }
    LockedRowIs(rows0, ops, |ops|, k);
    AccessedRowIs(locked, ops, |ops|, k);
    ClearedValueIs(rows, ops, log, id, |ops|, k);
    if j: nat :| j < |ops| && Writes(ops[j], k) {
      RunOpsWrites(Values(rows0), ops, j);
      if ops[j].local {
        AccessedValueIs(locked, ops, |ops|, j);
      }
    } else {
      RunOpsKeeps(Values(rows0), ops, k);
    }
  }

  /** Locking, accessing and releasing amount to the serial reference, and to the id on every row touched. */
  lemma CommitEffect(rows0: seq<Row>, ops: seq<Op>, log: seq<Future>, id: TxnId)
    requires OpsOk(ops, |rows0|) && RowsOk(rows0) && Granted(rows0, ops, id, |ops|) && FullLog(rows0, ops, log, id)
    ensures var rows := ClearedAll(AccessedAll(LockedAll(rows0, ops, |ops|), ops, |ops|), ops, log, |ops|);
      RowsOk(rows) && forall k :: 0 <= k < |rows0| ==> CommittedRow(rows0, ops, id, rows[k], k)
    ensures forall j :: 0 <= j < |ops| ==> !Throws(AccessedAll(LockedAll(rows0, ops, |ops|), ops, |ops|), ops, log, j)
  {
    var locked := LockedAll(rows0, ops, |ops|);
    var rows := AccessedAll(locked, ops, |ops|);
    GrantedModes(rows0, ops, id, |ops|);
    forall k | 0 <= k < |rows0|
      ensures rows[k].owners == locked[k].owners && rows[k].lockType == locked[k].lockType
    {
      AccessedRowIs(locked, ops, |ops|, k);
    }
    AllReleased(rows0, rows, ops, log, id, |ops|);
    forall j | 0 <= j < |ops|
      ensures !Throws(rows, ops, log, j)
    {
      NothingThrows(rows0, rows, ops, log, id, |ops|, j);
    }
    forall k | 0 <= k < |rows0|
      ensures CommittedRow(rows0, ops, id, ClearedAll(rows, ops, log, |ops|)[k], k)
    {
      CommitValue(rows0, ops, log, id, k);
    }
  }

  /** What operation `j` reads: nobody has written its row since it was locked. */
  lemma AccessReads(rows0: seq<Row>, ops: seq<Op>, j: nat)
    requires OpsOk(ops, |rows0|) && NoSelfConflict(ops) && j < |ops| && ops[j].mode != WRITE
    ensures AccessedAll(LockedAll(rows0, ops, |ops|), ops, j)[ops[j].key].value == ResultOf(Values(rows0), ops, j)
    ensures rows0[ops[j].key].value == ResultOf(Values(rows0), ops, j)
  {
    var k := ops[j].key;
    LockedRowIs(rows0, ops, |ops|, k);
    AccessedRowIs(LockedAll(rows0, ops, |ops|), ops, j, k);
    ReadsAsBefore(Values(rows0), ops, j);
  }

  // ---------------------------------------------------------------- the executor

  datatype ErrorCode = SUCCESS | READ_LOCK_FAILED | WRITE_LOCK_FAILED | INVALID_ACCESS_MODE

  function Refusal(mode: Mode): ErrorCode {
    match mode
    case READ => READ_LOCK_FAILED
    case WRITE => WRITE_LOCK_FAILED
    case INVALID => INVALID_ACCESS_MODE
  }

  class Executor {
    const rows: array<Row>
    var log: seq<Future>

    constructor (rows: array<Row>)
      ensures this.rows == rows && log == []
    {
      this.rows := rows;
      log := [];
    }

    method LocalLock(k: Key, mode: Mode, id: TxnId) returns (code: ErrorCode, lastAcq: TxnId)
      requires k < rows.Length
      modifies rows
      ensures code == SUCCESS <==> Grants(old(rows[k]), mode, id)
      ensures code == SUCCESS || (code == READ_LOCK_FAILED && mode == READ)
        || (code == WRITE_LOCK_FAILED && mode == WRITE) || (code == INVALID_ACCESS_MODE && mode == INVALID)
      ensures rows[..] == if code == SUCCESS then old(rows[..])[k := Locked(old(rows[k]), mode)] else old(rows[..])
      ensures code == SUCCESS ==> lastAcq == old(rows[k]).lastAcq
    {
      lastAcq := id;
      if !Compatible(rows[k], mode) {
        return Refusal(mode), id;
      }
      var allow := MiniBatchAllows(rows[k], id);
      if !Compatible(rows[k], mode) || !allow {
        return Refusal(mode), id;
      }
      lastAcq := rows[k].lastAcq;
      rows[k] := rows[k].(owners := rows[k].owners + 1, lockType := mode);
      code := SUCCESS;
    }

    method RemoteLock(k: Key, mode: Mode, id: TxnId) returns (f: Future)
      requires k < rows.Length
      modifies rows
      ensures f.got <==> Grants(old(rows[k]), mode, id)
      ensures rows[..] == if f.got then old(rows[..])[k := Locked(old(rows[k]), mode)] else old(rows[..])
      ensures f.got ==> f == Future(true, old(rows[k]).value, old(rows[k]).lastAcq)
    {
      var allow := MiniBatchAllows(rows[k], id);
      if !Compatible(rows[k], mode) || !allow {
        return Future(false, 0, id);
      }
      f := Future(true, rows[k].value, rows[k].lastAcq);
      rows[k] := rows[k].(owners := rows[k].owners + 1, lockType := mode);
    }

    method LocalUnlock(k: Key, mode: Mode, id: TxnId) returns (code: ErrorCode)
      requires k < rows.Length
      modifies rows
      ensures rows[..] == old(rows[..])[k := Unlocked(old(rows[k]), mode, id)]
      ensures code == if old(rows[k]).lockType == mode then SUCCESS else INVALID_ACCESS_MODE
    {
      rows[k] := rows[k].(lastAcq := id);
      if rows[k].lockType != mode {
        return INVALID_ACCESS_MODE;
      }
      rows[k] := rows[k].(owners := if rows[k].owners == 0 then 0xFFFF_FFFF else rows[k].owners - 1);
      if rows[k].owners > 0 {
        return SUCCESS;
      }
      rows[k] := rows[k].(lockType := INVALID);
      return SUCCESS;
    }

    method RemoteUnlock(k: Key, mode: Mode, copy: Val, id: TxnId)
      requires k < rows.Length
      modifies rows
      ensures rows[..] == old(rows[..])[k :=
        Unlocked(if mode == WRITE then old(rows[k]).(value := copy) else old(rows[k]), mode, id)]
    {
      if mode == WRITE {
        rows[k] := rows[k].(value := copy);
      }
      var _ := LocalUnlock(k, mode, id);
    }

    /** `read` and `write`: lock one row and put it on the release log. */
    method LockRow(op: Op, id: TxnId) returns (ok: bool)
      requires op.key < rows.Length && op.mode != INVALID
      modifies rows, this`log
      ensures ok <==> Grants(old(rows[op.key]), op.mode, id)
      ensures rows[..] == if ok then old(rows[..])[op.key := Locked(old(rows[op.key]), op.mode)] else old(rows[..])
      ensures ok ==> log == old(log) + [Future(true, old(rows[op.key]).value, old(rows[op.key]).lastAcq)]
      ensures !ok ==>
        || log == old(log)
        || (!op.local && |log| == |old(log)| + 1 && old(log) <= log && !log[|old(log)|].got)
    {
      if op.local {
        var code, lastAcq := LocalLock(op.key, op.mode, id);
        if code != SUCCESS {
          return false;
        }
        log := log + [Future(true, rows[op.key].value, lastAcq)];
        return true;
      }
      var f := RemoteLock(op.key, op.mode, id);
      log := log + [f];
      return f.got;
    }

    /** Runs and empties the release log; it stops with an exception at the first release that fails. */
    method ClearLog(ops: seq<Op>) returns (thrown: bool, ghost n: nat)
      requires OpsOk(ops, rows.Length) && |log| <= |ops|
      modifies rows, this`log
      ensures n <= |old(log)| && rows[..] == ClearedAll(old(rows[..]), ops, old(log), n)
      ensures thrown ==> log == old(log) && n > 0 && Throws(old(rows[..]), ops, log, n - 1)
      ensures !thrown ==>
        && log == [] && n == |old(log)|
        && forall j :: 0 <= j < n ==> !Throws(old(rows[..]), ops, old(log), j)
    {
      for i := 0 to |log|
        invariant log == old(log)
        invariant rows[..] == ClearedAll(old(rows[..]), ops, log, i)
        invariant forall j :: 0 <= j < i ==> !Throws(old(rows[..]), ops, log, j)
      {
        var op, f := ops[i], log[i];
        if op.local {
          if !f.got {
            return true, i + 1;
          }
          var code := LocalUnlock(op.key, op.mode, f.lastAcq);
          if code != SUCCESS {
            return true, i + 1;
          }
        } else if f.got {
          RemoteUnlock(op.key, op.mode, f.copy, f.lastAcq);
        }
      }
      thrown, n := false, |log|;
      log := [];
    }

    /** The first loop: locks in the order of the operations, until one is refused. */
    method Acquire(ops: seq<Op>, id: TxnId) returns (ok: bool, ghost n: nat)
      requires OpsOk(ops, rows.Length) && log == []
      modifies rows, this`log
      ensures n <= |ops| && n <= |log| <= |ops| && Granted(old(rows[..]), ops, id, n)
      ensures rows[..] == LockedAll(old(rows[..]), ops, n) && LogOf(old(rows[..]), ops, log, n)
      ensures ok ==> n == |ops|
      ensures !ok ==>
        && n < |ops| && !Granted(old(rows[..]), ops, id, n + 1) && |log| <= n + 1
        && (|log| == n + 1 ==> !log[n].got && !ops[n].local)
    {
      n := 0;
      for i := 0 to |ops|
        invariant n == i && |log| == i && Granted(old(rows[..]), ops, id, i)
        invariant rows[..] == LockedAll(old(rows[..]), ops, i) && LogOf(old(rows[..]), ops, log, i)
      {
        LockedRowIs(old(rows[..]), ops, i, ops[i].key);
        var granted := LockRow(ops[i], id);
        if !granted {
          return false, i;
        }
        n := i + 1;
      }
      ok := true;
    }

    /** The second loop: local writes go to the rows, remote ones to the copies; all futures get the id. */
    method AccessAll(ops: seq<Op>, id: TxnId, ghost rows0: seq<Row>) returns (results: seq<Val>)
      requires OpsOk(ops, rows.Length) && |rows0| == rows.Length && NoSelfConflict(ops)
      requires rows[..] == LockedAll(rows0, ops, |ops|) && LogOf(rows0, ops, log, |ops|) && |log| == |ops|
      modifies rows, this`log
      ensures rows[..] == AccessedAll(LockedAll(rows0, ops, |ops|), ops, |ops|) && FullLog(rows0, ops, log, id)
      ensures |results| == |ops| && forall j :: 0 <= j < |ops| ==> results[j] == ResultOf(Values(rows0), ops, j)
    {
      results := [];
      for i := 0 to |ops|
        invariant |log| == |ops| == |old(log)| && log[i..] == old(log)[i..]
        invariant forall j :: 0 <= j < i ==> log[j] == AccessedFuture(old(log)[j], ops[j], id)
        invariant rows[..] == AccessedAll(LockedAll(rows0, ops, |ops|), ops, i)
        invariant |results| == i && forall j :: 0 <= j < i ==> results[j] == ResultOf(Values(rows0), ops, j)
      {
        var op, f := ops[i], log[i];
        assert f == old(log)[i];
        if op.mode == WRITE {
          if op.local {
            rows[op.key] := rows[op.key].(value := op.value);
          } else {
            f := f.(copy := op.value);
          }
          results := results + [op.value];
        } else {
          AccessReads(rows0, ops, i);
          results := results + [if op.local then rows[op.key].value else f.copy];
        }
        if id.valid {
          f := f.(lastAcq := id);
        }
        log := log[i := f];
      }
    }

    /**
      `my_execute` (with a valid id) and the cold part of `execute` (with an invalid one), run
      while others stand still.
     */
    method Execute(ops: seq<Op>, id: TxnId) returns (committed: bool, results: seq<Val>)
      requires OpsOk(ops, rows.Length) && RowsOk(rows[..]) && log == []
      modifies rows, this`log
      ensures RowsOk(rows[..]) && log == []
      ensures committed <==>
        && NoSelfConflict(ops)
        && forall j :: 0 <= j < |ops| ==> Grants(old(rows[..])[ops[j].key], ops[j].mode, id)
      ensures !committed ==> rows[..] == old(rows[..])
      ensures committed ==> forall k :: 0 <= k < rows.Length ==> CommittedRow(old(rows[..]), ops, id, rows[..][k], k)
      ensures committed ==>
        && |results| == |ops|
        && forall j :: 0 <= j < |ops| ==> results[j] == ResultOf(Values(old(rows[..])), ops, j)
    {
      ghost var rows0 := rows[..];
      ghost var n;
      results := [];
      committed, n := Acquire(ops, id);
      GrantedIff(rows0, ops, id, |ops|);
      if !committed {
        RefusedRestores(rows0, ops, log, id, n);
        var thrown, _ := ClearLog(ops);
        assert !thrown;
        return;
      }
      results := AccessAll(ops, id, rows0);
      CommitEffect(rows0, ops, log, id);
      var thrown, _ := ClearLog(ops);
      assert !thrown;
    }
  }

  /** A refused transaction, with or without the refused request on its log, gives back what it took. */
  lemma RefusedRestores(rows0: seq<Row>, ops: seq<Op>, log: seq<Future>, id: TxnId, n: nat)
    requires OpsOk(ops, |rows0|) && RowsOk(rows0) && n < |ops| && LogOf(rows0, ops, log, n)
    requires Granted(rows0, ops, id, n) && !Granted(rows0, ops, id, n + 1)
    requires n <= |log| <= n + 1 && (|log| == n + 1 ==> !log[n].got && !ops[n].local)
    ensures ClearedAll(LockedAll(rows0, ops, n), ops, log, |log|) == rows0 && !Granted(rows0, ops, id, |ops|)
    ensures forall j :: 0 <= j < |log| ==> !Throws(LockedAll(rows0, ops, n), ops, log, j)
  {
    RefusedForGood(rows0, ops, id, n + 1, |ops|);
    RollbackRestores(rows0, ops, log, id, n);
  }

  lemma {:induction false} RefusedForGood(rows: seq<Row>, ops: seq<Op>, id: TxnId, n: nat, m: nat)
    requires OpsOk(ops, |rows|) && n <= m <= |ops| && !Granted(rows, ops, id, n)
    ensures !Granted(rows, ops, id, m)
  {
    if n < m {
      RefusedForGood(rows, ops, id, n, m - 1);
    }
  }
}
