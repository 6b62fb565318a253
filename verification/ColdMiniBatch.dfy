/**
  The mini-batch rule on `last_acq`: a request is never older than the row it asks for, and when
  all cold accesses are writes two nodes never commit the same key in the same mini-batch.
 */
module ColdMiniBatch {
  import opened ColdModel
  import opened ColdLocks

  // ---------------------------------------------------------------- never older

  ghost predicate RowsAge(s: State) {
    forall k :: 0 <= k < |s.rows| ==> s.rows[k].lastAcq.miniBatch <= s.miniBatch
  }

  ghost predicate LogsAge(s: State) {
    forall t: nat, j: nat :: t < |s.txns| && j < |s.txns[t].log| ==> s.txns[t].log[j].lastAcq.miniBatch <= s.miniBatch
  }

  ghost predicate IdsAge(s: State) {
    forall t :: 0 <= t < |s.txns| && s.txns[t].id.valid ==>
      s.txns[t].id.miniBatch <= s.miniBatch && (Done(s.txns[t]) || s.txns[t].id.miniBatch == s.miniBatch)
  }

  ghost predicate AgeInv(s: State) {
    RowsAge(s) && LogsAge(s) && IdsAge(s)
  }

  lemma NextKeepsRowsAge(s: State, step: Step)
    requires AgeInv(s) && Enabled(s, step)
    ensures RowsAge(Next(s, step))
  {
  }

  lemma NextKeepsLogsAge(s: State, step: Step)
    requires AgeInv(s) && Enabled(s, step)
    ensures LogsAge(Next(s, step))
  {
  }

  lemma NextKeepsIdsAge(s: State, step: Step)
    requires TxnsOk(s) && AgeInv(s) && Enabled(s, step)
    ensures IdsAge(Next(s, step))
  {
    assert forall t :: 0 <= t < |s.txns| ==> TxnOk(s.txns[t], |s.rows|);
  }

  lemma NextKeepsAge(s: State, step: Step)
    requires TxnsOk(s) && AgeInv(s) && Enabled(s, step)
    ensures AgeInv(Next(s, step))
  {
    NextKeepsRowsAge(s, step);
    NextKeepsLogsAge(s, step);
    NextKeepsIdsAge(s, step);
  }

  lemma {:induction false} ReachableAge(v0: seq<Val>, steps: seq<Step>, states: seq<State>, n: nat)
    requires IsRun(v0, steps, states) && n < |states|
    ensures AgeInv(states[n])
  {
    if n > 0 {
      ReachableLockInv(v0, steps, states, n - 1);
      ReachableAge(v0, steps, states, n - 1);
      NextKeepsAge(states[n - 1], steps[n - 1]);
    }
  }

  /** The assertion of `mb_allow_lock` holds at every lock request of every run. */
  lemma RequestNeverOlder(v0: seq<Val>, steps: seq<Step>, states: seq<State>, n: nat)
    requires IsRun(v0, steps, states) && n < |steps| && steps[n].Lock?
    ensures var s := states[n]; var x := s.txns[steps[n].t];
      x.id.valid ==> x.id.miniBatch >= s.rows[x.ops[|x.log|].key].lastAcq.miniBatch
  {
    ReachableAge(v0, steps, states, n);
  }

  // ---------------------------------------------------------------- write mode

  /** Key `k` is only ever locked for writing. */
  predicate OnlyWrites(ops: seq<Op>, k: Key) {
    forall j :: 0 <= j < |ops| && ops[j].key == k ==> ops[j].mode == WRITE
  }

  ghost predicate IsWriteRun(v0: seq<Val>, steps: seq<Step>, states: seq<State>, k: Key) {
    IsRun(v0, steps, states) && forall n :: 0 <= n < |steps| && steps[n].Begin? ==> OnlyWrites(steps[n].ops, k)
  }

  ghost predicate WriteMode(s: State, k: Key) {
    forall t :: 0 <= t < |s.txns| ==> OnlyWrites(s.txns[t].ops, k)
  }

  /** `a` may be the next to use a row after `b`. */
  predicate Follows(a: TxnId, b: TxnId) {
    a.miniBatch > b.miniBatch || (a.miniBatch == b.miniBatch && a.node == b.node)
  }

  /** Transaction `t` of a mini-batch has used row `k` by its operation `j`. */
  predicate Used(s: State, t: nat, j: nat, k: Key) {
    t < |s.txns| && j < |s.txns[t].ops| && j < s.txns[t].accessed && s.txns[t].id.valid && s.txns[t].ops[j].key == k
  }

  /** What the row's `last_acq` is, or will be when its holder releases it, follows all who used it. */
  ghost predicate HolderFollows(s: State, k: Key) {
    forall t: nat, j: nat, t': nat, j': nat :: Used(s, t, j, k) && HeldOn(s, t', j', k) ==>
      Follows(s.txns[t'].log[j'].lastAcq, s.txns[t].id)
  }

  ghost predicate FreeRowFollows(s: State, k: Key) {
    forall t: nat, j: nat :: Used(s, t, j, k) && k < |s.rows| && s.rows[k].lockType == INVALID ==>
      Follows(s.rows[k].lastAcq, s.txns[t].id)
  }

  /** A holder that has not used its row yet was allowed to after the last who had. */
  ghost predicate HolderAllowed(s: State, k: Key) {
    forall t: nat, j: nat :: HeldOn(s, t, j, k) && s.txns[t].id.valid && s.txns[t].accessed <= j ==>
      Follows(s.txns[t].id, s.txns[t].log[j].lastAcq)
  }

  ghost predicate UsersAgree(s: State, k: Key) {
    forall t: nat, j: nat, t': nat, j': nat ::
      Used(s, t, j, k) && Used(s, t', j', k) && s.txns[t].id.miniBatch == s.txns[t'].id.miniBatch
      ==> s.txns[t].id.node == s.txns[t'].id.node
  }

  ghost predicate Inv(s: State, k: Key) {
    LockInv(s) && AgeInv(s) && WriteMode(s, k) && HolderFollows(s, k) && FreeRowFollows(s, k) && HolderAllowed(s, k)
    && UsersAgree(s, k)
  }

  // ---------------------------------------------------------------- steps that touch no row

  /** No lock moves, no `last_acq` changes and nobody uses the row. */
  ghost predicate SameUse(s: State, s': State, k: Key) {
    && SameLocks(s, s')
    && (forall t: nat, j: nat :: Used(s', t, j, k) <==> Used(s, t, j, k))
    && (k < |s.rows| ==> s'.rows[k].lastAcq == s.rows[k].lastAcq)
    && (forall t: nat, j: nat :: Held(s, t, j) ==> s'.txns[t].log[j].lastAcq == s.txns[t].log[j].lastAcq)
    && (forall t :: 0 <= t < |s.txns| ==> s'.txns[t].id == s.txns[t].id && s'.txns[t].accessed == s.txns[t].accessed)
    && WriteMode(s', k)
  }

  lemma SameUseKeepsInv(s: State, s': State, k: Key)
    requires Inv(s, k) && LockInv(s') && AgeInv(s') && SameUse(s, s', k)
    ensures Inv(s', k)
  {
  }

  // ---------------------------------------------------------------- locking

  lemma LockUsed(s: State, t: nat, k: Key)
    requires LockInv(s) && Enabled(s, Lock(t))
    ensures forall t': nat, j: nat :: Used(Next(s, Lock(t)), t', j, k) <==> Used(s, t', j, k)
  {
    assert TxnOk(s.txns[t], |s.rows|);
  }

  lemma LockKeepsInv(s: State, t: nat, k: Key)
    requires Inv(s, k) && Enabled(s, Lock(t)) && Gains(s, Lock(t))
    ensures Inv(Next(s, Lock(t)), k)
  {
    var s', j0 := Next(s, Lock(t)), |s.txns[t].log|;
    NextKeepsLockInv(s, Lock(t));
    NextKeepsAge(s, Lock(t));
    LockUsed(s, t, k);
    GainHeld(s, Lock(t));
    assert s'.txns[t].log[..j0] == s.txns[t].log;
    if OpAt(s, t, j0).key == k {
      assert OpAt(s, t, j0).mode == WRITE;
      assert s.rows[k].lockType == INVALID && s'.rows[k].lockType == WRITE;
    }
    forall t1: nat, j1: nat, t': nat, j': nat | Used(s', t1, j1, k) && HeldOn(s', t', j', k)
      ensures Follows(s'.txns[t'].log[j'].lastAcq, s'.txns[t1].id)
    {
      assert Used(s, t1, j1, k);
      if t' != t || j' != j0 {
        assert HeldOn(s, t', j', k);
      }
    }
  }

  lemma RefusalKeepsInv(s: State, t: nat, k: Key)
    requires Inv(s, k) && Enabled(s, Lock(t)) && !Gains(s, Lock(t))
    ensures Inv(Next(s, Lock(t)), k)
  {
    RefusalSameUse(s, t, k);
    NextKeepsLockInv(s, Lock(t));
    NextKeepsAge(s, Lock(t));
    SameUseKeepsInv(s, Next(s, Lock(t)), k);
  }

  lemma RefusalSameUse(s: State, t: nat, k: Key)
    requires LockInv(s) && WriteMode(s, k) && Enabled(s, Lock(t)) && !Gains(s, Lock(t))
    ensures SameUse(s, Next(s, Lock(t)), k)
  {
    LockUsed(s, t, k);
    RefusedStep(s, Lock(t));
  }

  // ---------------------------------------------------------------- accessing

  lemma AccessUsed(s: State, t: nat, k: Key)
    requires LockInv(s) && Enabled(s, Access(t))
    ensures var s', j0 := Next(s, Access(t)), s.txns[t].accessed;
      && Held(s, t, j0) && SameLocks(s, s')
      && (forall t': nat, j: nat :: Used(s', t', j, k) <==>
            Used(s, t', j, k) || (t' == t && j == j0 && s.txns[t].id.valid && OpAt(s, t, j0).key == k))
      && (k < |s.rows| ==> s'.rows[k].lastAcq == s.rows[k].lastAcq)
      && (forall t': nat, j: nat :: Held(s, t', j) ==>
            s'.txns[t'].log[j].lastAcq ==
              if t' == t && j == j0 && s.txns[t].id.valid then s.txns[t].id else s.txns[t'].log[j].lastAcq)
  {
    assert TxnOk(s.txns[t], |s.rows|);
    SameLocksStep(s, Access(t));
  }

  /** Everybody who used the row before is followed by the one who uses it now. */
  lemma AccessFollows(s: State, t: nat, t': nat, j': nat, k: Key)
    requires Inv(s, k) && Enabled(s, Access(t)) && s.txns[t].id.valid && s.txns[t].ops[s.txns[t].accessed].key == k
    requires Used(s, t', j', k)
    ensures Follows(s.txns[t].id, s.txns[t'].id)
  {
    var j0 := s.txns[t].accessed;
    AccessUsed(s, t, k);
    assert HeldOn(s, t, j0, k);
    assert Follows(s.txns[t].id, s.txns[t].log[j0].lastAcq);
    assert Follows(s.txns[t].log[j0].lastAcq, s.txns[t'].id);
  }

  lemma AccessKeepsHolderFollows(s: State, t: nat, k: Key)
    requires Inv(s, k) && Enabled(s, Access(t))
    ensures HolderFollows(Next(s, Access(t)), k)
  {
    var s', j0 := Next(s, Access(t)), s.txns[t].accessed;
    AccessUsed(s, t, k);
    forall t1: nat, j1: nat, t': nat, j': nat | Used(s', t1, j1, k) && HeldOn(s', t', j', k)
      ensures Follows(s'.txns[t'].log[j'].lastAcq, s'.txns[t1].id)
    {
      assert HeldOn(s, t', j', k);
      if !Used(s, t1, j1, k) {
        WriterAlone(s, t, j0, t', j');
      } else if t' == t && j' == j0 && s.txns[t].id.valid {
        AccessFollows(s, t, t1, j1, k);
      }
    }
  }

  lemma AccessKeepsUsersAgree(s: State, t: nat, k: Key)
    requires Inv(s, k) && Enabled(s, Access(t))
    ensures UsersAgree(Next(s, Access(t)), k)
  {
    var s' := Next(s, Access(t));
    AccessUsed(s, t, k);
    forall t1: nat, j1: nat, t2: nat, j2: nat |
      Used(s', t1, j1, k) && Used(s', t2, j2, k) && s'.txns[t1].id.miniBatch == s'.txns[t2].id.miniBatch
      ensures s'.txns[t1].id.node == s'.txns[t2].id.node
    {
      if Used(s, t1, j1, k) && !Used(s, t2, j2, k) {
        AccessFollows(s, t, t1, j1, k);
      } else if Used(s, t2, j2, k) && !Used(s, t1, j1, k) {
        AccessFollows(s, t, t2, j2, k);
      }
    }
  }

  lemma AccessKeepsInv(s: State, t: nat, k: Key)
    requires Inv(s, k) && Enabled(s, Access(t))
    ensures Inv(Next(s, Access(t)), k)
  {
    NextKeepsLockInv(s, Access(t));
    NextKeepsAge(s, Access(t));
    AccessUsed(s, t, k);
    AccessKeepsHolderFollows(s, t, k);
    AccessKeepsUsersAgree(s, t, k);
  }

  // ---------------------------------------------------------------- releasing and the rest

  lemma ReleaseUsed(s: State, t: nat, k: Key)
    requires LockInv(s) && Enabled(s, Release(t))
    ensures forall t': nat, j: nat :: Used(Next(s, Release(t)), t', j, k) <==> Used(s, t', j, k)
  {
  }

  lemma ReleaseKeepsInv(s: State, t: nat, k: Key)
    requires Inv(s, k) && Enabled(s, Release(t)) && Gives(s, Release(t))
    ensures Inv(Next(s, Release(t)), k)
  {
    NextKeepsLockInv(s, Release(t));
    NextKeepsAge(s, Release(t));
    ReleaseUsed(s, t, k);
    GiveHeld(s, Release(t));
    var s', j0 := Next(s, Release(t)), s.txns[t].released;
    if OpAt(s, t, j0).key == k {
      assert HeldOn(s, t, j0, k);
      assert s'.rows[k].lastAcq == s.txns[t].log[j0].lastAcq;
    }
  }

  lemma QuietKeepsInv(s: State, step: Step, k: Key)
    requires Inv(s, k) && Enabled(s, step) && SameLocks(s, Next(s, step))
    requires !step.Lock? && !step.Access? && (step.Begin? ==> OnlyWrites(step.ops, k)) && !Gives(s, step)
    ensures Inv(Next(s, step), k)
  {
    QuietSameUse(s, step, k);
    NextKeepsLockInv(s, step);
    NextKeepsAge(s, step);
    SameUseKeepsInv(s, Next(s, step), k);
  }

  lemma QuietSameUse(s: State, step: Step, k: Key)
    requires LockInv(s) && WriteMode(s, k) && Enabled(s, step) && SameLocks(s, Next(s, step))
    requires !step.Lock? && !step.Access? && (step.Begin? ==> OnlyWrites(step.ops, k)) && !Gives(s, step)
    ensures SameUse(s, Next(s, step), k)
  {
  }

  lemma NextKeepsInv(s: State, step: Step, k: Key)
    requires Inv(s, k) && Enabled(s, step) && (step.Begin? ==> OnlyWrites(step.ops, k))
    ensures Inv(Next(s, step), k)
  {
    if step.Lock? {
      if Gains(s, step) {
        LockKeepsInv(s, step.t, k);
      } else {
        RefusalKeepsInv(s, step.t, k);
      }
    } else if step.Access? {
      AccessKeepsInv(s, step.t, k);
    } else if step.Release? {
      if Gives(s, step) {
        ReleaseKeepsInv(s, step.t, k);
      } else {
        RefusedStep(s, step);
        QuietKeepsInv(s, step, k);
      }
    } else {
      SameLocksStep(s, step);
      QuietKeepsInv(s, step, k);
    }
  }

  lemma {:induction false} ReachableInv(v0: seq<Val>, steps: seq<Step>, states: seq<State>, n: nat, k: Key)
    requires IsWriteRun(v0, steps, states, k) && n < |states|
    ensures Inv(states[n], k)
  {
    if n == 0 {
      InitLockInv(v0);
    } else {
      ReachableInv(v0, steps, states, n - 1, k);
      NextKeepsInv(states[n - 1], steps[n - 1], k);
    }
  }

  predicate Committed(x: Txn) {
    x.phase.Releasing? && x.phase.committed && x.id.valid
  }

  /** Two nodes never commit the same key in the same mini-batch if it is only ever locked for writing. */
  lemma MiniBatchesDisjoint(v0: seq<Val>, steps: seq<Step>, states: seq<State>, n: nat, t: nat, j: nat, t': nat,
                            j': nat)
    requires IsRun(v0, steps, states) && n < |states| && t < |states[n].txns| && t' < |states[n].txns|
    requires Committed(states[n].txns[t]) && Committed(states[n].txns[t'])
    requires states[n].txns[t].id.miniBatch == states[n].txns[t'].id.miniBatch
    requires states[n].txns[t].id.node != states[n].txns[t'].id.node
    requires j < |states[n].txns[t].ops| && j' < |states[n].txns[t'].ops|
    requires IsWriteRun(v0, steps, states, states[n].txns[t].ops[j].key)
    ensures states[n].txns[t].ops[j].key != states[n].txns[t'].ops[j'].key
  {
    var s := states[n]; var k := s.txns[t].ops[j].key;
    ReachableInv(v0, steps, states, n, k);
    assert TxnOk(s.txns[t], |s.rows|) && TxnOk(s.txns[t'], |s.rows|);
    assert Used(s, t, j, k);
    assert !Used(s, t', j', k);
  }

  // ---------------------------------------------------------------- which accesses keep mini-batches disjoint

  /** Which node may lock the key, and how. */
  type Policy = (nat, Mode) -> bool

  predicate Obeys(allow: Policy, id: TxnId, ops: seq<Op>, k: Key) {
    forall j :: 0 <= j < |ops| && ops[j].key == k ==> allow(id.node, ops[j].mode)
  }

  ghost predicate IsPolicyRun(allow: Policy, k: Key, v0: seq<Val>, steps: seq<Step>, states: seq<State>) {
    IsRun(v0, steps, states)
    && forall n :: 0 <= n < |steps| && steps[n].Begin? ==> Obeys(allow, steps[n].id, steps[n].ops, k)
  }

  /** Whoever shares the key by reading it has it alone. */
  ghost predicate ReaderAlone(allow: Policy) {
    forall a: nat, b: nat, mode: Mode :: a != b && allow(a, READ) && mode != INVALID ==> !allow(b, mode)
  }

  predicate Touches(x: Txn, k: Key) {
    exists j :: 0 <= j < |x.ops| && x.ops[j].key == k
  }

  predicate Overlap(x: Txn, y: Txn, k: Key) {
    Committed(x) && Committed(y) && x.id.miniBatch == y.id.miniBatch && x.id.node != y.id.node && Touches(x, k)
    && Touches(y, k)
  }

  ghost predicate DisjointOn(s: State, k: Key) {
    forall t, t' :: 0 <= t < |s.txns| && 0 <= t' < |s.txns| ==> !Overlap(s.txns[t], s.txns[t'], k)
  }

  /** Ids and operations stay as they were when the transaction began. */
  lemma NextKeepsOps(s: State, step: Step)
    requires Enabled(s, step)
    ensures var s' := Next(s, step);
      && |s'.txns| == |s.txns| + (if step.Begin? then 1 else 0) && |s'.rows| == |s.rows|
      && (forall t :: 0 <= t < |s.txns| ==> s'.txns[t].id == s.txns[t].id && s'.txns[t].ops == s.txns[t].ops)
      && (step.Begin? ==> s'.txns[|s.txns|].id == step.id && s'.txns[|s.txns|].ops == step.ops)
  {
  }

  lemma {:induction false} PolicyKept(allow: Policy, k: Key, v0: seq<Val>, steps: seq<Step>, states: seq<State>, n: nat)
    requires IsPolicyRun(allow, k, v0, steps, states) && n < |states|
    ensures forall t :: 0 <= t < |states[n].txns| ==>
      Obeys(allow, states[n].txns[t].id, states[n].txns[t].ops, k) && OpsOk(states[n].txns[t].ops, |states[n].rows|)
  {
    if n > 0 {
      PolicyKept(allow, k, v0, steps, states, n - 1);
      NextKeepsOps(states[n - 1], steps[n - 1]);
    }
  }

  lemma AloneIsDisjoint(allow: Policy, k: Key, v0: seq<Val>, steps: seq<Step>, states: seq<State>, n: nat, t: nat,
                        t': nat)
    requires ReaderAlone(allow) && IsPolicyRun(allow, k, v0, steps, states) && n < |states|
    requires t < |states[n].txns| && t' < |states[n].txns|
    ensures !Overlap(states[n].txns[t], states[n].txns[t'], k)
  {
    var x, y := states[n].txns[t], states[n].txns[t'];
    if Overlap(x, y, k) {
      var j :| 0 <= j < |x.ops| && x.ops[j].key == k;
      var j' :| 0 <= j' < |y.ops| && y.ops[j'].key == k;
      PolicyKept(allow, k, v0, steps, states, n);
      if a: nat :| allow(a, READ) {
        assert false;
      } else {
        forall i | 0 <= i < |steps| && steps[i].Begin?
          ensures OnlyWrites(steps[i].ops, k)
        {
          assert Enabled(states[i], steps[i]) && Obeys(allow, steps[i].id, steps[i].ops, k);
        }
        MiniBatchesDisjoint(v0, steps, states, n, t, j, t', j');
      }
    }
  }

  // ---------------------------------------------------------------- a reader that rolls back

  // Two transactions of node a read row k and want row k + 1. The second is refused it, and when it
  // rolls back it writes the row's older `last_acq` back over that of the first, which has committed.
  // So a transaction of node b is let in, in the same mini-batch.

  function Id(node: nat): TxnId {
    TxnId(true, node, 1)
  }

  function ReaderOps(k: Key): seq<Op> {
    [Op(READ, k, 0, true), Op(WRITE, k + 1, 0, true)]
  }

  const Old := Future(true, 0, NoAcq)

  /** The two rows and the transactions. */
  ghost predicate Looks(s: State, k: Key, r: Row, r': Row, txns: seq<Txn>, points: nat) {
    |s.rows| == k + 2 && s.rows[k] == r && s.rows[k + 1] == r' && s.txns == txns && s.miniBatch == 1
    && |s.order| == points
  }

  ghost predicate Reaches(allow: Policy, k: Key, steps: seq<Step>, states: seq<State>, r: Row, r': Row,
                          txns: seq<Txn>, points: nat)
  {
    IsPolicyRun(allow, k, seq(k + 2, i => 0), steps, states) && Looks(states[|steps|], k, r, r', txns, points)
  }

  lemma Extend(allow: Policy, k: Key, v0: seq<Val>, steps: seq<Step>, states: seq<State>, step: Step)
    requires IsPolicyRun(allow, k, v0, steps, states) && Enabled(states[|steps|], step)
    requires step.Begin? ==> Obeys(allow, step.id, step.ops, k)
    ensures IsPolicyRun(allow, k, v0, steps + [step], states + [Next(states[|steps|], step)])
  {
  }

  lemma Go(allow: Policy, k: Key, steps: seq<Step>, states: seq<State>, step: Step, r: Row, r': Row, txns: seq<Txn>,
           points: nat)
    returns (steps': seq<Step>, states': seq<State>)
    requires IsPolicyRun(allow, k, seq(k + 2, i => 0), steps, states) && Enabled(states[|steps|], step)
    requires step.Begin? ==> Obeys(allow, step.id, step.ops, k)
    requires Looks(Next(states[|steps|], step), k, r, r', txns, points)
    ensures Reaches(allow, k, steps', states', r, r', txns, points)
  {
    Extend(allow, k, seq(k + 2, i => 0), steps, states, step);
    steps', states' := steps + [step], states + [Next(states[|steps|], step)];
  }

  function Free(): Row {
    Row(INVALID, 0, 0, NoAcq)
  }

  function Reader(a: nat, k: Key, phase: Phase, log: seq<Future>): Txn {
    Txn(Id(a), ReaderOps(k), phase, log, 0, [], 0, 0)
  }

  lemma TwoReadersBegin(allow: Policy, a: nat, k: Key) returns (steps: seq<Step>, states: seq<State>)
    requires allow(a, READ)
    ensures var x := Reader(a, k, Locking, []); Reaches(allow, k, steps, states, Free(), Free(), [x, x], 0)
  {
    var x := Reader(a, k, Locking, []);
    steps, states := [], [Init(seq(k + 2, i => 0))];
    steps, states := Go(allow, k, steps, states, Begin(Id(a), ReaderOps(k)), Free(), Free(), [x], 0);
    steps, states := Go(allow, k, steps, states, Begin(Id(a), ReaderOps(k)), Free(), Free(), [x, x], 0);
  }

  lemma TwoReadersLock(allow: Policy, a: nat, k: Key) returns (steps: seq<Step>, states: seq<State>)
    requires allow(a, READ)
    ensures var x := Reader(a, k, Locking, [Old]);
      Reaches(allow, k, steps, states, Row(READ, 2, 0, NoAcq), Free(), [x, x], 0)
  {
    var x0, x1 := Reader(a, k, Locking, []), Reader(a, k, Locking, [Old]);
    steps, states := TwoReadersBegin(allow, a, k);
    assert LockTxn(Free(), x0) == x1 == LockTxn(Row(READ, 1, 0, NoAcq), x0) by { assert [] + [Old] == [Old]; }
    steps, states := Go(allow, k, steps, states, Lock(0), Row(READ, 1, 0, NoAcq), Free(), [x1, x0], 0);
    steps, states := Go(allow, k, steps, states, Lock(1), Row(READ, 2, 0, NoAcq), Free(), [x1, x1], 0);
  }

  lemma OneIsRefused(allow: Policy, a: nat, k: Key) returns (steps: seq<Step>, states: seq<State>)
    requires allow(a, READ)
    ensures Reaches(allow, k, steps, states, Row(READ, 2, 0, NoAcq), Row(WRITE, 1, 0, NoAcq),
                    [Reader(a, k, Accessing, [Old, Old]), Reader(a, k, Releasing(false), [Old])], 1)
  {
    var x1, x2, y := Reader(a, k, Locking, [Old]), Reader(a, k, Locking, [Old, Old]),
      Reader(a, k, Releasing(false), [Old]);
    var r, r' := Row(READ, 2, 0, NoAcq), Row(WRITE, 1, 0, NoAcq);
    steps, states := TwoReadersLock(allow, a, k);
    assert LockTxn(Free(), x1) == x2 by { assert [Old] + [Old] == [Old, Old]; }
    steps, states := Go(allow, k, steps, states, Lock(0), r, r', [x2, x1], 0);
    steps, states := Go(allow, k, steps, states, Lock(1), r, r', [x2, y], 0);
    steps, states := Go(allow, k, steps, states, Ready(0), r, r', [x2.(phase := Accessing), y], 1);
  }

  /** The transaction that has both locks, after it read and wrote. */
  function Winner(a: nat, k: Key, phase: Phase, released: nat): Txn {
    var f := Future(true, 0, Id(a));
    Txn(Id(a), ReaderOps(k), phase, [f, f], 2, [0, 0], released, 0)
  }

  lemma OtherCommits(allow: Policy, a: nat, k: Key) returns (steps: seq<Step>, states: seq<State>)
    requires allow(a, READ)
    ensures Reaches(allow, k, steps, states, Row(READ, 2, 0, NoAcq), Row(WRITE, 1, 0, NoAcq),
                    [Winner(a, k, Releasing(true), 0), Reader(a, k, Releasing(false), [Old])], 1)
  {
    var r, r', y := Row(READ, 2, 0, NoAcq), Row(WRITE, 1, 0, NoAcq), Reader(a, k, Releasing(false), [Old]);
    var f := Future(true, 0, Id(a));
    var x := Txn(Id(a), ReaderOps(k), Accessing, [f, Old], 1, [0], 0, 0);
    assert AccessTxn(r, Reader(a, k, Accessing, [Old, Old])) == x by {
      assert [Old, Old][0 := f] == [f, Old] && [] + [0] == [0];
    }
    assert AccessTxn(r', x) == Winner(a, k, Accessing, 0) by {
      assert [f, Old][1 := f] == [f, f] && [0] + [0] == [0, 0];
    }
    steps, states := OneIsRefused(allow, a, k);
    steps, states := Go(allow, k, steps, states, Access(0), r, r', [x, y], 1);
    steps, states := Go(allow, k, steps, states, Access(0), r, r', [Winner(a, k, Accessing, 0), y], 1);
    steps, states := Go(allow, k, steps, states, Commit(0), r, r', [Winner(a, k, Releasing(true), 0), y], 1);
  }

  lemma RollbackForgets(allow: Policy, a: nat, k: Key) returns (steps: seq<Step>, states: seq<State>)
    requires allow(a, READ)
    ensures Reaches(allow, k, steps, states, Free(), Row(WRITE, 1, 0, NoAcq),
                    [Winner(a, k, Releasing(true), 1), Reader(a, k, Releasing(false), [Old]).(released := 1)], 1)
  {
    var r', w, y := Row(WRITE, 1, 0, NoAcq), Winner(a, k, Releasing(true), 1), Reader(a, k, Releasing(false), [Old]);
    steps, states := OtherCommits(allow, a, k);
    steps, states := Go(allow, k, steps, states, Release(0), Row(READ, 1, 0, Id(a)), r', [w, y], 1);
    steps, states := Go(allow, k, steps, states, Release(1), Free(), r', [w, y.(released := 1)], 1);
  }

  /** The transaction of the other node, whose row is remote. */
  function Intruder(b: nat, k: Key, mode: Mode, phase: Phase, log: seq<Future>, accessed: nat, point: nat): Txn {
    Txn(Id(b), [Op(mode, k, 0, false)], phase, log, accessed, if accessed == 0 then [] else [0], 0, point)
  }

  lemma IntruderLocks(allow: Policy, b: nat, mode: Mode, k: Key, w: Txn, y: Txn, steps0: seq<Step>,
                      states0: seq<State>)
    returns (steps: seq<Step>, states: seq<State>)
    requires allow(b, mode) && mode != INVALID
    requires Reaches(allow, k, steps0, states0, Free(), Row(WRITE, 1, 0, NoAcq), [w, y], 1)
    ensures Reaches(allow, k, steps, states, Row(mode, 1, 0, NoAcq), Row(WRITE, 1, 0, NoAcq),
                    [w, y, Intruder(b, k, mode, Locking, [Old], 0, 0)], 1)
  {
    var r, r', x := Row(mode, 1, 0, NoAcq), Row(WRITE, 1, 0, NoAcq), Intruder(b, k, mode, Locking, [], 0, 0);
    steps, states := Go(allow, k, steps0, states0, Begin(Id(b), [Op(mode, k, 0, false)]), Free(), r', [w, y, x], 1);
    assert LockTxn(Free(), x) == Intruder(b, k, mode, Locking, [Old], 0, 0) by { assert [] + [Old] == [Old]; }
    steps, states := Go(allow, k, steps, states, Lock(2), r, r', [w, y, Intruder(b, k, mode, Locking, [Old], 0, 0)], 1);
  }

  lemma IntruderCommits(allow: Policy, b: nat, mode: Mode, k: Key, w: Txn, y: Txn, steps0: seq<Step>,
                        states0: seq<State>)
    returns (steps: seq<Step>, states: seq<State>)
    requires allow(b, mode) && mode != INVALID
    requires Reaches(allow, k, steps0, states0, Row(mode, 1, 0, NoAcq), Row(WRITE, 1, 0, NoAcq),
                     [w, y, Intruder(b, k, mode, Locking, [Old], 0, 0)], 1)
    ensures Reaches(allow, k, steps, states, Row(mode, 1, 0, NoAcq), Row(WRITE, 1, 0, NoAcq),
                    [w, y, Intruder(b, k, mode, Releasing(true), [Future(true, 0, Id(b))], 1, 1)], 2)
  {
    var r, r', f := Row(mode, 1, 0, NoAcq), Row(WRITE, 1, 0, NoAcq), Future(true, 0, Id(b));
    var x, x' := Intruder(b, k, mode, Accessing, [Old], 0, 1), Intruder(b, k, mode, Accessing, [f], 1, 1);
    steps, states := Go(allow, k, steps0, states0, Ready(2), r, r', [w, y, x], 2);
    assert AccessTxn(r, x) == x' by { assert [Old][0 := f] == [f] && [] + [0] == [0]; }
    steps, states := Go(allow, k, steps, states, Access(2), r, r', [w, y, x'], 2);
    steps, states := Go(allow, k, steps, states, Commit(2), r, r', [w, y, x'.(phase := Releasing(true))], 2);
  }

  /** If one node may read the key and another may lock it at all, both can commit it in one mini-batch. */
  lemma SharedLocksOverlap(allow: Policy, k: Key, a: nat, b: nat, mode: Mode)
    returns (steps: seq<Step>, states: seq<State>)
    requires a != b && allow(a, READ) && allow(b, mode) && mode != INVALID
    ensures IsPolicyRun(allow, k, seq(k + 2, i => 0), steps, states) && !DisjointOn(states[|steps|], k)
  {
    var w, y := Winner(a, k, Releasing(true), 1), Reader(a, k, Releasing(false), [Old]).(released := 1);
    steps, states := RollbackForgets(allow, a, k);
    steps, states := IntruderLocks(allow, b, mode, k, w, y, steps, states);
    steps, states := IntruderCommits(allow, b, mode, k, w, y, steps, states);
    var txns := states[|steps|].txns;
    assert txns[0].ops[0].key == k && txns[2].ops[0].key == k;
    assert Overlap(txns[0], txns[2], k);
  }

  /** Mini-batches are disjoint on a key in every run if and only if no node reads it that another may lock. */
  lemma DisjointIff(allow: Policy, k: Key)
    ensures ReaderAlone(allow) <==>
      forall v0, steps, states, n :: IsPolicyRun(allow, k, v0, steps, states) && 0 <= n < |states| ==>
        DisjointOn(states[n], k)
  {
    if ReaderAlone(allow) {
      forall v0: seq<Val>, steps: seq<Step>, states: seq<State>, n | IsPolicyRun(allow, k, v0, steps, states)
        && 0 <= n < |states|
        ensures DisjointOn(states[n], k)
      {
        forall t, t' | 0 <= t < |states[n].txns| && 0 <= t' < |states[n].txns|
          ensures !Overlap(states[n].txns[t], states[n].txns[t'], k)
        {
          AloneIsDisjoint(allow, k, v0, steps, states, n, t, t');
        }
      }
    } else {
      var a: nat, b: nat, mode :| a != b && allow(a, READ) && mode != INVALID && allow(b, mode);
      var steps, states := SharedLocksOverlap(allow, k, a, b, mode);
      assert IsPolicyRun(allow, k, seq(k + 2, i => 0), steps, states);
    }
  }
}
