/**
  When a row refuses a lock, told by the transactions and not by the row: only if somebody holds the row
  in a conflicting mode, or another node has committed the key in the same mini-batch. A node that comes
  back to a key in the same mini-batch is served.
 */
module ColdGrants {
  import opened ColdModel
  import opened ColdLocks
  import CM = ColdMiniBatch

  /** The transaction asks for its next lock and does not get it. */
  predicate IsRefused(s: State, t: nat) {
    Enabled(s, Lock(t)) && Next(s, Lock(t)).txns[t].phase.Releasing?
  }

  function Wanted(s: State, t: nat): Op
    requires Enabled(s, Lock(t))
  {
    s.txns[t].ops[|s.txns[t].log|]
  }

  /** Somebody holds the row, and the two modes do not go together. */
  ghost predicate HasConflict(s: State, op: Op) {
    exists t: nat, j: nat :: HeldOn(s, t, j, op.key) && (op.mode == WRITE || OpAt(s, t, j).mode == WRITE)
  }

  /** A transaction of another node has committed the key in this mini-batch. */
  predicate IsCommittedBy(s: State, t: nat, k: Key, id: TxnId) {
    t < |s.txns| && CM.Committed(s.txns[t]) && CM.Touches(s.txns[t], k) && s.txns[t].id == id
  }

  ghost predicate TakenByOther(s: State, k: Key, id: TxnId) {
    exists t: nat, id': TxnId :: IsCommittedBy(s, t, k, id') && id'.miniBatch == id.miniBatch && id'.node != id.node
  }

  // ---------------------------------------------------------------- where `last_acq` comes from

  /** Nobody's, or that of a transaction that committed the key. */
  ghost predicate IsOrigin(s: State, k: Key, id: TxnId) {
    id == NoAcq || exists t: nat :: IsCommittedBy(s, t, k, id)
  }

  ghost predicate RowsOrigin(s: State) {
    forall k :: 0 <= k < |s.rows| ==> IsOrigin(s, k, s.rows[k].lastAcq)
  }

  /** What a log entry will write back: what the row had, or the transaction's own id once it has accessed the row. */
  ghost predicate EntryOrigin(s: State, t: nat, j: nat) {
    t < |s.txns| && j < |s.txns[t].log| && j < |s.txns[t].ops| &&
    var x := s.txns[t];
    IsOrigin(s, x.ops[j].key, x.log[j].lastAcq) || (x.id.valid && PastPoint(x) && x.log[j].lastAcq == x.id)
  }

  ghost predicate LogsOrigin(s: State) {
    forall t: nat, j: nat :: t < |s.txns| && j < |s.txns[t].log| ==> EntryOrigin(s, t, j)
  }

  /** Committed transactions stay committed. */
  lemma StaysCommitted(s: State, step: Step, t: nat, k: Key, id: TxnId)
    requires Enabled(s, step) && IsCommittedBy(s, t, k, id)
    ensures IsCommittedBy(Next(s, step), t, k, id)
  {
    var j :| 0 <= j < |s.txns[t].ops| && s.txns[t].ops[j].key == k;
    assert Next(s, step).txns[t].ops[j].key == k;
  }

  lemma StaysOrigin(s: State, step: Step, k: Key, id: TxnId)
    requires Enabled(s, step) && IsOrigin(s, k, id)
    ensures IsOrigin(Next(s, step), k, id)
  {
    if id != NoAcq {
      var t: nat :| IsCommittedBy(s, t, k, id);
      StaysCommitted(s, step, t, k, id);
    }
  }

  /** On release a committed transaction has its own id written back, or what the row had before. */
  lemma ReleaseOrigin(s: State, t: nat)
    requires LockInv(s) && LogsOrigin(s) && Enabled(s, Release(t))
    ensures var x := s.txns[t]; IsOrigin(s, x.ops[x.released].key, x.log[x.released].lastAcq)
  {
    var x := s.txns[t];
    var j, k := x.released, x.ops[x.released].key;
    assert EntryOrigin(s, t, j);
    if !IsOrigin(s, k, x.log[j].lastAcq) {
      assert CM.Touches(x, k);
      assert IsCommittedBy(s, t, k, x.id);
      assert false;
    }
  }

  lemma NextKeepsRowsOrigin(s: State, step: Step)
    requires LockInv(s) && RowsOrigin(s) && LogsOrigin(s) && Enabled(s, step)
    ensures RowsOrigin(Next(s, step))
  {
    var s' := Next(s, step);
    forall k | 0 <= k < |s'.rows|
      ensures IsOrigin(s', k, s'.rows[k].lastAcq)
    {
      StaysOrigin(s, step, k, s.rows[k].lastAcq);
      if s'.rows[k].lastAcq != s.rows[k].lastAcq {
        ReleaseOrigin(s, step.t);
        StaysOrigin(s, step, k, s'.rows[k].lastAcq);
      }
    }
  }

  lemma LockOrigin(s: State, t: nat)
    requires LockInv(s) && RowsOrigin(s) && Enabled(s, Lock(t)) && |Next(s, Lock(t)).txns[t].log| > |s.txns[t].log|
    ensures EntryOrigin(Next(s, Lock(t)), t, |s.txns[t].log|)
  {
    var k := Wanted(s, t).key;
    StaysOrigin(s, Lock(t), k, s.rows[k].lastAcq);
  }

  lemma KeptEntryOrigin(s: State, step: Step, t: nat, j: nat)
    requires LockInv(s) && Enabled(s, step) && EntryOrigin(s, t, j)
    requires j < |Next(s, step).txns[t].log| && Next(s, step).txns[t].log[j].lastAcq == s.txns[t].log[j].lastAcq
    ensures EntryOrigin(Next(s, step), t, j)
  {
    var x := s.txns[t];
    if IsOrigin(s, x.ops[j].key, x.log[j].lastAcq) {
      StaysOrigin(s, step, x.ops[j].key, x.log[j].lastAcq);
    }
  }

  lemma NextKeepsLogsOrigin(s: State, step: Step)
    requires LockInv(s) && RowsOrigin(s) && LogsOrigin(s) && Enabled(s, step)
    ensures LogsOrigin(Next(s, step))
  {
    var s' := Next(s, step);
    forall t: nat, j: nat | t < |s'.txns| && j < |s'.txns[t].log|
      ensures EntryOrigin(s', t, j)
    {
      if t < |s.txns| && j < |s.txns[t].log| {
        assert EntryOrigin(s, t, j);
        if s'.txns[t].log[j].lastAcq == s.txns[t].log[j].lastAcq {
          KeptEntryOrigin(s, step, t, j);
        }
      } else if t < |s.txns| {
        LockOrigin(s, t);
      }
    }
  }

  lemma {:induction false} ReachableOrigin(v0: seq<Val>, steps: seq<Step>, states: seq<State>, n: nat)
    requires IsRun(v0, steps, states) && n < |states|
    ensures RowsOrigin(states[n]) && LogsOrigin(states[n])
  {
    if n > 0 {
      ReachableLockInv(v0, steps, states, n - 1);
      ReachableOrigin(v0, steps, states, n - 1);
      NextKeepsRowsOrigin(states[n - 1], steps[n - 1]);
      NextKeepsLogsOrigin(states[n - 1], steps[n - 1]);
    }
  }

  // ---------------------------------------------------------------- refusals

  /** A row is incompatible exactly if it has a conflicting holder. */
  lemma ConflictIsHolder(s: State, op: Op)
    requires LockInv(s) && op.key < |s.rows|
    ensures Compatible(s.rows[op.key], op.mode) <==> !HasConflict(s, op)
  {
    var k := op.key;
    assert RowInv(s, k);
    if !Compatible(s.rows[k], op.mode) {
      assert Holders(s, k) != {};
      var h :| h in Holders(s, k);
      assert HeldOn(s, h.0, h.1, k);
    }
  }

  /** Mini-batches are counted from 1, so nobody's `last_acq` is never of a running one. */
  lemma {:induction false} MiniBatchPositive(v0: seq<Val>, steps: seq<Step>, states: seq<State>, n: nat)
    requires IsRun(v0, steps, states) && n < |states|
    ensures states[n].miniBatch >= 1
    ensures forall t :: 0 <= t < |states[n].txns| && states[n].txns[t].id.valid ==> states[n].txns[t].id.miniBatch >= 1
  {
    if n > 0 {
      MiniBatchPositive(v0, steps, states, n - 1);
      CM.NextKeepsOps(states[n - 1], steps[n - 1]);
    }
  }

  /**
    In every run a request is refused only if somebody holds the row in a conflicting mode or, for a
    transaction that belongs to a mini-batch, another node has committed the key in this mini-batch.
    A conflicting holder is always a reason.
   */
  lemma RefusedOnlyIf(v0: seq<Val>, steps: seq<Step>, states: seq<State>, n: nat, t: nat)
    requires IsRun(v0, steps, states) && n < |states| && Enabled(states[n], Lock(t))
    ensures var s, id := states[n], states[n].txns[t].id;
      && (HasConflict(s, Wanted(s, t)) ==> IsRefused(s, t))
      && (IsRefused(s, t) ==> HasConflict(s, Wanted(s, t)) || (id.valid && TakenByOther(s, Wanted(s, t).key, id)))
  {
    var s := states[n];
    ReachableLockInv(v0, steps, states, n);
    ReachableOrigin(v0, steps, states, n);
    MiniBatchPositive(v0, steps, states, n);
    ConflictIsHolder(s, Wanted(s, t));
    var r := s.rows[Wanted(s, t).key];
    assert IsOrigin(s, Wanted(s, t).key, r.lastAcq);
  }

  /** For a key only ever locked for writing these are exactly the reasons. */
  lemma RefusedIff(v0: seq<Val>, steps: seq<Step>, states: seq<State>, n: nat, t: nat)
    requires IsRun(v0, steps, states) && n < |states| && Enabled(states[n], Lock(t))
    requires CM.IsWriteRun(v0, steps, states, Wanted(states[n], t).key)
    ensures var s, id := states[n], states[n].txns[t].id;
      IsRefused(s, t) <==> HasConflict(s, Wanted(s, t)) || (id.valid && TakenByOther(s, Wanted(s, t).key, id))
  {
    var s := states[n]; var id, k := s.txns[t].id, Wanted(s, t).key;
    RefusedOnlyIf(v0, steps, states, n, t);
    if !HasConflict(s, Wanted(s, t)) && id.valid && TakenByOther(s, k, id) {
      ReachableLockInv(v0, steps, states, n);
      CM.ReachableInv(v0, steps, states, n, k);
      ConflictIsHolder(s, Wanted(s, t));
      assert CM.OnlyWrites(s.txns[t].ops, k);
      OtherIsLast(s, t, k);
    }
  }

  /** On a free row that another node has committed in this mini-batch, that node's id is the last one. */
  lemma OtherIsLast(s: State, t: nat, k: Key)
    requires CM.Inv(s, k) && Enabled(s, Lock(t)) && Wanted(s, t).key == k && s.txns[t].id.valid
    requires s.rows[k].lockType == INVALID && TakenByOther(s, k, s.txns[t].id)
    ensures IsRefused(s, t)
  {
    var id := s.txns[t].id;
    var t': nat, id': TxnId :| IsCommittedBy(s, t', k, id') && id'.miniBatch == id.miniBatch && id'.node != id.node;
    var j' :| 0 <= j' < |s.txns[t'].ops| && s.txns[t'].ops[j'].key == k;
    assert TxnOk(s.txns[t'], |s.rows|) && TxnOk(s.txns[t], |s.rows|);
    assert CM.Used(s, t', j', k);
    assert CM.Follows(s.rows[k].lastAcq, id');
  }
}
