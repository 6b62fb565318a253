/**
  The cold path is serializable in lock-point order: what transactions read and what rows hold is
  what running the committed transactions one after the other gives, and a transaction that rolls
  back changes no value.
 */
module ColdSerial {
  import opened ColdModel
  import opened ColdLocks

  // ---------------------------------------------------------------- one transaction alone

  predicate Writes(op: Op, k: Key) {
    op.mode == WRITE && op.key == k
  }

  /** Two operations on one key both read it. */
  predicate NoSelfConflict(ops: seq<Op>) {
    forall i, j :: 0 <= i < |ops| && 0 <= j < |ops| && i != j && ops[i].key == ops[j].key ==> ops[i].mode != WRITE
  }

  lemma {:induction false} RunOpsKeeps(vals: seq<Val>, ops: seq<Op>, k: Key)
    requires k < |vals| && forall j :: 0 <= j < |ops| ==> !Writes(ops[j], k)
    ensures RunOps(vals, ops)[k] == vals[k]
  {
    if ops != [] {
      RunOpsKeeps(vals, ops[..|ops| - 1], k);
      assert !Writes(ops[|ops| - 1], k);
    }
  }

  lemma {:induction false} RunOpsWrites(vals: seq<Val>, ops: seq<Op>, j: nat)
    requires NoSelfConflict(ops) && j < |ops| && ops[j].key < |vals| && ops[j].mode == WRITE
    ensures RunOps(vals, ops)[ops[j].key] == ops[j].value
  {
    if j < |ops| - 1 {
      RunOpsWrites(vals, ops[..|ops| - 1], j);
    }
  }

  lemma ReadsAsBefore(vals: seq<Val>, ops: seq<Op>, j: nat)
    requires NoSelfConflict(ops) && j < |ops| && ops[j].key < |vals| && ops[j].mode != WRITE
    ensures ResultOf(vals, ops, j) == vals[ops[j].key]
  {
    RunOpsKeeps(vals, ops[..j], ops[j].key);
  }

  // ---------------------------------------------------------------- the invariant

  /** The write is decided but not yet in the row. */
  predicate Pending(s: State, t: nat, j: nat) {
    Held(s, t, j) && PastPoint(s.txns[t]) && OpAt(s, t, j).mode == WRITE
    && (OpAt(s, t, j).local ==> s.txns[t].accessed <= j)
  }

  ghost predicate PendingOn(s: State, k: Key) {
    exists t: nat, j: nat :: Pending(s, t, j) && OpAt(s, t, j).key == k
  }

  ghost function Vals(v0: seq<Val>, s: State): seq<Val> {
    Serial(v0, s.order)
  }

  ghost function ValsBefore(v0: seq<Val>, s: State, p: nat): seq<Val> {
    if p <= |s.order| then Serial(v0, s.order[..p]) else v0
  }

  ghost predicate SettledInv(v0: seq<Val>, s: State) {
    && |v0| == |s.rows|
    && forall k :: 0 <= k < |s.rows| && s.rows[k].value != Vals(v0, s)[k] ==> PendingOn(s, k)
  }

  ghost predicate PendingInv(v0: seq<Val>, s: State) {
    && |v0| == |s.rows|
    && forall t: nat, j: nat :: Pending(s, t, j) ==>
       OpAt(s, t, j).key < |v0| && Vals(v0, s)[OpAt(s, t, j).key] == OpAt(s, t, j).value
  }

  predicate Written(x: Txn, j: nat)
    requires j < |x.ops|
  {
    PastPoint(x) && x.ops[j].mode == WRITE && x.accessed > j
  }

  ghost predicate CopyInv(s: State) {
    forall t: nat, j: nat :: Held(s, t, j) && !OpAt(s, t, j).local ==>
      && OpAt(s, t, j).key < |s.rows|
      && s.txns[t].log[j].copy == if Written(s.txns[t], j) then OpAt(s, t, j).value else s.rows[OpAt(s, t, j).key].value
  }

  ghost predicate OrderInv(s: State) {
    && (forall t :: 0 <= t < |s.txns| && PastPoint(s.txns[t]) ==>
          NoSelfConflict(s.txns[t].ops) && s.txns[t].point < |s.order|
          && s.order[s.txns[t].point] == Exec(t, s.txns[t].ops))
    && (forall p :: 0 <= p < |s.order| ==>
          var t := s.order[p].tid; t < |s.txns| && PastPoint(s.txns[t]) && s.txns[t].point == p)
  }

  /** A row read-locked by a decided transaction still has the value it had at its lock point. */
  ghost predicate ReadLockInv(v0: seq<Val>, s: State) {
    && |v0| == |s.rows|
    && forall t: nat, j: nat :: Held(s, t, j) && PastPoint(s.txns[t]) && OpAt(s, t, j).mode != WRITE ==>
         OpAt(s, t, j).key < |v0|
         && ValsBefore(v0, s, s.txns[t].point)[OpAt(s, t, j).key] == Vals(v0, s)[OpAt(s, t, j).key]
  }

  ghost predicate ResultOk(v0: seq<Val>, s: State, t: nat, j: nat) {
    && t < |s.txns| && j < |s.txns[t].results| && j < |s.txns[t].ops| && OpAt(s, t, j).key < |v0|
    && s.txns[t].results[j] == ResultOf(ValsBefore(v0, s, s.txns[t].point), s.txns[t].ops, j)
  }

  ghost predicate ResultsInv(v0: seq<Val>, s: State) {
    forall t: nat, j: nat :: t < |s.txns| && j < |s.txns[t].results| ==> ResultOk(v0, s, t, j)
  }

  ghost predicate Inv(v0: seq<Val>, s: State) {
    && LockInv(s) && SettledInv(v0, s) && PendingInv(v0, s) && CopyInv(s)
    && OrderInv(s) && ReadLockInv(v0, s) && ResultsInv(v0, s)
  }

  // ---------------------------------------------------------------- reaching the lock point

  lemma ReadyNoSelfConflict(s: State, t: nat)
    requires LockInv(s) && Enabled(s, Ready(t))
    ensures NoSelfConflict(s.txns[t].ops)
  {
    var ops := s.txns[t].ops;
    forall i: nat, j: nat | i < |ops| && j < |ops| && i != j && ops[i].key == ops[j].key
      ensures ops[i].mode != WRITE
    {
      assert TxnOk(s.txns[t], |s.rows|);
      assert Held(s, t, i) && Held(s, t, j);
      SharedMeansReading(s, t, i, t, j);
    }
  }

  /** What other transactions have locked keeps its serial value. */
  lemma ReadyKeepsLocked(v0: seq<Val>, s: State, t: nat, t': nat, j': nat)
    requires LockInv(s) && |v0| == |s.rows| && Enabled(s, Ready(t)) && Held(s, t', j') && t' != t
    ensures OpAt(s, t', j').key < |v0|
    ensures Vals(v0, Next(s, Ready(t)))[OpAt(s, t', j').key] == Vals(v0, s)[OpAt(s, t', j').key]
  {
    var ops, k := s.txns[t].ops, OpAt(s, t', j').key;
    assert TxnOk(s.txns[t'], |s.rows|);
    ReadyVals(v0, s, t);
    forall j: nat | j < |ops|
      ensures !Writes(ops[j], k)
    {
      assert TxnOk(s.txns[t], |s.rows|);
      assert Held(s, t, j);
      if Writes(ops[j], k) {
        WriterAlone(s, t, j, t', j');
      }
    }
    RunOpsKeeps(Vals(v0, s), ops, k);
  }

  lemma ReadyVals(v0: seq<Val>, s: State, t: nat)
    requires Enabled(s, Ready(t))
    ensures Vals(v0, Next(s, Ready(t))) == RunOps(Vals(v0, s), s.txns[t].ops)
    ensures forall p: nat :: p <= |s.order| ==> ValsBefore(v0, Next(s, Ready(t)), p) == ValsBefore(v0, s, p)
  {
    var s' := Next(s, Ready(t));
    assert s'.order[..|s'.order| - 1] == s.order;
    forall p: nat | p <= |s.order|
      ensures ValsBefore(v0, s', p) == ValsBefore(v0, s, p)
    {
      assert s'.order[..p] == s.order[..p];
    }
  }

  lemma ReadyHeld(s: State, t: nat)
    requires LockInv(s) && Enabled(s, Ready(t))
    ensures var s' := Next(s, Ready(t));
      && (forall t': nat, j: nat :: Held(s', t', j) <==> Held(s, t', j))
      && (forall t': nat, j: nat :: Pending(s', t', j) <==>
         (if t' == t then Held(s, t, j) && OpAt(s, t, j).mode == WRITE else Pending(s, t', j)))
  {
    assert TxnOk(s.txns[t], |s.rows|);
  }

  lemma ReadyKeepsSettled(v0: seq<Val>, s: State, t: nat)
    requires LockInv(s) && SettledInv(v0, s) && Enabled(s, Ready(t))
    ensures SettledInv(v0, Next(s, Ready(t)))
  {
    var s', ops := Next(s, Ready(t)), s.txns[t].ops;
    ReadyHeld(s, t);
    ReadyVals(v0, s, t);
    forall k | 0 <= k < |s'.rows| && s'.rows[k].value != Vals(v0, s')[k]
      ensures PendingOn(s', k)
    {
      assert TxnOk(s.txns[t], |s.rows|);
      if j: nat :| j < |ops| && Writes(ops[j], k) {
        assert Held(s, t, j) && Pending(s', t, j);
      } else {
        RunOpsKeeps(Vals(v0, s), ops, k);
        var t', j' :| Pending(s, t', j') && OpAt(s, t', j').key == k;
        assert Pending(s', t', j');
      }
    }
  }

  lemma ReadyKeepsPending(v0: seq<Val>, s: State, t: nat)
    requires LockInv(s) && PendingInv(v0, s) && Enabled(s, Ready(t))
    ensures PendingInv(v0, Next(s, Ready(t)))
  {
    var s' := Next(s, Ready(t));
    ReadyHeld(s, t);
    ReadyVals(v0, s, t);
    ReadyNoSelfConflict(s, t);
    forall t': nat, j: nat | Pending(s', t', j)
      ensures OpAt(s', t', j).key < |v0| && Vals(v0, s')[OpAt(s', t', j).key] == OpAt(s', t', j).value
    {
      assert TxnOk(s.txns[t'], |s.rows|);
      if t' == t {
        RunOpsWrites(Vals(v0, s), s.txns[t].ops, j);
      } else {
        ReadyKeepsLocked(v0, s, t, t', j);
      }
    }
  }

  lemma ReadyKeepsReadLock(v0: seq<Val>, s: State, t: nat)
    requires LockInv(s) && OrderInv(s) && ReadLockInv(v0, s) && Enabled(s, Ready(t))
    ensures ReadLockInv(v0, Next(s, Ready(t)))
  {
    var s' := Next(s, Ready(t));
    ReadyHeld(s, t);
    ReadyVals(v0, s, t);
    ReadyNoSelfConflict(s, t);
    forall t': nat, j: nat | Held(s', t', j) && PastPoint(s'.txns[t']) && OpAt(s', t', j).mode != WRITE
      ensures OpAt(s', t', j).key < |v0|
      ensures ValsBefore(v0, s', s'.txns[t'].point)[OpAt(s', t', j).key] == Vals(v0, s')[OpAt(s', t', j).key]
    {
      assert TxnOk(s.txns[t'], |s.rows|);
      if t' == t {
        RunOpsKeeps(Vals(v0, s), s.txns[t].ops, OpAt(s, t, j).key);
        assert s.order[..|s.order|] == s.order;
      } else {
        ReadyKeepsLocked(v0, s, t, t', j);
      }
    }
  }

  lemma ReadyKeepsRest(v0: seq<Val>, s: State, t: nat)
    requires Inv(v0, s) && Enabled(s, Ready(t))
    ensures var s' := Next(s, Ready(t)); CopyInv(s') && OrderInv(s') && ResultsInv(v0, s')
  {
    var s' := Next(s, Ready(t));
    ReadyHeld(s, t);
    ReadyVals(v0, s, t);
    ReadyNoSelfConflict(s, t);
    assert TxnOk(s.txns[t], |s.rows|);
    forall t': nat, j: nat | t' < |s'.txns| && j < |s'.txns[t'].results|
      ensures ResultOk(v0, s', t', j)
    {
      assert ResultOk(v0, s, t', j);
      assert TxnOk(s.txns[t'], |s.rows|);
    }
  }

  lemma ReadyKeepsInv(v0: seq<Val>, s: State, t: nat)
    requires Inv(v0, s) && Enabled(s, Ready(t))
    ensures Inv(v0, Next(s, Ready(t)))
  {
    NextKeepsLockInv(s, Ready(t));
    ReadyKeepsSettled(v0, s, t);
    ReadyKeepsPending(v0, s, t);
    ReadyKeepsReadLock(v0, s, t);
    ReadyKeepsRest(v0, s, t);
  }

  // ---------------------------------------------------------------- steps that do not reach a lock point

  predicate SameDecision(x: Txn, x': Txn) {
    x'.ops == x.ops && PastPoint(x') == PastPoint(x) && x'.point == x.point
  }

  /** The serial run stays as it is. */
  ghost predicate SamePast(s: State, s': State) {
    && s'.order == s.order && |s'.txns| >= |s.txns| && |s'.rows| == |s.rows|
    && (forall t :: 0 <= t < |s.txns| ==> SameDecision(s.txns[t], s'.txns[t]))
    && (forall t :: |s.txns| <= t < |s'.txns| ==> !PastPoint(s'.txns[t]))
  }

  lemma NextSamePast(s: State, step: Step)
    requires TxnsOk(s) && Enabled(s, step) && !step.Ready?
    ensures SamePast(s, Next(s, step))
  {
  }

  lemma SamePastKeeps(v0: seq<Val>, s: State, s': State)
    requires OrderInv(s) && SamePast(s, s')
    ensures OrderInv(s')
  {
  }

  lemma KeepsReadLock(v0: seq<Val>, s: State, s': State)
    requires ReadLockInv(v0, s) && SamePast(s, s')
    requires forall t: nat, j: nat :: Held(s', t, j) && t < |s.txns| && PastPoint(s.txns[t]) ==> Held(s, t, j)
    ensures ReadLockInv(v0, s')
  {
  }

  lemma KeepsResults(v0: seq<Val>, s: State, s': State)
    requires ResultsInv(v0, s) && SamePast(s, s') && |s'.txns| == |s.txns|
    requires forall t :: 0 <= t < |s.txns| ==> s'.txns[t].results == s.txns[t].results
    ensures ResultsInv(v0, s')
  {
    forall t: nat, j: nat | t < |s'.txns| && j < |s'.txns[t].results|
      ensures ResultOk(v0, s', t, j)
    {
      assert ResultOk(v0, s, t, j);
    }
  }

  // ---------------------------------------------------------------- beginning, committing, a new mini-batch

  lemma QuietKeepsInv(v0: seq<Val>, s: State, step: Step)
    requires Inv(v0, s) && Enabled(s, step) && (step.Begin? || step.Commit? || step.NextMiniBatch?)
    ensures Inv(v0, Next(s, step))
  {
    var s' := Next(s, step);
    NextKeepsLockInv(s, step);
    NextSamePast(s, step);
    SamePastKeeps(v0, s, s');
    SameLocksStep(s, step);
    KeepsReadLock(v0, s, s');
    assert forall t: nat, j: nat :: Pending(s', t, j) <==> Pending(s, t, j);
    forall k | 0 <= k < |s'.rows| && s'.rows[k].value != Vals(v0, s')[k]
      ensures PendingOn(s', k)
    {
      var t, j :| Pending(s, t, j) && OpAt(s, t, j).key == k;
      assert Pending(s', t, j);
    }
    forall t: nat, j: nat | t < |s'.txns| && j < |s'.txns[t].results|
      ensures ResultOk(v0, s', t, j)
    {
      assert ResultOk(v0, s, t, j);
    }
  }

  // ---------------------------------------------------------------- locking

  lemma LockPending(s: State, t: nat)
    requires LockInv(s) && Enabled(s, Lock(t))
    ensures forall t': nat, j: nat :: Pending(Next(s, Lock(t)), t', j) <==> Pending(s, t', j)
    ensures forall t': nat, j: nat :: t' != t ==> (Held(Next(s, Lock(t)), t', j) <==> Held(s, t', j))
    ensures forall k :: 0 <= k < |s.rows| ==> Next(s, Lock(t)).rows[k].value == s.rows[k].value
  {
    assert TxnOk(s.txns[t], |s.rows|);
  }

  lemma LockKeepsCopies(s: State, t: nat)
    requires LockInv(s) && CopyInv(s) && Enabled(s, Lock(t))
    ensures CopyInv(Next(s, Lock(t)))
  {
    var s' := Next(s, Lock(t));
    LockPending(s, t);
    forall t': nat, j: nat | Held(s', t', j) && !OpAt(s', t', j).local
      ensures OpAt(s', t', j).key < |s'.rows|
      ensures s'.txns[t'].log[j].copy ==
        if Written(s'.txns[t'], j) then OpAt(s', t', j).value else s'.rows[OpAt(s', t', j).key].value
    {
      if t' == t {
        assert TxnOk(s.txns[t], |s.rows|);
        assert j < |s.txns[t].log| ==> Held(s, t, j);
      }
    }
  }

  lemma LockKeepsInv(v0: seq<Val>, s: State, t: nat)
    requires Inv(v0, s) && Enabled(s, Lock(t))
    ensures Inv(v0, Next(s, Lock(t)))
  {
    var s' := Next(s, Lock(t));
    NextKeepsLockInv(s, Lock(t));
    NextSamePast(s, Lock(t));
    SamePastKeeps(v0, s, s');
    LockPending(s, t);
    LockKeepsCopies(s, t);
    KeepsReadLock(v0, s, s');
    KeepsResults(v0, s, s');
    forall k | 0 <= k < |s'.rows| && s'.rows[k].value != Vals(v0, s')[k]
      ensures PendingOn(s', k)
    {
      var t', j :| Pending(s, t', j) && OpAt(s, t', j).key == k;
      assert Pending(s', t', j);
    }
  }

  // ---------------------------------------------------------------- accessing

  /** What the next access of `t` reads is the value at its lock point. */
  lemma AccessResult(v0: seq<Val>, s: State, t: nat)
    requires Inv(v0, s) && Enabled(s, Access(t))
    ensures var x := s.txns[t]; var j := x.accessed;
      && Held(s, t, j) && OpAt(s, t, j).key < |v0|
      && AccessTxn(s.rows[x.ops[j].key], x).results == x.results + [ResultOf(ValsBefore(v0, s, x.point), x.ops, j)]
  {
    var x := s.txns[t]; var j := x.accessed; var op := x.ops[j];
    assert TxnOk(x, |s.rows|);
    assert Held(s, t, j);
    if op.mode != WRITE {
      ReadsAsBefore(ValsBefore(v0, s, x.point), x.ops, j);
    }
  }

  lemma AccessHeld(s: State, t: nat)
    requires LockInv(s) && Enabled(s, Access(t))
    ensures var s', j0 := Next(s, Access(t)), s.txns[t].accessed;
      && OnlyTouches(s, s', t, OpAt(s, t, j0).key) && Held(s, t, j0)
      && (forall t': nat, j: nat :: Held(s', t', j) <==> Held(s, t', j))
      && (forall t': nat, j: nat :: Pending(s', t', j) <==>
         Pending(s, t', j) && !(t' == t && j == j0 && OpAt(s, t, j0).local))
      && (OpAt(s, t, j0).mode != WRITE || !OpAt(s, t, j0).local ==> s'.rows == s.rows)
  {
    assert TxnOk(s.txns[t], |s.rows|);
  }

  lemma AccessKeepsSettled(v0: seq<Val>, s: State, t: nat)
    requires LockInv(s) && SettledInv(v0, s) && PendingInv(v0, s) && Enabled(s, Access(t))
    ensures SettledInv(v0, Next(s, Access(t)))
  {
    var s', j0 := Next(s, Access(t)), s.txns[t].accessed;
    AccessHeld(s, t);
    forall k | 0 <= k < |s'.rows| && s'.rows[k].value != Vals(v0, s')[k]
      ensures PendingOn(s', k)
    {
      if OpAt(s, t, j0).key == k && OpAt(s, t, j0).local && OpAt(s, t, j0).mode == WRITE {
        assert Pending(s, t, j0);
        assert false;
      }
      var t', j :| Pending(s, t', j) && OpAt(s, t', j).key == k;
      assert Pending(s', t', j);
    }
  }

  lemma AccessKeepsCopies(s: State, t: nat)
    requires LockInv(s) && CopyInv(s) && Enabled(s, Access(t))
    ensures CopyInv(Next(s, Access(t)))
  {
    var s', j0 := Next(s, Access(t)), s.txns[t].accessed;
    AccessHeld(s, t);
    forall t': nat, j: nat | Held(s', t', j) && !OpAt(s', t', j).local
      ensures OpAt(s', t', j).key < |s'.rows|
      ensures s'.txns[t'].log[j].copy ==
        if Written(s'.txns[t'], j) then OpAt(s', t', j).value else s'.rows[OpAt(s', t', j).key].value
    {
      assert Held(s, t', j);
      if OpAt(s, t, j0).mode == WRITE && OpAt(s, t', j).key == OpAt(s, t, j0).key {
        WriterAlone(s, t, j0, t', j);
      }
    }
  }

  lemma AccessKeepsResults(v0: seq<Val>, s: State, t: nat)
    requires Inv(v0, s) && Enabled(s, Access(t))
    ensures ResultsInv(v0, Next(s, Access(t)))
  {
    var s' := Next(s, Access(t));
    AccessResult(v0, s, t);
    NextSamePast(s, Access(t));
    forall t': nat, j: nat | t' < |s'.txns| && j < |s'.txns[t'].results|
      ensures ResultOk(v0, s', t', j)
    {
      if t' != t || j < |s.txns[t].results| {
        assert ResultOk(v0, s, t', j);
      }
    }
  }

  lemma AccessKeepsInv(v0: seq<Val>, s: State, t: nat)
    requires Inv(v0, s) && Enabled(s, Access(t))
    ensures Inv(v0, Next(s, Access(t)))
  {
    var s' := Next(s, Access(t));
    NextKeepsLockInv(s, Access(t));
    NextSamePast(s, Access(t));
    SamePastKeeps(v0, s, s');
    AccessHeld(s, t);
    AccessKeepsSettled(v0, s, t);
    AccessKeepsCopies(s, t);
    AccessKeepsResults(v0, s, t);
    KeepsReadLock(v0, s, s');
  }

  // ---------------------------------------------------------------- releasing

  /** Releasing writes back what the row holds already, or completes a pending write. */
  lemma ReleaseValue(v0: seq<Val>, s: State, t: nat)
    requires LockInv(s) && PendingInv(v0, s) && CopyInv(s) && Enabled(s, Release(t))
    ensures var x := s.txns[t]; var k := x.ops[x.released].key;
      var v := Next(s, Release(t)).rows[k].value;
      v == s.rows[k].value || (Pending(s, t, x.released) && v == Vals(v0, s)[k])
    ensures !PastPoint(s.txns[t]) ==>
      forall k :: 0 <= k < |s.rows| ==> Next(s, Release(t)).rows[k].value == s.rows[k].value
  {
    var x := s.txns[t]; var j := x.released;
    assert TxnOk(x, |s.rows|);
    if x.log[j].got {
      assert Held(s, t, j);
    }
  }

  lemma ReleaseHeld(s: State, t: nat)
    requires LockInv(s) && Enabled(s, Release(t))
    ensures var s', j0 := Next(s, Release(t)), s.txns[t].released;
      && OnlyTouches(s, s', t, OpAt(s, t, j0).key)
      && (forall t': nat, j: nat :: Held(s', t', j) <==> Held(s, t', j) && !(t' == t && j == j0))
      && (forall t': nat, j: nat :: Pending(s', t', j) <==> Pending(s, t', j) && !(t' == t && j == j0))
  {
  }

  lemma ReleaseKeepsSettled(v0: seq<Val>, s: State, t: nat)
    requires Inv(v0, s) && Enabled(s, Release(t))
    ensures SettledInv(v0, Next(s, Release(t)))
  {
    var s', j0 := Next(s, Release(t)), s.txns[t].released;
    ReleaseHeld(s, t);
    ReleaseValue(v0, s, t);
    forall k | 0 <= k < |s'.rows| && s'.rows[k].value != Vals(v0, s')[k]
      ensures PendingOn(s', k)
    {
      var t', j :| Pending(s, t', j) && OpAt(s, t', j).key == k;
      assert Pending(s', t', j);
    }
  }

  lemma ReleaseKeepsCopies(v0: seq<Val>, s: State, t: nat)
    requires Inv(v0, s) && Enabled(s, Release(t))
    ensures CopyInv(Next(s, Release(t)))
  {
    var s', j0 := Next(s, Release(t)), s.txns[t].released;
    ReleaseHeld(s, t);
    ReleaseValue(v0, s, t);
    forall t': nat, j: nat | Held(s', t', j) && !OpAt(s', t', j).local
      ensures OpAt(s', t', j).key < |s'.rows|
      ensures s'.txns[t'].log[j].copy ==
        if Written(s'.txns[t'], j) then OpAt(s', t', j).value else s'.rows[OpAt(s', t', j).key].value
    {
      assert Held(s, t', j);
      if Pending(s, t, j0) && OpAt(s, t', j).key == OpAt(s, t, j0).key {
        WriterAlone(s, t, j0, t', j);
      }
    }
  }

  lemma ReleaseKeepsInv(v0: seq<Val>, s: State, t: nat)
    requires Inv(v0, s) && Enabled(s, Release(t))
    ensures Inv(v0, Next(s, Release(t)))
  {
    var s' := Next(s, Release(t));
    NextKeepsLockInv(s, Release(t));
    NextSamePast(s, Release(t));
    SamePastKeeps(v0, s, s');
    ReleaseHeld(s, t);
    ReleaseKeepsSettled(v0, s, t);
    ReleaseKeepsCopies(v0, s, t);
    KeepsReadLock(v0, s, s');
    KeepsResults(v0, s, s');
  }

  // ---------------------------------------------------------------- every run

  lemma NextKeepsInv(v0: seq<Val>, s: State, step: Step)
    requires Inv(v0, s) && Enabled(s, step)
    ensures Inv(v0, Next(s, step))
  {
    match step
    case Lock(t) => LockKeepsInv(v0, s, t);
    case Ready(t) => ReadyKeepsInv(v0, s, t);
    case Access(t) => AccessKeepsInv(v0, s, t);
    case Release(t) => ReleaseKeepsInv(v0, s, t);
    case Begin(_, _) => QuietKeepsInv(v0, s, step);
    case Commit(_) => QuietKeepsInv(v0, s, step);
    case NextMiniBatch => QuietKeepsInv(v0, s, step);
  }

  lemma InitInv(v0: seq<Val>)
    ensures Inv(v0, Init(v0))
  {
    InitLockInv(v0);
  }

  lemma {:induction false} ReachableInv(v0: seq<Val>, steps: seq<Step>, states: seq<State>, n: nat)
    requires IsRun(v0, steps, states) && n < |states|
    ensures Inv(v0, states[n])
  {
    if n == 0 {
      InitInv(v0);
    } else {
      ReachableInv(v0, steps, states, n - 1);
      NextKeepsInv(v0, states[n - 1], steps[n - 1]);
    }
  }

  // ---------------------------------------------------------------- theorems

  /** `order` lists each transaction that got all its locks exactly once, with its operations. */
  ghost predicate ListsDecided(s: State) {
    && (forall p :: 0 <= p < |s.order| ==> s.order[p].tid < |s.txns| && s.order[p].ops == s.txns[s.order[p].tid].ops)
    && (forall p :: 0 <= p < |s.order| ==> NoSelfConflict(s.order[p].ops))
    && (forall p, q :: 0 <= p < q < |s.order| ==> s.order[p].tid != s.order[q].tid)
    && (forall t: nat :: t < |s.txns| ==> (PastPoint(s.txns[t]) <==> Exec(t, s.txns[t].ops) in s.order))
  }

  /**
    For every interleaving: each value a transaction reads is the one it reads when the decided
    transactions run alone, one after the other, in lock-point order; and once no transaction
    is under way the rows hold what that serial run leaves.
   */
  lemma ColdPathSerializable(v0: seq<Val>, steps: seq<Step>, states: seq<State>, n: nat)
    requires IsRun(v0, steps, states) && n < |states|
    ensures var s := states[n];
      && ListsDecided(s)
      && (forall t: nat, j: nat :: t < |s.txns| && j < |s.txns[t].results| ==> ResultOk(v0, s, t, j))
      && ((forall t :: 0 <= t < |s.txns| ==> Done(s.txns[t])) ==>
            |s.rows| == |v0| && forall k :: 0 <= k < |s.rows| ==>
              s.rows[k].value == Serial(v0, s.order)[k] && s.rows[k].lockType == INVALID)
  {
    var s := states[n];
    ReachableInv(v0, steps, states, n);
    if forall t :: 0 <= t < |s.txns| ==> Done(s.txns[t]) {
      forall k | 0 <= k < |s.rows|
        ensures s.rows[k].value == Serial(v0, s.order)[k] && s.rows[k].lockType == INVALID
      {
        assert RowInv(s, k);
        assert Holders(s, k) == {};
      }
    }
  }

  /**
    A transaction that has not got all its locks changes no value: neither while it locks nor when
    it rolls back, although a remote write lock is released by writing the row's copy back. One
    that has got them all never rolls back.
   */
  lemma RollbackChangesNothing(v0: seq<Val>, steps: seq<Step>, states: seq<State>, n: nat)
    requires IsRun(v0, steps, states) && n < |steps|
    ensures var s, s', step := states[n], states[n + 1], steps[n];
      && ((step.Lock? || step.Release?) && !PastPoint(s.txns[step.t]) ==>
            forall k :: 0 <= k < |s.rows| ==> s'.rows[k].value == s.rows[k].value)
      && (forall t :: 0 <= t < |s.txns| && PastPoint(s.txns[t]) ==> PastPoint(s'.txns[t]))
  {
    var s, step := states[n], steps[n];
    ReachableInv(v0, steps, states, n);
    if step.Lock? {
      LockPending(s, step.t);
    } else if step.Release? {
      ReleaseValue(v0, s, step.t);
    }
    if !step.Ready? {
      NextSamePast(s, step);
    }
  }
}
