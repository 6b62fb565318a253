/**
  What every step of the cold path keeps about locks: a row's owner count is the number of log
  entries that hold it, writers are alone, and a release never meets a row in another mode.
 */
module ColdLocks {
  import opened ColdModel

  // ---------------------------------------------------------------- shape of a transaction

  predicate AllGot(log: seq<Future>) {
    forall j :: 0 <= j < |log| ==> log[j].got
  }

  predicate PastPoint(x: Txn) {
    x.phase.Accessing? || (x.phase.Releasing? && x.phase.committed)
  }

  predicate TxnOk(x: Txn, nRows: nat) {
    && OpsOk(x.ops, nRows) && |x.log| <= |x.ops| && |x.results| == x.accessed
    && (x.phase.Releasing? ==> x.released <= |x.log|) && (!x.phase.Releasing? ==> x.released == 0)
    && (x.phase.Locking? ==> AllGot(x.log))
    && (PastPoint(x) ==> |x.log| == |x.ops| && AllGot(x.log) && x.accessed <= |x.ops|)
    && (x.phase.Releasing? && x.phase.committed ==> x.accessed == |x.ops|)
    && (!PastPoint(x) ==> x.accessed == 0)
  }

  ghost predicate TxnsOk(s: State) {
    forall t :: 0 <= t < |s.txns| ==> TxnOk(s.txns[t], |s.rows|)
  }

  lemma NextKeepsTxnsOk(s: State, step: Step)
    requires TxnsOk(s) && Enabled(s, step)
    ensures TxnsOk(Next(s, step))
  {
  }

  // ---------------------------------------------------------------- held locks

  predicate HoldsEntry(x: Txn, j: nat) {
    j < |x.log| && j < |x.ops| && x.log[j].got && x.released <= j
  }

  /** Log entry `j` of transaction `t` holds its row. */
  predicate Held(s: State, t: nat, j: nat) {
    t < |s.txns| && HoldsEntry(s.txns[t], j)
  }

  function OpAt(s: State, t: nat, j: nat): Op
    requires t < |s.txns| && j < |s.txns[t].ops|
  {
    s.txns[t].ops[j]
  }

  ghost predicate HeldOn(s: State, t: nat, j: nat, k: Key) {
    Held(s, t, j) && OpAt(s, t, j).key == k
  }

  ghost function Holders(s: State, k: Key): set<(nat, nat)> {
    set t: nat, j: nat | t < |s.txns| && j < |s.txns[t].log| && HeldOn(s, t, j, k) :: (t, j)
  }

  ghost predicate RowInv(s: State, k: Key)
    requires k < |s.rows|
  {
    && s.rows[k].owners == |Holders(s, k)|
    && (s.rows[k].lockType == INVALID <==> s.rows[k].owners == 0)
    && (s.rows[k].lockType == WRITE ==> s.rows[k].owners == 1)
  }

  ghost predicate RowsInv(s: State) {
    forall k :: 0 <= k < |s.rows| ==> RowInv(s, k)
  }

  ghost predicate ModesInv(s: State) {
    forall t: nat, j: nat :: Held(s, t, j) ==>
      OpAt(s, t, j).key < |s.rows| && s.rows[OpAt(s, t, j).key].lockType == OpAt(s, t, j).mode
  }

  ghost predicate LockInv(s: State) {
    TxnsOk(s) && RowsInv(s) && ModesInv(s)
  }

  /** A writer shares its row with nobody. */
  lemma WriterAlone(s: State, t: nat, j: nat, t': nat, j': nat)
    requires LockInv(s) && Held(s, t, j) && Held(s, t', j') && OpAt(s, t, j).key == OpAt(s, t', j').key
    requires OpAt(s, t, j).mode == WRITE
    ensures t == t' && j == j'
  {
    var k := OpAt(s, t, j).key;
    assert RowInv(s, k);
    OneElement(Holders(s, k), (t, j), (t', j'));
  }

  lemma OneElement<T>(a: set<T>, x: T, y: T)
    requires |a| == 1 && x in a && y in a
    ensures x == y
  {
    if x != y {
      assert {x, y} <= a;
      SubsetSize({x, y}, a);
    }
  }

  lemma SubsetSize<T>(a: set<T>, b: set<T>)
    requires a <= b
    ensures |a| <= |b|
  {
    assert b == a + (b - a);
  }

  /** Only transaction `t` and its entries on row `k` change. */
  ghost predicate OnlyTouches(s: State, s': State, t: nat, k: Key) {
    && t < |s.txns| && |s'.txns| == |s.txns| && |s'.rows| == |s.rows| && k < |s.rows|
    && (forall t' :: 0 <= t' < |s.txns| && t' != t ==> s'.txns[t'] == s.txns[t'])
    && (forall k' :: 0 <= k' < |s.rows| && k' != k ==> s'.rows[k'] == s.rows[k'])
    && s'.txns[t].ops == s.txns[t].ops
  }

  lemma SameHolders(s: State, s': State, k: Key)
    requires forall t: nat, j: nat :: HeldOn(s, t, j, k) <==> HeldOn(s', t, j, k)
    ensures Holders(s', k) == Holders(s, k)
  {
  }

  lemma OneMoreHolder(s: State, s': State, k: Key, t: nat, j: nat)
    requires forall t': nat, j': nat :: HeldOn(s', t', j', k) <==> HeldOn(s, t', j', k) || (t' == t && j' == j)
    requires !HeldOn(s, t, j, k)
    ensures |Holders(s', k)| == |Holders(s, k)| + 1
  {
    assert HeldOn(s', t, j, k);
    assert Holders(s', k) == Holders(s, k) + {(t, j)};
  }

  // ---------------------------------------------------------------- steps that move no lock

  /** The step gives and takes no lock. */
  ghost predicate SameLocks(s: State, s': State) {
    && |s'.rows| == |s.rows| && |s'.txns| >= |s.txns|
    && (forall t: nat, j: nat :: Held(s', t, j) <==> Held(s, t, j))
    && (forall t :: 0 <= t < |s.txns| ==> s'.txns[t].ops == s.txns[t].ops)
    && (forall k :: 0 <= k < |s.rows| ==>
       s'.rows[k].lockType == s.rows[k].lockType && s'.rows[k].owners == s.rows[k].owners)
  }

  lemma SameLocksKeepInv(s: State, s': State)
    requires LockInv(s) && TxnsOk(s') && SameLocks(s, s')
    ensures LockInv(s')
  {
    forall k | 0 <= k < |s'.rows|
      ensures RowInv(s', k)
    {
      assert RowInv(s, k);
      SameHolders(s, s', k);
    }
  }

  lemma SameLocksStep(s: State, step: Step)
    requires TxnsOk(s) && Enabled(s, step)
    requires step.Begin? || step.Ready? || step.Access? || step.Commit? || step.NextMiniBatch?
    ensures SameLocks(s, Next(s, step))
  {
  }

  // ---------------------------------------------------------------- lock and release

  predicate Gains(s: State, step: Step)
    requires Enabled(s, step)
  {
    step.Lock? && var x := s.txns[step.t]; var op := x.ops[|x.log|]; Grants(s.rows[op.key], op.mode, x.id)
  }

  predicate Gives(s: State, step: Step)
    requires Enabled(s, step)
  {
    step.Release? && var x := s.txns[step.t]; x.log[x.released].got
  }

  lemma GainHeld(s: State, step: Step)
    requires LockInv(s) && Enabled(s, step) && Gains(s, step)
    ensures var s', t, j := Next(s, step), step.t, |s.txns[step.t].log|;
      && OnlyTouches(s, s', t, OpAt(s, t, j).key) && !Held(s, t, j)
      && forall t': nat, j': nat :: Held(s', t', j') <==> Held(s, t', j') || (t' == t && j' == j)
  {
  }

  lemma GiveHeld(s: State, step: Step)
    requires LockInv(s) && Enabled(s, step) && Gives(s, step)
    ensures var s', t, j := Next(s, step), step.t, s.txns[step.t].released;
      && OnlyTouches(s, s', t, OpAt(s, t, j).key) && Held(s, t, j)
      && forall t': nat, j': nat :: Held(s', t', j') <==> Held(s, t', j') && (t' != t || j' != j)
  {
  }

  lemma GainKeepsRows(s: State, step: Step)
    requires LockInv(s) && Enabled(s, step) && Gains(s, step)
    ensures RowsInv(Next(s, step))
  {
    var s', t, j := Next(s, step), step.t, |s.txns[step.t].log|;
    GainHeld(s, step);
    forall k | 0 <= k < |s'.rows|
      ensures RowInv(s', k)
    {
      assert RowInv(s, k);
      if k == OpAt(s, t, j).key {
        OneMoreHolder(s, s', k, t, j);
      } else {
        SameHolders(s, s', k);
      }
    }
  }

  lemma GainKeepsModes(s: State, step: Step)
    requires LockInv(s) && Enabled(s, step) && Gains(s, step)
    ensures ModesInv(Next(s, step))
  {
    var s', t, j := Next(s, step), step.t, |s.txns[step.t].log|;
    var k := OpAt(s, t, j).key;
    GainHeld(s, step);
    forall t': nat, j': nat | Held(s', t', j')
      ensures OpAt(s', t', j').key < |s'.rows| && s'.rows[OpAt(s', t', j').key].lockType == OpAt(s', t', j').mode
    {
      if (t' != t || j' != j) && OpAt(s, t', j').key == k {
        assert RowInv(s, k);
        assert (t', j') in Holders(s, k);
      }
    }
  }

  lemma GiveKeepsRows(s: State, step: Step)
    requires LockInv(s) && Enabled(s, step) && Gives(s, step)
    ensures RowsInv(Next(s, step))
  {
    var s', t, j := Next(s, step), step.t, s.txns[step.t].released;
    GiveHeld(s, step);
    forall k | 0 <= k < |s'.rows|
      ensures RowInv(s', k)
    {
      assert RowInv(s, k);
      if k == OpAt(s, t, j).key {
        OneMoreHolder(s', s, k, t, j);
      } else {
        SameHolders(s, s', k);
      }
    }
  }

  lemma GiveKeepsModes(s: State, step: Step)
    requires LockInv(s) && Enabled(s, step) && Gives(s, step)
    ensures ModesInv(Next(s, step))
  {
    var s', t, j := Next(s, step), step.t, s.txns[step.t].released;
    var k := OpAt(s, t, j).key;
    GiveHeld(s, step);
    forall t': nat, j': nat | Held(s', t', j')
      ensures OpAt(s', t', j').key < |s'.rows| && s'.rows[OpAt(s', t', j').key].lockType == OpAt(s', t', j').mode
    {
      if OpAt(s, t', j').key == k {
        assert RowInv(s, k);
        if s.rows[k].owners == 1 {
          OneElement(Holders(s, k), (t, j), (t', j'));
        }
      }
    }
  }

  lemma RefusedStep(s: State, step: Step)
    requires LockInv(s) && Enabled(s, step) && (step.Lock? || step.Release?) && !Gains(s, step) && !Gives(s, step)
    ensures SameLocks(s, Next(s, step))
  {
  }

  lemma NextKeepsLockInv(s: State, step: Step)
    requires LockInv(s) && Enabled(s, step)
    ensures LockInv(Next(s, step))
  {
    NextKeepsTxnsOk(s, step);
    if Gains(s, step) {
      GainKeepsRows(s, step);
      GainKeepsModes(s, step);
    } else if Gives(s, step) {
      GiveKeepsRows(s, step);
      GiveKeepsModes(s, step);
    } else {
      if step.Lock? || step.Release? {
        RefusedStep(s, step);
      } else {
        SameLocksStep(s, step);
      }
      SameLocksKeepInv(s, Next(s, step));
    }
  }

  lemma InitLockInv(vals: seq<Val>)
    ensures LockInv(Init(vals))
  {
    var s := Init(vals);
    forall k | 0 <= k < |s.rows|
      ensures RowInv(s, k)
    {
      assert Holders(s, k) == {};
    }
  }

  lemma {:induction false} ReachableLockInv(vals: seq<Val>, steps: seq<Step>, states: seq<State>, n: nat)
    requires IsRun(vals, steps, states) && n < |states|
    ensures LockInv(states[n])
  {
    if n == 0 {
      InitLockInv(vals);
    } else {
      ReachableLockInv(vals, steps, states, n - 1);
      NextKeepsLockInv(states[n - 1], steps[n - 1]);
    }
  }

  // ---------------------------------------------------------------- what the locks promise

  /**
    In every reachable state two log entries hold the same row only if both read it, a row is
    unlocked exactly when no entry holds it, and no release finds its row in another mode (which
    is where `local_unlock` reports an error and the release log throws).
   */
  lemma LocksAreExact(vals: seq<Val>, steps: seq<Step>, states: seq<State>, n: nat)
    requires IsRun(vals, steps, states) && n < |states|
    ensures var s := states[n];
      && (forall k :: 0 <= k < |s.rows| ==>
         s.rows[k].owners == |Holders(s, k)| && (s.rows[k].lockType == INVALID <==> Holders(s, k) == {}))
      && (forall t: nat, j: nat, t': nat, j': nat ::
            Held(s, t, j) && Held(s, t', j') && OpAt(s, t, j).key == OpAt(s, t', j').key && (t != t' || j != j') ==>
              OpAt(s, t, j).mode == READ && OpAt(s, t', j').mode == READ)
      && (n < |steps| && Gives(s, steps[n]) ==> ReleasesOwnMode(s, steps[n].t))
  {
    var s := states[n];
    ReachableLockInv(vals, steps, states, n);
    forall k | 0 <= k < |s.rows|
      ensures s.rows[k].owners == |Holders(s, k)| && (s.rows[k].lockType == INVALID <==> Holders(s, k) == {})
    {
      assert RowInv(s, k);
    }
    forall t: nat, j: nat, t': nat, j': nat | Held(s, t, j) && Held(s, t', j')
      && OpAt(s, t, j).key == OpAt(s, t', j').key && (t != t' || j != j')
      ensures OpAt(s, t, j).mode == READ && OpAt(s, t', j').mode == READ
    {
      SharedMeansReading(s, t, j, t', j');
    }
    if n < |steps| && Gives(s, steps[n]) {
      GiveHeld(s, steps[n]);
      assert RowInv(s, OpAt(s, steps[n].t, s.txns[steps[n].t].released).key);
    }
  }

  predicate ReleasesOwnMode(s: State, t: nat)
    requires Enabled(s, Release(t))
  {
    var x := s.txns[t]; var op := x.ops[x.released];
    s.rows[op.key].lockType == op.mode && s.rows[op.key].owners > 0
  }

  lemma SharedMeansReading(s: State, t: nat, j: nat, t': nat, j': nat)
    requires LockInv(s) && Held(s, t, j) && Held(s, t', j') && OpAt(s, t, j).key == OpAt(s, t', j').key
    requires t != t' || j != j'
    ensures OpAt(s, t, j).mode == READ && OpAt(s, t', j').mode == READ
  {
    if OpAt(s, t, j).mode == WRITE {
      WriterAlone(s, t, j, t', j');
    }
    assert TxnOk(s.txns[t], |s.rows|);
  }

  // ---------------------------------------------------------------- every lock is given back once

  /** The lock of operation `j` of transaction `t` is taken by this step. */
  predicate Takes(s: State, step: Step, t: nat, j: nat) {
    Enabled(s, step) && step == Lock(t) && Gains(s, step) && |s.txns[t].log| == j
  }

  /** It is given back by this step. */
  predicate GivesBack(s: State, step: Step, t: nat, j: nat) {
    Enabled(s, step) && step == Release(t) && Gives(s, step) && s.txns[t].released == j
  }

  /** How often the lock of operation `j` of transaction `t` was taken in the first `n` steps. */
  function Taken(steps: seq<Step>, states: seq<State>, t: nat, j: nat, n: nat): nat
    requires n <= |steps| && n <= |states|
  {
    if n == 0 then 0 else Taken(steps, states, t, j, n - 1) + if Takes(states[n - 1], steps[n - 1], t, j) then 1 else 0
  }

  function GivenBack(steps: seq<Step>, states: seq<State>, t: nat, j: nat, n: nat): nat
    requires n <= |steps| && n <= |states|
  {
    if n == 0 then 0 else
      GivenBack(steps, states, t, j, n - 1) + if GivesBack(states[n - 1], steps[n - 1], t, j) then 1 else 0
  }

  predicate HasTaken(s: State, t: nat, j: nat) {
    t < |s.txns| && j < |s.txns[t].log| && s.txns[t].log[j].got
  }

  lemma TakenStep(s: State, step: Step, t: nat, j: nat)
    requires LockInv(s) && Enabled(s, step)
    ensures HasTaken(Next(s, step), t, j) <==> HasTaken(s, t, j) || Takes(s, step, t, j)
    ensures !(HasTaken(s, t, j) && Takes(s, step, t, j))
  {
  }

  lemma HeldStep(s: State, step: Step, t: nat, j: nat)
    requires LockInv(s) && Enabled(s, step)
    ensures Held(Next(s, step), t, j) <==> (Held(s, t, j) || Takes(s, step, t, j)) && !GivesBack(s, step, t, j)
    ensures GivesBack(s, step, t, j) ==> Held(s, t, j)
  {
    if Gains(s, step) {
      GainHeld(s, step);
    } else if Gives(s, step) {
      GiveHeld(s, step);
    } else if step.Lock? || step.Release? {
      RefusedStep(s, step);
    } else {
      SameLocksStep(s, step);
    }
  }

  lemma {:induction false} LocksTaken(v0: seq<Val>, steps: seq<Step>, states: seq<State>, n: nat, t: nat, j: nat)
    requires IsRun(v0, steps, states) && n < |states|
    ensures Taken(steps, states, t, j, n) == if HasTaken(states[n], t, j) then 1 else 0
    ensures Taken(steps, states, t, j, n) == GivenBack(steps, states, t, j, n) + if Held(states[n], t, j) then 1 else 0
  {
    if n > 0 {
      LocksTaken(v0, steps, states, n - 1, t, j);
      ReachableLockInv(v0, steps, states, n - 1);
      TakenStep(states[n - 1], steps[n - 1], t, j);
      HeldStep(states[n - 1], steps[n - 1], t, j);
    }
  }

  /**
    A lock is taken at most once and never given back more often than it was taken; when its
    transaction is done, committed or rolled back, it was given back exactly as often as it was taken.
   */
  lemma ReleasedExactlyOnce(v0: seq<Val>, steps: seq<Step>, states: seq<State>, n: nat, t: nat, j: nat)
    requires IsRun(v0, steps, states) && n < |states| && t < |states[n].txns|
    ensures GivenBack(steps, states, t, j, n) <= Taken(steps, states, t, j, n) <= 1
    ensures PastPoint(states[n].txns[t]) && j < |states[n].txns[t].ops| ==> Taken(steps, states, t, j, n) == 1
    ensures Done(states[n].txns[t]) ==> GivenBack(steps, states, t, j, n) == Taken(steps, states, t, j, n)
  {
    LocksTaken(v0, steps, states, n, t, j);
    ReachableLockInv(v0, steps, states, n);
    assert TxnOk(states[n].txns[t], |states[n].rows|);
  }
}
