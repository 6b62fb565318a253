/**
  The granular lock manager, `granular_lock_real`: a transaction with two passes locks the cells of
  its second pass when its first pass is admitted, and everybody checks the locks of all the cells
  they touch. Every run is serializable in the order of the first valid passes.
 */
module Granular {
  import opened SwitchModel
  import opened SwitchPlaces
  import SwitchPipeline
  import SerialChecker

  /** The number of the lock that guards a cell. */
  type Locking = Cell -> nat

  /**
    What the planner (`LockPacking`) provides: one or two passes over distinct cells, the locks of
    all cells in `locksCheck`, exactly those of the second pass cells needed in `locksWanted`.
   */
  ghost predicate Planned(lockOf: Locking, t: Txn) {
    && 1 <= |t.passes| <= 2
    && t.locksWanted <= t.locksCheck
    && (|t.passes| == 1 ==> t.locksWanted == {})
    && (forall p, c :: 0 <= p < |t.passes| && Touches(t.passes[p], c) ==> lockOf(c) in t.locksCheck)
    && (|t.passes| == 2 ==> forall c :: Touches(t.passes[1], c) ==>
          lockOf(c) in t.locksWanted && !Touches(t.passes[0], c))
  }

  // ---------------------------------------------------------------- what packets hold

  /** Its first pass was admitted, its second not yet. */
  predicate Pending(p: Place, t: Txn) {
    match p
    case Stage(_) => t.passCt == 0 && t.valid
    case Recirc => t.passCt == 1
    case _ => false
  }

  /** The locks a packet at `p` has set and will clear again. */
  function Holds(p: Place, t: Txn): set<nat> {
    if Pending(p, t) then t.locksWanted
    else if p.Stage? && t.passCt > 0 then {}
    else t.locksUndo
  }

  ghost predicate PacketInv(lockOf: Locking, s: State, p: Place, t: Txn) {
    && Planned(lockOf, t)
    && (p.Stage? && t.passCt > 0 ==> t.valid)
    && (t.passCt > 0 || (p.Stage? && t.valid) ==> t.locksUndo == {})
    && (t.passCt == 0 && !(p.Stage? && t.valid) ==> !HasEntered(s, t.id))
  }

  ghost predicate PacketsInv(lockOf: Locking, s: State) {
    forall p :: Get(s, p).Some? ==> PacketInv(lockOf, s, p, Get(s, p).value)
  }

  function HoldsAt(s: State, p: Place): set<nat> {
    if Get(s, p).Some? then Holds(p, Get(s, p).value) else {}
  }

  /** The lock word is the disjoint union of what the packets hold. */
  ghost predicate LocksInv(s: State)
    requires s.lock.Granular?
  {
    && (forall p :: HoldsAt(s, p) <= s.lock.locks)
    && (forall b :: b in s.lock.locks ==> exists p :: b in HoldsAt(s, p))
    && (forall p, q :: p != q ==> HoldsAt(s, p) !! HoldsAt(s, q))
  }

  // ---------------------------------------------------------------- what the history says

  /** `i` is the place of the first valid pass of `id` in the history. */
  predicate IsFirst(log: seq<Entry>, id: TxnId, i: nat) {
    i < |log| && log[i].id == id && log[i].pass == 0
  }

  predicate Conflict(log: seq<Entry>, i: nat, j: nat, c: Cell)
  {
    i < |log| && j < |log| && Touches(log[i].grid, c) && Touches(log[j].grid, c)
  }

  ghost predicate EntryInv(log: seq<Entry>, k: nat)
    requires k < |log|
  {
    && log[k].pass <= 1
    && exists i: nat :: i <= k && IsFirst(log, log[k].id, i)
  }

  /**
    Conflict serializability in first pass order: whenever two valid passes touch one cell, the
    transaction of the earlier pass had its first valid pass earlier.
   */
  ghost predicate InFirstPassOrder(log: seq<Entry>) {
    && (forall k :: 0 <= k < |log| ==> EntryInv(log, k))
    && (forall i, j :: 0 <= i < j < |log| && log[i].pass == 0 && log[j].pass == 0 ==> log[i].id != log[j].id)
    && (forall i: nat, j: nat, c, fi: nat, fj: nat ::
          i < j && Conflict(log, i, j, c) && IsFirst(log, log[i].id, fi) && IsFirst(log, log[j].id, fj) ==> fi < fj)
  }

  /** Nobody touched the second pass cells of a pending transaction since its first pass. */
  ghost predicate PendingInv(s: State) {
    forall p :: Get(s, p).Some? && Pending(p, Get(s, p).value) ==> Guarded(s, Get(s, p).value)
  }

  ghost predicate Guarded(s: State, t: Txn) {
    exists f :: IsFirst(s.entered, t.id, f) && Untouched(s.entered, t, f)
  }

  ghost predicate Untouched(log: seq<Entry>, t: Txn, f: nat) {
    |t.passes| == 2 ==> forall j, c :: f <= j < |log| && Touches(t.passes[1], c) ==> !Touches(log[j].grid, c)
  }

  ghost predicate Inv(lockOf: Locking, s: State) {
    && SwitchPlaces.Inv(s)
    && s.lock.Granular?
    && PacketsInv(lockOf, s)
    && LocksInv(s)
    && PendingInv(s)
    && InFirstPassOrder(s.entered)
  }

  // ---------------------------------------------------------------- admission

  lemma EnteringFacts(lockOf: Locking, s: State)
    requires Inv(lockOf, s) && Entering(s).Some?
    ensures var t, o := Entering(s).value, Origin(s, Stage(0));
      && Get(s, o) == Some(t) && (o.Recirc? || o.Parsed?)
      && PacketInv(lockOf, s, o, t) && TxnOk(s, t)
      && (t.passCt > 0 ==> o == Recirc && t.passCt == 1 && |t.passes| == 2 && Pending(Recirc, t))
  {
    var o := Origin(s, Stage(0));
    assert Get(s, o) == Entering(s);
  }

  /** The assertions inside the lock manager never fail. */
  lemma AssertsHold(lockOf: Locking, s: State)
    requires Inv(lockOf, s) && Entering(s).Some?
    ensures GranularAsserts(s.lock.locks, Entering(s).value)
  {
    EnteringFacts(lockOf, s);
    assert HoldsAt(s, Origin(s, Stage(0))) <= s.lock.locks;
  }

  /** Admission replaces what the packet held by what it holds now; the rest of the lock word stays. */
  lemma AdmissionLocks(lockOf: Locking, s: State)
    requires Inv(lockOf, s) && Entering(s).Some?
    ensures var rest, now := s.lock.locks - HoldsAt(s, Origin(s, Stage(0))), Holds(Stage(0), Admitted(s).value);
      Cycle(s).lock == SwitchModel.Granular(rest + now) && now !! rest
  {
    EnteringFacts(lockOf, s);
    var t, o := Entering(s).value, Origin(s, Stage(0));
    assert HoldsAt(s, o) == Holds(o, t) && HoldsAt(s, o) <= s.lock.locks;
  }

  lemma OthersHoldTheSame(lockOf: Locking, s: State, p: Place)
    requires Inv(lockOf, s) && p != Stage(0)
    ensures HoldsAt(Cycle(s), p) == if Get(Cycle(s), p).Some? then HoldsAt(s, Origin(s, p)) else {}
  {
    if Get(Cycle(s), p).Some? {
      Transport(s, p);
      var t := Get(s, Origin(s, p)).value;
      assert PacketInv(lockOf, s, Origin(s, p), t) && TxnOk(s, t);
    }
  }

  /** A packet that holds a lock stays in the switch: it never leaves with a lock set. */
  lemma HoldersStay(lockOf: Locking, s: State, p: Place)
    requires Inv(lockOf, s) && HoldsAt(s, p) != {} && (Entering(s).Some? ==> p != Origin(s, Stage(0)))
    ensures p.Stage?
    ensures var q := if p.i == N_STAGES - 1 then Recirc else Stage(p.i + 1);
      Get(Cycle(s), q).Some? && Origin(s, q) == p && HoldsAt(Cycle(s), q) == HoldsAt(s, p)
  {
    var t := Get(s, p).value;
    assert PacketInv(lockOf, s, p, t) && TxnOk(s, t);
    assert p.Queued? || p.Parsed? ==> IsNew(s, t);
    var q := if p.i == N_STAGES - 1 then Recirc else Stage(p.i + 1);
    OthersHoldTheSame(lockOf, s, q);
  }

  lemma CycleKeepsLocks(lockOf: Locking, s: State)
    requires Inv(lockOf, s) && Entering(s).Some?
    ensures Cycle(s).lock.Granular? && LocksInv(Cycle(s))
  {
    var s', o := Cycle(s), Origin(s, Stage(0));
    AdmissionLocks(lockOf, s);
    forall p | p != Stage(0)
      ensures HoldsAt(s', p) <= s.lock.locks - HoldsAt(s, o)
    {
      OthersHoldTheSame(lockOf, s, p);
      if Get(s', p).Some? {
        OthersDiffer(s, p);
      }
    }
    forall p, q | p != q
      ensures HoldsAt(s', p) !! HoldsAt(s', q)
    {
      if p != Stage(0) && q != Stage(0) {
        OthersStayDisjoint(lockOf, s, p, q);
      }
    }
    forall b | b in s'.lock.locks
      ensures exists p :: b in HoldsAt(s', p)
    {
      if b in Holds(Stage(0), Admitted(s).value) {
        assert b in HoldsAt(s', Stage(0));
      } else {
        var p :| b in HoldsAt(s, p);
        HoldersStay(lockOf, s, p);
      }
    }
  }

  lemma OthersStayDisjoint(lockOf: Locking, s: State, p: Place, q: Place)
    requires Inv(lockOf, s) && p != q && p != Stage(0) && q != Stage(0)
    ensures HoldsAt(Cycle(s), p) !! HoldsAt(Cycle(s), q)
  {
    OthersHoldTheSame(lockOf, s, p);
    OthersHoldTheSame(lockOf, s, q);
    if Get(Cycle(s), p).Some? && Get(Cycle(s), q).Some? && Origin(s, p) == Origin(s, q) {
      OriginInjective(s, p, q);
    }
  }

  lemma IdleCycleKeepsLocks(lockOf: Locking, s: State)
    requires Inv(lockOf, s) && Entering(s).None?
    ensures Cycle(s).lock.Granular? && LocksInv(Cycle(s))
  {
    var s' := Cycle(s);
    forall p
      ensures HoldsAt(s', p) <= s.lock.locks
    {
      if p != Stage(0) {
        OthersHoldTheSame(lockOf, s, p);
      }
    }
    forall p, q | p != q
      ensures HoldsAt(s', p) !! HoldsAt(s', q)
    {
      if p != Stage(0) && q != Stage(0) {
        OthersStayDisjoint(lockOf, s, p, q);
      }
    }
    forall b | b in s'.lock.locks
      ensures exists p :: b in HoldsAt(s', p)
    {
      var p :| b in HoldsAt(s, p);
      HoldersStay(lockOf, s, p);
    }
  }

  // ---------------------------------------------------------------- the history

  /** An admitted pass touches no cell that a pending transaction still has to touch. */
  lemma AdmittedAvoidsPending(lockOf: Locking, s: State, p: Place, c: Cell)
    requires Inv(lockOf, s) && Entering(s).Some? && Admitted(s).value.valid
    requires Get(s, p).Some? && Pending(p, Get(s, p).value) && p != Origin(s, Stage(0))
    requires |Get(s, p).value.passes| == 2 && Touches(Get(s, p).value.passes[1], c)
    ensures !Touches(EntryOf(Admitted(s).value).grid, c)
  {
    EnteringFacts(lockOf, s);
    var t, e, o := Get(s, p).value, Entering(s).value, Origin(s, Stage(0));
    assert PacketInv(lockOf, s, p, t);
    assert lockOf(c) in HoldsAt(s, p) && HoldsAt(s, p) <= s.lock.locks;
    assert HoldsAt(s, o) !! HoldsAt(s, p);
    assert e.passCt == 0 ==> lockOf(c) !in e.locksCheck;
  }

  lemma UntouchedAppend(log: seq<Entry>, t: Txn, f: nat, e: Entry)
    requires Untouched(log, t, f)
    requires |t.passes| == 2 ==> forall c :: Touches(t.passes[1], c) ==> !Touches(e.grid, c)
    ensures Untouched(log + [e], t, f)
  {
  }

  lemma GuardedAppend(s: State, s': State, t: Txn, e: Entry)
    requires Guarded(s, t) && s'.entered == s.entered + [e]
    requires |t.passes| == 2 ==> forall c :: Touches(t.passes[1], c) ==> !Touches(e.grid, c)
    ensures Guarded(s', t)
  {
    var f :| IsFirst(s.entered, t.id, f) && Untouched(s.entered, t, f);
    UntouchedAppend(s.entered, t, f, e);
    assert IsFirst(s'.entered, t.id, f);
  }

  /** Guarding a transaction does not depend on how far it has got. */
  lemma GuardedBody(s: State, t: Txn, t': Txn)
    requires Guarded(s, t) && SameBody(t', t)
    ensures Guarded(s, t')
  {
    var f :| IsFirst(s.entered, t.id, f) && Untouched(s.entered, t, f);
    assert IsFirst(s.entered, t'.id, f) && Untouched(s.entered, t', f);
  }

  lemma PendingOrigin(lockOf: Locking, s: State, p: Place)
    requires Inv(lockOf, s) && p != Stage(0) && Get(Cycle(s), p).Some? && Pending(p, Get(Cycle(s), p).value)
    ensures var o := Origin(s, p);
      && Get(s, o).Some? && Pending(o, Get(s, o).value) && SameBody(Get(Cycle(s), p).value, Get(s, o).value)
  {
    Transport(s, p);
    var t := Get(s, Origin(s, p)).value;
    MovedSameBody(s, p, t);
    assert PacketInv(lockOf, s, Origin(s, p), t) && TxnOk(s, t);
    assert p.Queued? || p.Parsed? ==> IsNew(s, t);
  }

  lemma CycleKeepsPending(lockOf: Locking, s: State, p: Place)
    requires Inv(lockOf, s) && p != Stage(0) && Get(Cycle(s), p).Some? && Pending(p, Get(Cycle(s), p).value)
    ensures Guarded(Cycle(s), Get(Cycle(s), p).value)
  {
    var s' := Cycle(s);
    PendingOrigin(lockOf, s, p);
    var o, t' := Origin(s, p), Get(Cycle(s), p).value;
    var t := Get(s, o).value;
    if Entering(s).Some? && Admitted(s).value.valid {
      OthersDiffer(s, p);
      if |t.passes| == 2 {
        forall c | Touches(t.passes[1], c)
          ensures !Touches(EntryOf(Admitted(s).value).grid, c)
        {
          AdmittedAvoidsPending(lockOf, s, o, c);
        }
      }
      GuardedAppend(s, s', t, EntryOf(Admitted(s).value));
    }
    GuardedBody(s', t, t');
  }

  lemma AdmittedIsGuarded(lockOf: Locking, s: State)
    requires Inv(lockOf, s) && Entering(s).Some? && Pending(Stage(0), Admitted(s).value)
    ensures Guarded(Cycle(s), Admitted(s).value)
  {
    EnteringFacts(lockOf, s);
    var s', t := Cycle(s), Admitted(s).value;
    var f := |s.entered|;
    assert s'.entered[f] == EntryOf(t) && s'.entered[f].grid == t.passes[0];
    assert IsFirst(s'.entered, t.id, f) && Untouched(s'.entered, t, f);
  }

  lemma FirstIsUnique(log: seq<Entry>, id: TxnId, i: nat, j: nat)
    requires InFirstPassOrder(log) && IsFirst(log, id, i) && IsFirst(log, id, j)
    ensures i == j
  {
  }

  lemma FirstIsEarliest(log: seq<Entry>, k: nat, f: nat)
    requires InFirstPassOrder(log) && k < |log| && IsFirst(log, log[k].id, f)
    ensures f <= k
  {
    assert EntryInv(log, k);
    var i: nat :| i <= k && IsFirst(log, log[k].id, i);
    FirstIsUnique(log, log[k].id, i, f);
  }

  lemma FirstAppend(log: seq<Entry>, e: Entry, id: TxnId, i: nat)
    ensures IsFirst(log + [e], id, i) <==>
      IsFirst(log, id, i) || (i == |log| && e.id == id && e.pass == 0)
  {
  }

  ghost predicate ConflictsBefore(log: seq<Entry>, e: Entry, f: nat) {
    IsFirst(log, e.id, f) && forall j, c :: f <= j < |log| && Touches(e.grid, c) ==> !Touches(log[j].grid, c)
  }

  /** What an appended entry must satisfy: it is a first pass, or only conflicts with what preceded its first pass. */
  ghost predicate Appendable(log: seq<Entry>, e: Entry) {
    || (e.pass == 0 && forall k :: 0 <= k < |log| ==> log[k].id != e.id)
    || (e.pass == 1 && exists f: nat :: ConflictsBefore(log, e, f))
  }

  lemma AppendKeepsEntries(log: seq<Entry>, e: Entry)
    requires InFirstPassOrder(log) && Appendable(log, e)
    ensures forall k :: 0 <= k < |log + [e]| ==> EntryInv(log + [e], k)
  {
    var log' := log + [e];
    forall k | 0 <= k < |log'|
      ensures EntryInv(log', k)
    {
      if k < |log| {
        assert EntryInv(log, k);
        var i: nat :| i <= k && IsFirst(log, log[k].id, i);
        FirstAppend(log, e, log[k].id, i);
      } else if e.pass == 0 {
        FirstAppend(log, e, e.id, k);
      } else {
        var f: nat :| ConflictsBefore(log, e, f);
        FirstAppend(log, e, e.id, f);
      }
    }
  }

  lemma AppendKeepsConflicts(log: seq<Entry>, e: Entry, i: nat, j: nat, c: Cell, fi: nat, fj: nat)
    requires InFirstPassOrder(log) && Appendable(log, e)
    requires i < j && Conflict(log + [e], i, j, c)
    requires IsFirst(log + [e], (log + [e])[i].id, fi) && IsFirst(log + [e], (log + [e])[j].id, fj)
    ensures fi < fj
  {
    FirstAppend(log, e, log[i].id, fi);
    FirstAppend(log, e, (log + [e])[j].id, fj);
    if j < |log| {
      assert Conflict(log, i, j, c);
      assert EntryInv(log, i) && EntryInv(log, j);
    } else if e.pass == 0 {
      assert fj == |log|;
    } else {
      var f: nat :| ConflictsBefore(log, e, f);
      FirstIsUnique(log, e.id, f, fj);
      assert i < f;
      FirstIsEarliest(log, i, fi);
    }
  }

  lemma AppendKeepsOrder(log: seq<Entry>, e: Entry)
    requires InFirstPassOrder(log) && Appendable(log, e)
    ensures InFirstPassOrder(log + [e])
  {
    var log' := log + [e];
    AppendKeepsEntries(log, e);
    forall i: nat, j: nat, c, fi: nat, fj: nat |
      i < j && Conflict(log', i, j, c) && IsFirst(log', log'[i].id, fi) && IsFirst(log', log'[j].id, fj)
      ensures fi < fj
    {
      AppendKeepsConflicts(log, e, i, j, c, fi, fj);
    }
  }

  lemma AdmittedIsAppendable(lockOf: Locking, s: State)
    requires Inv(lockOf, s) && Entering(s).Some? && Admitted(s).value.valid
    ensures Appendable(s.entered, EntryOf(Admitted(s).value))
  {
    EnteringFacts(lockOf, s);
    var t, e := Entering(s).value, EntryOf(Admitted(s).value);
    if t.passCt > 0 {
      assert Guarded(s, t);
      var f :| IsFirst(s.entered, t.id, f) && Untouched(s.entered, t, f);
      assert ConflictsBefore(s.entered, e, f);
    }
  }

  lemma AdmittedPacketInv(lockOf: Locking, s: State)
    requires Inv(lockOf, s) && Entering(s).Some?
    ensures PacketInv(lockOf, Cycle(s), Stage(0), Admitted(s).value)
  {
    EnteringFacts(lockOf, s);
  }

  lemma CycleKeepsPackets(lockOf: Locking, s: State, p: Place)
    requires Inv(lockOf, s) && Get(Cycle(s), p).Some?
    ensures PacketInv(lockOf, Cycle(s), p, Get(Cycle(s), p).value)
  {
    if p == Stage(0) {
      AdmittedPacketInv(lockOf, s);
    } else {
      Transport(s, p);
      var o := Origin(s, p);
      var t := Get(s, o).value;
      OthersDiffer(s, p);
      OthersHistory(s, t.id);
      assert PacketInv(lockOf, s, o, t) && TxnOk(s, t);
      assert o.Queued? || o.Parsed? ==> IsNew(s, t);
    }
  }

  lemma CycleKeepsInv(lockOf: Locking, s: State)
    requires Inv(lockOf, s)
    ensures Inv(lockOf, Cycle(s))
  {
    var s' := Cycle(s);
    SwitchPlaces.CycleKeepsInv(s);
    if Entering(s).Some? {
      CycleKeepsLocks(lockOf, s);
      if Admitted(s).value.valid {
        AdmittedIsAppendable(lockOf, s);
        AppendKeepsOrder(s.entered, EntryOf(Admitted(s).value));
      }
    } else {
      IdleCycleKeepsLocks(lockOf, s);
    }
    forall p | Get(s', p).Some?
      ensures PacketInv(lockOf, s', p, Get(s', p).value)
    {
      CycleKeepsPackets(lockOf, s, p);
    }
    forall p | Get(s', p).Some? && Pending(p, Get(s', p).value)
      ensures Guarded(s', Get(s', p).value)
    {
      if p == Stage(0) {
        AdmittedIsGuarded(lockOf, s);
      } else {
        CycleKeepsPending(lockOf, s, p);
      }
    }
  }

  lemma SendKeepsInv(lockOf: Locking, s: State, t: Txn)
    requires Inv(lockOf, s) && Sendable(t) && Planned(lockOf, t)
    ensures Inv(lockOf, Send(s, t))
  {
    var s' := Send(s, t);
    SwitchPlaces.SendKeepsInv(s, t);
    forall p
      ensures HoldsAt(s', p) == HoldsAt(s, p)
      ensures Get(s', p).Some? ==> PacketInv(lockOf, s', p, Get(s', p).value)
      ensures Get(s', p).Some? && Pending(p, Get(s', p).value) ==> Get(s', p) == Get(s, p)
    {
      if Get(s', p).Some? {
        SendPlaces(s, t, p);
        if Get(s', p) == Get(s, p) {
          assert PacketInv(lockOf, s, p, Get(s, p).value);
        } else {
          assert IsNew(s', Get(s', p).value);
        }
      }
    }
    forall p | Get(s', p).Some? && Pending(p, Get(s', p).value)
      ensures Guarded(s', Get(s', p).value)
    {
      assert Guarded(s, Get(s, p).value);
    }
  }

  lemma RecvKeepsInv(lockOf: Locking, s: State, port: nat)
    requires Inv(lockOf, s) && port < N_PORTS
    ensures Inv(lockOf, Recv(s, port))
  {
    var s' := Recv(s, port);
    assert forall p :: Get(s', p) == Get(s, p);
    assert forall p :: HoldsAt(s', p) == HoldsAt(s, p);
    forall p | Get(s', p).Some? && Pending(p, Get(s', p).value)
      ensures Guarded(s', Get(s', p).value)
    {
      assert Guarded(s, Get(s, p).value);
    }
  }

  // ---------------------------------------------------------------- every run

  lemma {:induction false} ReachableInv(lockOf: Locking, host: Host, steps: seq<Step>, states: seq<State>, k: nat)
    requires IsRun(host, SwitchModel.Granular({}), steps, states) && k < |states|
    requires forall t :: host(t) ==> Planned(lockOf, t)
    ensures Inv(lockOf, states[k])
  {
    if k == 0 {
      assert forall p :: Get(states[0], p).None?;
    } else {
      ReachableInv(lockOf, host, steps, states, k - 1);
      match steps[k - 1]
      case Offer(t) => SendKeepsInv(lockOf, states[k - 1], t);
      case Tick => CycleKeepsInv(lockOf, states[k - 1]);
      case Take(port) => RecvKeepsInv(lockOf, states[k - 1], port);
    }
  }

  /**
    The lock word is always the disjoint union of what the packets hold, and no assertion of the lock
    manager fails.
   */
  lemma LockWordIsDisjointUnion(lockOf: Locking, host: Host, steps: seq<Step>, states: seq<State>, k: nat)
    requires IsRun(host, SwitchModel.Granular({}), steps, states) && k < |states|
    requires forall t :: host(t) ==> Planned(lockOf, t)
    ensures var s := states[k];
      && s.lock.Granular? && Shape(s)
      && (forall b :: b in s.lock.locks <==> exists p :: b in HoldsAt(s, p))
      && (forall p, q :: p != q ==> HoldsAt(s, p) !! HoldsAt(s, q))
      && (Entering(s).Some? ==> GranularAsserts(s.lock.locks, Entering(s).value))
  {
    ReachableInv(lockOf, host, steps, states, k);
    if Entering(states[k]).Some? {
      AssertsHold(lockOf, states[k]);
    }
  }

  // ---------------------------------------------------------------- the checker accepts every run

  /** The transactions in the order of their first valid passes. */
  function FirstPassOrder(log: seq<Entry>): seq<TxnId> {
    if log == [] then []
    else
      var e := log[|log| - 1];
      FirstPassOrder(log[..|log| - 1]) + if e.pass == 0 then [e.id] else []
  }

  lemma {:induction false} FirstPassOrderPrefix(log: seq<Entry>, i: nat)
    requires i <= |log|
    ensures FirstPassOrder(log[..i]) <= FirstPassOrder(log)
  {
    if i < |log| {
      FirstPassOrderPrefix(log[..|log| - 1], i);
      assert log[..|log| - 1][..i] == log[..i];
    } else {
      assert log[..i] == log;
    }
  }

  /** Where a transaction stands in the order, from the place of its first pass in the history. */
  lemma PositionOfFirst(log: seq<Entry>, f: nat)
    requires f < |log| && log[f].pass == 0
    ensures |FirstPassOrder(log[..f])| < |FirstPassOrder(log)|
    ensures FirstPassOrder(log)[|FirstPassOrder(log[..f])|] == log[f].id
  {
    assert log[..f + 1][..f] == log[..f];
    FirstPassOrderPrefix(log, f + 1);
  }

  lemma {:induction false} FirstOfPosition(log: seq<Entry>, n: nat) returns (f: nat)
    requires n < |FirstPassOrder(log)|
    ensures f < |log| && log[f].pass == 0 && |FirstPassOrder(log[..f])| == n && log[f].id == FirstPassOrder(log)[n]
  {
    var m := |log| - 1;
    if n < |FirstPassOrder(log[..m])| {
      f := FirstOfPosition(log[..m], n);
      assert log[..m][..f] == log[..f];
    } else {
      f := m;
    }
  }

  /** Whoever touched a cell last did so with some earlier pass. */
  lemma {:induction false} LastToucherEntry(log: seq<Entry>, c: Cell) returns (i: nat)
    requires SwitchPipeline.LastToucher(log, c) != START_TXN_ID
    ensures i < |log| && log[i].id == SwitchPipeline.LastToucher(log, c) && Touches(log[i].grid, c)
  {
    var n := |log| - 1;
    if Touches(log[n].grid, c) {
      i := n;
    } else {
      i := LastToucherEntry(log[..n], c);
    }
  }

  /** Every dependency points from a transaction to one with an earlier first pass. */
  lemma DepGoesBack(log: seq<Entry>, d: Dep) returns (fi: nat, fj: nat)
    requires InFirstPassOrder(log) && SwitchPipeline.AtomicDep(log, d) && d.on != START_TXN_ID
    ensures fi < fj && IsFirst(log, d.on, fi) && IsFirst(log, d.txn, fj)
  {
    var k: nat, c :| SwitchPipeline.Reports(log, k, c, d);
    var i := LastToucherEntry(log[..k], c);
    assert Conflict(log, i, k, c);
    assert EntryInv(log, i) && EntryInv(log, k);
    fi :| IsFirst(log, log[i].id, fi);
    fj :| IsFirst(log, log[k].id, fj);
  }

  /** The graph that the dependencies reported so far form. */
  ghost predicate Represents(g: SerialChecker.Graph, deps: set<Dep>) {
    forall u: TxnId, v: TxnId :: v in SerialChecker.Succ(g, u) <==> Dep(u, v) in deps
  }

  lemma OrderIsDistinct(log: seq<Entry>, i: nat, j: nat)
    requires InFirstPassOrder(log) && i < j < |FirstPassOrder(log)|
    ensures FirstPassOrder(log)[i] != FirstPassOrder(log)[j]
  {
    var fi := FirstOfPosition(log, i);
    var fj := FirstOfPosition(log, j);
    assert fi != fj;
  }

  lemma PositionsGrow(log: seq<Entry>, fi: nat, fj: nat)
    requires fi < fj < |log| && log[fi].pass == 0
    ensures |FirstPassOrder(log[..fi])| < |FirstPassOrder(log[..fj])|
  {
    PositionOfFirst(log[..fj], fi);
    assert log[..fj][..fi] == log[..fi];
  }

  lemma OrderIsTopological(g: SerialChecker.Graph, s: State)
    requires InFirstPassOrder(s.entered) && Represents(g, s.deps)
    requires forall d :: d in s.deps ==> SwitchPipeline.AtomicDep(s.entered, d)
    requires forall k :: 0 <= k < |s.entered| ==> s.entered[k].id > START_TXN_ID
    ensures SerialChecker.IsTopological(g, [START_TXN_ID] + FirstPassOrder(s.entered))
  {
    var firsts := FirstPassOrder(s.entered);
    var order := [START_TXN_ID] + firsts;
    forall i, j | 0 <= i < j < |order|
      ensures order[i] != order[j]
    {
      var f := FirstOfPosition(s.entered, j - 1);
      if i > 0 {
        OrderIsDistinct(s.entered, i - 1, j - 1);
      }
    }
    forall i, v | 0 <= i < |order| && v in SerialChecker.Succ(g, order[i])
      ensures v in order[..i]
    {
      EdgeGoesBack(s, i, v);
    }
  }

  lemma EdgeGoesBack(s: State, i: nat, v: TxnId)
    requires InFirstPassOrder(s.entered) && i < 1 + |FirstPassOrder(s.entered)|
    requires SwitchPipeline.AtomicDep(s.entered, Dep(([START_TXN_ID] + FirstPassOrder(s.entered))[i], v))
    requires forall k :: 0 <= k < |s.entered| ==> s.entered[k].id > START_TXN_ID
    ensures v in ([START_TXN_ID] + FirstPassOrder(s.entered))[..i]
  {
    var firsts := FirstPassOrder(s.entered);
    var order := [START_TXN_ID] + firsts;
    var k: nat, c :| SwitchPipeline.Reports(s.entered, k, c, Dep(order[i], v));
    assert i > 0;
    if v == START_TXN_ID {
      assert order[..i][0] == v;
    } else {
      var fi, fj := DepGoesBack(s.entered, Dep(order[i], v));
      var f := FirstOfPosition(s.entered, i - 1);
      FirstIsUnique(s.entered, order[i], f, fj);
      PositionOfFirst(s.entered, fi);
      PositionsGrow(s.entered, fi, fj);
      assert order[..i][1 + |FirstPassOrder(s.entered[..fi])|] == v;
    }
  }

  lemma DependentIsOrdered(log: seq<Entry>, u: TxnId, v: TxnId)
    requires InFirstPassOrder(log) && SwitchPipeline.AtomicDep(log, Dep(u, v))
    ensures u in [START_TXN_ID] + FirstPassOrder(log)
  {
    var k: nat, c :| SwitchPipeline.Reports(log, k, c, Dep(u, v));
    assert EntryInv(log, k);
    var f: nat :| f <= k && IsFirst(log, log[k].id, f);
    assert f < |log| && log[f].pass == 0 && log[f].id == u;
    PositionOfFirst(log, f);
    assert ([START_TXN_ID] + FirstPassOrder(log))[1 + |FirstPassOrder(log[..f])|] == u;
  }

  /**
    Granular locking is serializable. In every run whose transactions were planned, any two valid
    passes that touch the same cell do so in the order of the first valid passes of their
    transactions; that order is a topological order of the dependencies reported to the checker,
    which therefore has no cycle to find.
   */
  lemma GranularSerializable(lockOf: Locking, host: Host, steps: seq<Step>, states: seq<State>, k: nat,
                             g: SerialChecker.Graph)
    requires IsRun(host, SwitchModel.Granular({}), steps, states) && k < |states|
    requires forall t :: host(t) ==> Planned(lockOf, t)
    requires Represents(g, states[k].deps)
    ensures InFirstPassOrder(states[k].entered)
    ensures SerialChecker.IsTopological(g, [START_TXN_ID] + FirstPassOrder(states[k].entered))
    ensures !SerialChecker.HasCycle(g)
  {
    var s := states[k];
    ReachableInv(lockOf, host, steps, states, k);
    SwitchPipeline.PipelineRefinesAtomic(host, SwitchModel.Granular({}), steps, states, k);
    forall j | 0 <= j < |s.entered|
      ensures s.entered[j].id > START_TXN_ID
    {
      assert EntryOk(s, s.entered[j]);
    }
    OrderIsTopological(g, s);
    var order := [START_TXN_ID] + FirstPassOrder(s.entered);
    forall u | u in g && g[u] != []
      ensures u in order
    {
      assert g[u][0] in SerialChecker.Succ(g, u);
      DependentIsOrdered(s.entered, u, g[u][0]);
    }
    SerialChecker.TopologicalIsAcyclic(g, order);
  }
}
