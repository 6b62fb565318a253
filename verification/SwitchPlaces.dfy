/**
  Where the packets of the simulator are and how a cycle moves them. Every packet in the switch
  after a cycle was in exactly one place before it, so ids stay unique.
 */
module SwitchPlaces {
  import opened SwitchModel

  datatype Place = Queued(g: nat, k: nat) | Parsed(g: nat) | Recirc | Stage(i: nat)

  function Get(s: State, p: Place): Option<Txn> {
    match p
    case Queued(g, k) => if g < |s.ipb| && k < |s.ipb[g]| then Some(s.ipb[g][k]) else None
    case Parsed(g) => if g < |s.parser| then s.parser[g] else None
    case Recirc => s.recirc
    case Stage(i) => if i < |s.pipe| then s.pipe[i] else None
  }

  /** Where the packet at `p` after the cycle was before it. */
  function Origin(s: State, p: Place): Place
    requires Shape(s)
  {
    match p
    case Queued(g, k) => if g < N_PORT_GROUPS && Refills(s, g) then Queued(g, k + 1) else p
    case Parsed(g) => if g < N_PORT_GROUPS && Refills(s, g) then Queued(g, 0) else p
    case Recirc => Stage(N_STAGES - 1)
    case Stage(i) =>
      if i > 0 then Stage(i - 1)
      else if s.recirc.Some? then Recirc
      else if Chosen(s).Some? then Parsed(Chosen(s).value)
      else p
  }

  /** What the cycle does to the packet that ends up at `p`. */
  function Moved(s: State, p: Place, t: Txn): Txn {
    if p == Stage(0) then ManageLocks(s.lock, t).txn
    else if p == Recirc then Finished(t).(valid := true)
    else t
  }

  lemma Transport(s: State, p: Place)
    requires Shape(s) && Get(Cycle(s), p).Some?
    ensures Get(s, Origin(s, p)).Some?
    ensures Get(Cycle(s), p).value == Moved(s, p, Get(s, Origin(s, p)).value)
  {
    match p
    case Queued(g, k) =>
    case Parsed(g) =>
    case Recirc =>
    case Stage(i) =>
  }

  lemma OriginInjective(s: State, p: Place, q: Place)
    requires Shape(s) && Get(Cycle(s), p).Some? && Get(Cycle(s), q).Some? && Origin(s, p) == Origin(s, q)
    ensures p == q
  {
    match p
    case Queued(g, k) =>
    case Parsed(g) =>
    case Recirc =>
    case Stage(i) =>
  }

  /** The fields of a transaction that the switch never changes after `send`. */
  predicate SameBody(a: Txn, b: Txn) {
    && a.id == b.id && a.port == b.port && a.passes == b.passes
    && a.locksCheck == b.locksCheck && a.locksWanted == b.locksWanted
  }

  lemma MovedSameBody(s: State, p: Place, t: Txn)
    ensures SameBody(Moved(s, p, t), t)
    ensures p != Recirc ==> Moved(s, p, t).passCt == t.passCt
  {
  }

  // ---------------------------------------------------------------- the basic invariant

  ghost predicate UniqueIds(s: State) {
    forall p, q :: Get(s, p).Some? && Get(s, q).Some? && Get(s, p).value.id == Get(s, q).value.id ==> p == q
  }

  predicate TxnOk(s: State, t: Txn) {
    && 0 < t.id < s.nextId && t.port < N_PORTS && t.passCt < |t.passes|
    && forall p :: 0 <= p < |t.passes| ==> GridOk(t.passes[p])
  }

  predicate HasEntered(s: State, id: TxnId) {
    exists k :: 0 <= k < |s.entered| && s.entered[k].id == id
  }

  /** Not yet admitted: exactly as sent, and never valid so far. */
  predicate IsNew(s: State, t: Txn) {
    t.passCt == 0 && t.failCt == 0 && t.locksUndo == {} && !HasEntered(s, t.id)
  }

  predicate EntryOk(s: State, e: Entry) {
    0 < e.id < s.nextId && e.pass < e.of && GridOk(e.grid)
  }

  ghost predicate Inv(s: State) {
    && Shape(s) && 0 < s.nextId
    && UniqueIds(s)
    && (forall p :: Get(s, p).Some? ==> TxnOk(s, Get(s, p).value))
    && (forall p: Place :: (p.Queued? || p.Parsed?) && Get(s, p).Some? ==> IsNew(s, Get(s, p).value))
    && (forall k :: 0 <= k < |s.entered| ==> EntryOk(s, s.entered[k]))
  }

  lemma CycleKeepsShape(s: State)
    requires Inv(s)
    ensures Shape(Cycle(s))
  {
    var s' := Cycle(s);
    forall i | 0 <= i < N_STAGES && s'.pipe[i].Some?
      ensures s'.pipe[i].value.port < N_PORTS
    {
      CycleTxnOk(s, Stage(i));
    }
  }

  lemma CycleTxnOk(s: State, p: Place)
    requires Inv(s) && Get(Cycle(s), p).Some?
    ensures TxnOk(Cycle(s), Get(Cycle(s), p).value)
  {
    Transport(s, p);
    var t := Get(s, Origin(s, p)).value;
    assert TxnOk(s, t);
    MovedSameBody(s, p, t);
  }

  lemma CycleKeepsUniqueIds(s: State)
    requires Inv(s)
    ensures UniqueIds(Cycle(s))
  {
    var s' := Cycle(s);
    forall p, q | Get(s', p).Some? && Get(s', q).Some? && Get(s', p).value.id == Get(s', q).value.id
      ensures p == q
    {
      Transport(s, p);
      Transport(s, q);
      MovedSameBody(s, p, Get(s, Origin(s, p)).value);
      MovedSameBody(s, q, Get(s, Origin(s, q)).value);
      OriginInjective(s, p, q);
    }
  }

  /** Whatever ends up elsewhere than in stage 0 is not the packet that was admitted. */
  lemma OthersDiffer(s: State, p: Place)
    requires Inv(s) && Get(Cycle(s), p).Some? && p != Stage(0)
    ensures Get(s, Origin(s, p)).Some?
    ensures Entering(s).Some? ==> Origin(s, p) != Origin(s, Stage(0))
    ensures Entering(s).Some? ==> Entering(s).value.id != Get(s, Origin(s, p)).value.id
  {
    Transport(s, p);
    if Entering(s).Some? {
      assert Get(s, Origin(s, Stage(0))) == Entering(s);
      if Origin(s, p) == Origin(s, Stage(0)) {
        OriginInjective(s, p, Stage(0));
      }
    }
  }

  /** The cycle adds to the history only for the packet it admits. */
  lemma OthersHistory(s: State, id: TxnId)
    requires Shape(s) && (Entering(s).Some? ==> Entering(s).value.id != id)
    ensures HasEntered(Cycle(s), id) ==> HasEntered(s, id)
  {
    if Admitted(s).Some? {
      MovedSameBody(s, Stage(0), Entering(s).value);
    }
  }

  lemma CycleKeepsNew(s: State, p: Place)
    requires Inv(s) && (p.Queued? || p.Parsed?) && Get(Cycle(s), p).Some?
    ensures IsNew(Cycle(s), Get(Cycle(s), p).value)
  {
    Transport(s, p);
    assert IsNew(s, Get(s, Origin(s, p)).value);
    OthersDiffer(s, p);
    OthersHistory(s, Get(s, Origin(s, p)).value.id);
  }

  lemma CycleKeepsEntries(s: State)
    requires Inv(s)
    ensures var s' := Cycle(s); forall k :: 0 <= k < |s'.entered| ==> EntryOk(s', s'.entered[k])
  {
    if Admitted(s).Some? {
      CycleTxnOk(s, Stage(0));
    }
    var s' := Cycle(s);
    forall k | 0 <= k < |s'.entered|
      ensures EntryOk(s', s'.entered[k])
    {
      assert k < |s.entered| ==> EntryOk(s, s.entered[k]);
    }
  }

  lemma CycleKeepsInv(s: State)
    requires Inv(s)
    ensures Inv(Cycle(s))
  {
    var s' := Cycle(s);
    CycleKeepsShape(s);
    CycleKeepsUniqueIds(s);
    CycleKeepsEntries(s);
    forall p | Get(s', p).Some?
      ensures TxnOk(s', Get(s', p).value)
    {
      CycleTxnOk(s, p);
    }
    forall p: Place | (p.Queued? || p.Parsed?) && Get(s', p).Some?
      ensures IsNew(s', Get(s', p).value)
    {
      CycleKeepsNew(s, p);
    }
  }

  lemma SendPlaces(s: State, t: Txn, p: Place)
    requires Shape(s) && Sendable(t) && Get(Send(s, t), p).Some?
    ensures Get(Send(s, t), p) == Get(s, p) || (Accepts(s, t) && Get(Send(s, t), p).value == t.(id := s.nextId)
      && p == Queued(PortToGroup(t.port), |s.ipb[PortToGroup(t.port)]|))
  {
  }

  lemma SendKeepsInv(s: State, t: Txn)
    requires Inv(s) && Sendable(t)
    ensures Inv(Send(s, t))
  {
    var s' := Send(s, t);
    forall p, q | Get(s', p).Some? && Get(s', q).Some? && Get(s', p).value.id == Get(s', q).value.id
      ensures p == q
    {
      SendPlaces(s, t, p);
      SendPlaces(s, t, q);
    }
    forall p | Get(s', p).Some?
      ensures TxnOk(s', Get(s', p).value)
      ensures p.Queued? || p.Parsed? ==> IsNew(s', Get(s', p).value)
    {
      SendPlaces(s, t, p);
    }
  }

  lemma NextKeepsInv(host: Host, s: State, step: Step)
    requires Inv(s) && Enabled(host, s, step)
    ensures Inv(Next(host, s, step))
  {
    match step
    case Offer(t) => SendKeepsInv(s, t);
    case Tick => CycleKeepsInv(s);
    case Take(port) => assert forall p :: Get(Recv(s, port), p) == Get(s, p);
  }

  lemma {:induction false} ReachableInv(host: Host, lock: Lock, steps: seq<Step>, states: seq<State>, k: nat)
    requires IsRun(host, lock, steps, states) && k < |states|
    ensures Inv(states[k])
  {
    if k == 0 {
      assert forall p :: Get(states[0], p).None?;
    } else {
      ReachableInv(host, lock, steps, states, k - 1);
      NextKeepsInv(host, states[k - 1], steps[k - 1]);
    }
  }

  // ---------------------------------------------------------------- what was sent

  /** Step `j` of the run put transaction `id` into an input buffer. */
  predicate Sends(steps: seq<Step>, states: seq<State>, j: nat, id: TxnId) {
    && j < |steps| && j < |states| && steps[j].Offer? && Shape(states[j]) && steps[j].t.port < N_PORTS
    && Accepts(states[j], steps[j].t) && states[j].nextId == id
  }

  /** A packet in the switch after `k` steps is one that was sent, with the passes and locks it was sent with. */
  ghost predicate PacketSent(steps: seq<Step>, states: seq<State>, k: nat, t: Txn) {
    exists j: nat :: j < k && Sends(steps, states, j, t.id) && SameBody(t, steps[j].t.(id := t.id))
  }

  /** A pass in the history is that pass of a transaction that was sent. */
  ghost predicate EntrySent(steps: seq<Step>, states: seq<State>, k: nat, e: Entry) {
    exists j: nat :: j < k && Sends(steps, states, j, e.id) && e.of == |steps[j].t.passes| && e.pass < e.of
      && e.grid == steps[j].t.passes[e.pass]
  }

  lemma StillSent(steps: seq<Step>, states: seq<State>, k: nat, t: Txn, t': Txn)
    requires PacketSent(steps, states, k, t) && SameBody(t', t)
    ensures PacketSent(steps, states, k + 1, t')
  {
    var j: nat :| j < k && Sends(steps, states, j, t.id) && SameBody(t, steps[j].t.(id := t.id));
    assert j < k + 1 && Sends(steps, states, j, t'.id);
  }

  lemma PacketStep(host: Host, lock: Lock, steps: seq<Step>, states: seq<State>, k: nat, p: Place)
    requires IsRun(host, lock, steps, states) && k < |steps| && Get(states[k + 1], p).Some?
    requires forall q :: Get(states[k], q).Some? ==> PacketSent(steps, states, k, Get(states[k], q).value)
    ensures PacketSent(steps, states, k + 1, Get(states[k + 1], p).value)
  {
    var s, t := states[k], Get(states[k + 1], p).value;
    match steps[k]
    case Offer(x) =>
      SendPlaces(s, x, p);
      if Get(s, p) == Some(t) {
        StillSent(steps, states, k, t, t);
      } else {
        assert Sends(steps, states, k, t.id);
      }
    case Tick =>
      Transport(s, p);
      MovedSameBody(s, p, Get(s, Origin(s, p)).value);
      StillSent(steps, states, k, Get(s, Origin(s, p)).value, t);
    case Take(port) =>
      assert Get(s, p) == Some(t);
      StillSent(steps, states, k, t, t);
  }

  lemma AdmittedWasSent(host: Host, lock: Lock, steps: seq<Step>, states: seq<State>, k: nat)
    requires IsRun(host, lock, steps, states) && k < |steps| && steps[k].Tick? && Admitted(states[k]).Some?
    requires PacketSent(steps, states, k + 1, Admitted(states[k]).value)
    ensures EntrySent(steps, states, k + 1, EntryOf(Admitted(states[k]).value))
  {
    var t := Admitted(states[k]).value;
    ReachableInv(host, lock, steps, states, k + 1);
    assert Get(states[k + 1], Stage(0)) == Some(t) && TxnOk(states[k + 1], t);
    var j: nat :| j < k + 1 && Sends(steps, states, j, t.id) && SameBody(t, steps[j].t.(id := t.id));
    assert Sends(steps, states, j, EntryOf(t).id);
  }

  lemma StillEntered(steps: seq<Step>, states: seq<State>, k: nat, e: Entry)
    requires EntrySent(steps, states, k, e)
    ensures EntrySent(steps, states, k + 1, e)
  {
    var j: nat :| j < k && Sends(steps, states, j, e.id) && e.of == |steps[j].t.passes| && e.pass < e.of
      && e.grid == steps[j].t.passes[e.pass];
    assert j < k + 1 && Sends(steps, states, j, e.id);
  }

  /** In every run the packets in the switch and the passes in the history are those of transactions that were sent. */
  lemma {:induction false} EverythingWasSent(host: Host, lock: Lock, steps: seq<Step>, states: seq<State>, k: nat)
    requires IsRun(host, lock, steps, states) && k < |states|
    ensures forall p :: Get(states[k], p).Some? ==> PacketSent(steps, states, k, Get(states[k], p).value)
    ensures forall n :: 0 <= n < |states[k].entered| ==> EntrySent(steps, states, k, states[k].entered[n])
  {
    if k == 0 {
      assert forall p :: Get(states[0], p).None?;
    } else {
      var s, s' := states[k - 1], states[k];
      EverythingWasSent(host, lock, steps, states, k - 1);
      forall p | Get(s', p).Some?
        ensures PacketSent(steps, states, k, Get(s', p).value)
      {
        PacketStep(host, lock, steps, states, k - 1, p);
      }
      forall n | 0 <= n < |s'.entered|
        ensures EntrySent(steps, states, k, s'.entered[n])
      {
        if n < |s.entered| {
          assert s'.entered[n] == s.entered[n];
          StillEntered(steps, states, k - 1, s.entered[n]);
        } else {
          assert steps[k - 1].Tick? && Get(s', Stage(0)) == Admitted(s);
          AdmittedWasSent(host, lock, steps, states, k - 1);
        }
      }
    }
  }
}
