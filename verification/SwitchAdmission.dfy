/**
  Who gets in. A host is refused only when 500 packets of its four neighbouring ports are queued. Under
  granular locks a first pass is admitted exactly if no packet in the switch holds a lock it checks, and a
  transaction is given up only after 24 refusals, counted here from the run.
 */
module SwitchAdmission {
  import opened SwitchModel
  import opened SwitchPlaces
  import G = Granular

  // ---------------------------------------------------------------- input buffers

  const PORTS_PER_GROUP: nat := 4

  /** How many packets of a queue came from one of the four ports from `low` on. */
  function CountPorts(q: seq<Txn>, low: nat): nat {
    if q == [] then 0 else
      CountPorts(q[..|q| - 1], low) + if low <= q[|q| - 1].port < low + PORTS_PER_GROUP then 1 else 0
  }

  /** Of the packets queued in the first `n` buffers. */
  function CountQueued(s: State, n: nat, low: nat): nat
    requires n <= |s.ipb|
  {
    if n == 0 then 0 else CountQueued(s, n - 1, low) + CountPorts(s.ipb[n - 1], low)
  }

  ghost predicate PortsInv(s: State) {
    |s.ipb| == N_PORT_GROUPS && forall g :: 0 <= g < N_PORT_GROUPS ==> FromGroup(s.ipb[g], g) && |s.ipb[g]| <= IPB_SIZE
  }

  /** All packets came from the four ports of this group. */
  ghost predicate FromGroup(q: seq<Txn>, g: nat) {
    forall k :: 0 <= k < |q| ==> PORTS_PER_GROUP * g <= q[k].port < PORTS_PER_GROUP * (g + 1)
  }

  lemma {:induction false} CountGroup(q: seq<Txn>, g: nat, g': nat)
    requires FromGroup(q, g)
    ensures CountPorts(q, PORTS_PER_GROUP * g') == if g == g' then |q| else 0
  {
    if q != [] {
      CountGroup(q[..|q| - 1], g, g');
    }
  }

  lemma {:induction false} CountAll(s: State, n: nat, g: nat)
    requires PortsInv(s) && n <= N_PORT_GROUPS && g < N_PORT_GROUPS
    ensures CountQueued(s, n, PORTS_PER_GROUP * g) == if g < n then |s.ipb[g]| else 0
  {
    if n > 0 {
      CountAll(s, n - 1, g);
      CountGroup(s.ipb[n - 1], n - 1, g);
    }
  }

  lemma NextKeepsPorts(host: Host, s: State, step: Step)
    requires Shape(s) && PortsInv(s) && Enabled(host, s, step)
    ensures PortsInv(Next(host, s, step))
  {
    if step.Offer? {
      assert FromGroup(s.ipb[PortToGroup(step.t.port)], PortToGroup(step.t.port));
    } else if step.Tick? {
      forall g | 0 <= g < N_PORT_GROUPS
        ensures FromGroup(NextIpb(s, g), g) && |NextIpb(s, g)| <= IPB_SIZE
      {
        assert FromGroup(s.ipb[g], g);
      }
    }
  }

  lemma {:induction false} ReachablePorts(host: Host, lock: Lock, steps: seq<Step>, states: seq<State>, k: nat)
    requires IsRun(host, lock, steps, states) && k < |states|
    ensures PortsInv(states[k])
  {
    if k > 0 {
      ReachablePorts(host, lock, steps, states, k - 1);
      NextKeepsPorts(host, states[k - 1], steps[k - 1]);
    }
  }

  /** In every run a send is refused exactly if 500 packets of the same four neighbouring ports are queued. */
  lemma RefusedIffFull(host: Host, lock: Lock, steps: seq<Step>, states: seq<State>, k: nat, t: Txn)
    requires IsRun(host, lock, steps, states) && k < |states| && Sendable(t)
    ensures Shape(states[k])
    ensures var s, low := states[k], t.port - t.port % PORTS_PER_GROUP;
      && |s.ipb| == N_PORT_GROUPS && CountQueued(s, N_PORT_GROUPS, low) <= 500
      && (Send(s, t) == s <==> CountQueued(s, N_PORT_GROUPS, low) == 500)
  {
    ReachableInv(host, lock, steps, states, k);
    ReachablePorts(host, lock, steps, states, k);
    CountAll(states[k], N_PORT_GROUPS, t.port / PORTS_PER_GROUP);
    assert PORTS_PER_GROUP * (t.port / PORTS_PER_GROUP) == t.port - t.port % PORTS_PER_GROUP;
  }

  // ---------------------------------------------------------------- granular admission

  /**
    In every run of planned transactions a packet that comes to stage 0 for its first pass with nothing to
    give back is admitted exactly if no packet in the switch holds a lock it checks; one that has to give
    back is not; and a later pass always is.
   */
  lemma AdmittedIff(lockOf: G.Locking, host: Host, steps: seq<Step>, states: seq<State>, k: nat)
    requires IsRun(host, Granular({}), steps, states) && k < |states| && forall t :: host(t) ==> G.Planned(lockOf, t)
    requires Shape(states[k]) && Entering(states[k]).Some?
    ensures var s, t := states[k], Entering(states[k]).value;
      Admitted(s).value.valid <==>
        t.passCt > 0 || (t.locksUndo == {} && forall p :: G.HoldsAt(s, p) !! t.locksCheck)
  {
    var s, t := states[k], Entering(states[k]).value;
    G.LockWordIsDisjointUnion(lockOf, host, steps, states, k);
    if t.passCt == 0 && t.locksUndo == {} {
      if b :| b in s.lock.locks && b in t.locksCheck {
        var p :| b in G.HoldsAt(s, p);
        assert b in G.HoldsAt(s, p) * t.locksCheck && b in s.lock.locks * t.locksCheck;
        assert !(G.HoldsAt(s, p) !! t.locksCheck);
      } else {
        forall p
          ensures G.HoldsAt(s, p) !! t.locksCheck
        {
          assert forall b :: b in G.HoldsAt(s, p) ==> b in s.lock.locks;
        }
      }
    }
  }

  // ---------------------------------------------------------------- giving up

  /** The transaction tries its first pass with nothing to give back and finds a lock set that it checks. */
  predicate IsRefused(s: State, step: Step, id: TxnId) {
    && step.Tick? && Shape(s) && s.lock.Granular? && Entering(s).Some?
    && var t := Entering(s).value; t.id == id && t.passCt == 0 && t.locksUndo == {} && s.lock.locks * t.locksCheck != {}
  }

  function Refusals(steps: seq<Step>, states: seq<State>, id: TxnId, k: nat): nat
    requires k <= |steps| && |states| == |steps| + 1
  {
    if k == 0 then 0 else
      Refusals(steps, states, id, k - 1) + if IsRefused(states[k - 1], steps[k - 1], id) then 1 else 0
  }

  /** Every packet knows how often it was refused, and what is given up was refused often enough. */
  ghost predicate CountInv(s: State, count: TxnId -> nat) {
    && (forall p :: Get(s, p).Some? ==> Get(s, p).value.failCt == count(Get(s, p).value.id))
    && (forall id :: id >= s.nextId ==> count(id) == 0)
    && (forall port, i :: 0 <= port < |s.egress| && 0 <= i < |s.egress[port]| && !s.egress[port][i].ok ==>
          count(s.egress[port][i].txn.id) >= 24)
  }

  ghost predicate CountsOn(s: State, step: Step, count: TxnId -> nat, count': TxnId -> nat) {
    forall id :: count'(id) == count(id) + if IsRefused(s, step, id) then 1 else 0
  }

  ghost function Counts(steps: seq<Step>, states: seq<State>, k: nat): TxnId -> nat
    requires k <= |steps| && |states| == |steps| + 1
  {
    id => Refusals(steps, states, id, k)
  }

  lemma PacketCount(s: State, p: Place, count: TxnId -> nat, count': TxnId -> nat)
    requires Inv(s) && s.lock.Granular? && CountInv(s, count) && CountsOn(s, Tick, count, count')
    requires Get(Cycle(s), p).Some?
    ensures Get(Cycle(s), p).value.failCt == count'(Get(Cycle(s), p).value.id)
  {
    Transport(s, p);
    var t := Get(s, Origin(s, p)).value;
    MovedSameBody(s, p, t);
    if p != Stage(0) {
      OthersDiffer(s, p);
    }
  }

  /** A packet leaves undone exactly if it was not admitted, has nothing to give back and was refused 24 times. */
  lemma LeavesUndone(s: State, count: TxnId -> nat)
    requires Inv(s) && CountInv(s, count) && s.pipe[N_STAGES - 1].Some?
    ensures var t := s.pipe[N_STAGES - 1].value;
      Leaves(Finished(t)) && |t.passes| != Finished(t).passCt <==>
        !t.valid && t.passCt == 0 && t.locksUndo == {} && count(t.id) >= 24
  {
    var t := s.pipe[N_STAGES - 1].value;
    assert Get(s, Stage(N_STAGES - 1)).value == t;
    assert TxnOk(s, t);
  }

  lemma EgressCount(s: State, count: TxnId -> nat, count': TxnId -> nat, port: nat, i: nat)
    requires Inv(s) && CountInv(s, count) && CountsOn(s, Tick, count, count')
    requires port < N_PORTS && i < |Cycle(s).egress[port]| && !Cycle(s).egress[port][i].ok
    ensures count'(Cycle(s).egress[port][i].txn.id) >= 24
  {
    if i >= |s.egress[port]| {
      LeavesUndone(s, count);
    } else {
      assert Cycle(s).egress[port][i] == s.egress[port][i];
    }
  }

  lemma CycleKeepsCount(s: State, count: TxnId -> nat, count': TxnId -> nat)
    requires Inv(s) && s.lock.Granular? && CountInv(s, count) && CountsOn(s, Tick, count, count')
    ensures CountInv(Cycle(s), count')
  {
    var s' := Cycle(s);
    forall p | Get(s', p).Some?
      ensures Get(s', p).value.failCt == count'(Get(s', p).value.id)
    {
      PacketCount(s, p, count, count');
    }
    forall port, i | 0 <= port < |s'.egress| && 0 <= i < |s'.egress[port]| && !s'.egress[port][i].ok
      ensures count'(s'.egress[port][i].txn.id) >= 24
    {
      EgressCount(s, count, count', port, i);
    }
    forall id | id >= s'.nextId
      ensures count'(id) == 0
    {
      if Entering(s).Some? {
        assert Get(s, Origin(s, Stage(0))) == Entering(s);
        assert TxnOk(s, Entering(s).value);
      }
    }
  }

  lemma OfferKeepsCount(s: State, t: Txn, count: TxnId -> nat)
    requires Inv(s) && CountInv(s, count) && Sendable(t)
    ensures CountInv(Send(s, t), count)
  {
    var s' := Send(s, t);
    forall p | Get(s', p).Some?
      ensures Get(s', p).value.failCt == count(Get(s', p).value.id)
    {
      SendPlaces(s, t, p);
    }
  }

  lemma TakeKeepsCount(s: State, port: nat, count: TxnId -> nat)
    requires Inv(s) && CountInv(s, count) && port < N_PORTS
    ensures CountInv(Recv(s, port), count)
  {
    assert forall p :: Get(Recv(s, port), p) == Get(s, p);
  }

  lemma SameCount(s: State, count: TxnId -> nat, count': TxnId -> nat)
    requires CountInv(s, count) && forall id :: count'(id) == count(id)
    ensures CountInv(s, count')
  {
  }

  lemma StepKeepsCount(host: Host, s: State, step: Step, count: TxnId -> nat, count': TxnId -> nat)
    requires Inv(s) && s.lock.Granular? && CountInv(s, count) && Enabled(host, s, step)
    requires CountsOn(s, step, count, count')
    ensures Next(host, s, step).lock.Granular? && CountInv(Next(host, s, step), count')
  {
    match step
    case Offer(t) =>
      OfferKeepsCount(s, t, count);
      SameCount(Send(s, t), count, count');
    case Tick =>
      CycleKeepsCount(s, count, count');
    case Take(port) =>
      TakeKeepsCount(s, port, count);
      SameCount(Recv(s, port), count, count');
  }

  lemma {:induction false} ReachableCount(host: Host, steps: seq<Step>, states: seq<State>, k: nat)
    requires IsRun(host, Granular({}), steps, states) && k < |states|
    ensures states[k].lock.Granular? && CountInv(states[k], Counts(steps, states, k))
  {
    if k == 0 {
      assert forall p :: Get(states[0], p).None?;
    } else {
      ReachableCount(host, steps, states, k - 1);
      ReachableInv(host, Granular({}), steps, states, k - 1);
      assert CountsOn(states[k - 1], steps[k - 1], Counts(steps, states, k - 1), Counts(steps, states, k));
      StepKeepsCount(host, states[k - 1], steps[k - 1], Counts(steps, states, k - 1), Counts(steps, states, k));
    }
  }

  /** In every run what a host gets back undone was refused at least 24 times. */
  lemma GivesUpAfter24(host: Host, steps: seq<Step>, states: seq<State>, k: nat, port: nat, i: nat)
    requires IsRun(host, Granular({}), steps, states) && k < |states|
    requires port < |states[k].egress| && i < |states[k].egress[port]| && !states[k].egress[port][i].ok
    ensures Refusals(steps, states, states[k].egress[port][i].txn.id, k) >= 24
  {
    ReachableCount(host, steps, states, k);
    assert Counts(steps, states, k)(states[k].egress[port][i].txn.id) >= 24;
  }

  /**
    And a packet at the end of the pipe is given up exactly if it has nothing to give back and was
    refused so often.
   */
  lemma GivenUpIff(host: Host, steps: seq<Step>, states: seq<State>, k: nat)
    requires IsRun(host, Granular({}), steps, states) && k < |states|
    requires Shape(states[k]) && states[k].pipe[N_STAGES - 1].Some?
    ensures var s, t := states[k], states[k].pipe[N_STAGES - 1].value;
      (exists d :: Cycle(s).egress[t.port] == s.egress[t.port] + [d] && !d.ok) <==>
        !t.valid && t.passCt == 0 && t.locksUndo == {} && Refusals(steps, states, t.id, k) >= 24
  {
    var s, t := states[k], states[k].pipe[N_STAGES - 1].value;
    ReachableCount(host, steps, states, k);
    ReachableInv(host, Granular({}), steps, states, k);
    LeavesUndone(s, Counts(steps, states, k));
    assert Counts(steps, states, k)(t.id) == Refusals(steps, states, t.id, k);
    var d := Done(|t.passes| == Finished(t).passCt, Finished(t));
    if Leaves(Finished(t)) {
      assert Cycle(s).egress[t.port] == s.egress[t.port] + [d];
      assert forall d' :: s.egress[t.port] + [d'] == s.egress[t.port] + [d] ==> d' == d by {
        forall d' | s.egress[t.port] + [d'] == s.egress[t.port] + [d]
          ensures d' == d
        {
          assert (s.egress[t.port] + [d'])[|s.egress[t.port]|] == (s.egress[t.port] + [d])[|s.egress[t.port]|];
        }
      }
    }
  }
}
