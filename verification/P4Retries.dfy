/**
  How often the switch program lets a packet try. A trip with nothing to undo is refused if a lock that
  the packet checks is set. The refusals are counted here from the run; the packet's own 8-bit counter
  is not used. A packet that got no access gives up only after eight refusals, and until then it is still
  on its way.
 */
module P4Retries {
  import opened P4Protocol

  /** The packet tries and finds a lock set that it checks. */
  predicate IsRefused(s: State, step: Step, id: nat) {
    && step.Process? && step.i < |s.waiting| && s.waiting[step.i].txn.id == id
    && s.waiting[step.i].undo == {} && s.lock * s.waiting[step.i].txn.check != {}
  }

  /** How often a transaction was refused in the first `k` steps. */
  function Refusals(steps: seq<Step>, states: seq<State>, id: nat, k: nat): nat
    requires k <= |steps| && |states| == |steps| + 1
  {
    if k == 0 then 0 else
      Refusals(steps, states, id, k - 1) + if IsRefused(states[k - 1], steps[k - 1], id) then 1 else 0
  }

  ghost predicate IsSent(steps: seq<Step>, t: Txn, k: nat) {
    exists j :: 0 <= j < k && j < |steps| && steps[j] == Inject(t)
  }

  // ---------------------------------------------------------------- packets and their identifiers

  ghost predicate IsKnown(s: State, id: nat) {
    (exists p :: p in s.waiting && p.txn.id == id) || (exists p :: p in s.done && p.txn.id == id)
  }

  lemma KnownIsUsed(s: State, id: nat)
    requires IsKnown(s, id)
    ensures UsedId(s, id)
  {
    if p :| p in s.waiting && p.txn.id == id {
      var i :| 0 <= i < |s.waiting| && s.waiting[i] == p;
    } else {
      var p :| p in s.done && p.txn.id == id;
      var i :| 0 <= i < |s.done| && s.done[i] == p;
    }
  }

  lemma InjectKeepsPackets(s: State, t: Txn)
    requires PacketsInv(s) && IdInv(s) && !UsedId(s, t.id) && IsWord(t.check) && IsWord(t.acquire)
    ensures PacketsInv(Next(s, Inject(t))) && IdInv(Next(s, Inject(t)))
  {
    AppendMembers(s.waiting, Fresh(t));
    forall p | p in s.waiting || p in s.done
      ensures p.txn.id != t.id
    {
      if p.txn.id == t.id {
        KnownIsUsed(s, t.id);
        assert false;
      }
    }
  }

  /** A trip keeps what a packet may hold, whatever the lock word is. */
  lemma TripKeepsPacket(s: State, pkt: Packet)
    requires PacketInv(pkt)
    ensures var trip := Ingress(s.lock, s.regs, pkt); trip.recirc ==> PacketInv(trip.pkt)
  {
  }

  lemma ProcessKeepsPackets(s: State, i: nat)
    requires PacketsInv(s) && IdInv(s) && i < |s.waiting|
    ensures PacketsInv(Next(s, Process(i))) && IdInv(Next(s, Process(i)))
  {
    assert s.waiting[i] in s.waiting;
    ProcessMembers(s, i);
    ProcessKeepsIdInv(s, i);
    TripKeepsPacket(s, s.waiting[i]);
    RemoveMembers(s.waiting, i);
  }

  lemma {:induction false} ReachablePackets(hosts: Hosts, steps: seq<Step>, states: seq<State>, k: nat)
    requires IsRun(hosts, steps, states) && HaveWords(hosts) && k < |states|
    ensures PacketsInv(states[k]) && IdInv(states[k])
  {
    if k != 0 {
      ReachablePackets(hosts, steps, states, k - 1);
      match steps[k - 1]
      case Inject(t) => InjectKeepsPackets(states[k - 1], t);
      case Process(i) => ProcessKeepsPackets(states[k - 1], i);
    }
  }

  // ---------------------------------------------------------------- the packet's counter

  /** The counter of every packet is the number of its refusals, modulo 256; a new identifier has none. */
  ghost predicate CountInv(s: State, count: nat -> nat) {
    && (forall p :: p in s.waiting || p in s.done ==> p.nFailed == count(p.txn.id) % 256)
    && (forall id :: !UsedId(s, id) ==> count(id) == 0)
  }

  ghost function Counts(steps: seq<Step>, states: seq<State>, k: nat): nat -> nat
    requires k <= |steps| && |states| == |steps| + 1
  {
    id => Refusals(steps, states, id, k)
  }

  lemma CountOnTrip(s: State, i: nat)
    requires i < |s.waiting|
    ensures var pkt, trip := s.waiting[i], Ingress(s.lock, s.regs, s.waiting[i]);
      trip.pkt.nFailed == if IsRefused(s, Process(i), pkt.txn.id) then (pkt.nFailed + 1) % 256 else pkt.nFailed
  {
  }

  lemma UsedStaysUsed(s: State, step: Step, id: nat)
    requires PacketsInv(s) && (step.Process? ==> step.i < |s.waiting|) && UsedId(s, id)
    ensures UsedId(Next(s, step), id)
  {
    var s' := Next(s, step);
    if i :| 0 <= i < |s.order| && s.order[i].id == id {
      assert s'.order[i].id == id;
    } else if i :| 0 <= i < |s.done| && s.done[i].txn.id == id {
      assert s'.done[i].txn.id == id;
    } else {
      var i :| 0 <= i < |s.waiting| && s.waiting[i].txn.id == id;
      WaitingStaysKnown(s, step, s.waiting[i]);
      KnownIsUsed(s', id);
    }
  }

  lemma WaitingStaysKnown(s: State, step: Step, p: Packet)
    requires PacketsInv(s) && (step.Process? ==> step.i < |s.waiting|) && p in s.waiting
    ensures IsKnown(Next(s, step), p.txn.id)
  {
    match step
    case Inject(t) => AppendMembers(s.waiting, Fresh(t));
    case Process(i) =>
      ProcessMembers(s, i);
      var s', trip := Next(s, step), Ingress(s.lock, s.regs, s.waiting[i]);
      if p.txn.id == s.waiting[i].txn.id {
        assert trip.pkt in s'.waiting || trip.pkt in s'.done;
      } else {
        assert p in s'.waiting;
      }
  }

  lemma InjectKeepsCount(s: State, t: Txn, count: nat -> nat)
    requires PacketsInv(s) && CountInv(s, count) && !UsedId(s, t.id)
    ensures CountInv(Next(s, Inject(t)), count)
  {
    AppendMembers(s.waiting, Fresh(t));
    forall id | !UsedId(Next(s, Inject(t)), id)
      ensures count(id) == 0
    {
      if UsedId(s, id) {
        UsedStaysUsed(s, Inject(t), id);
        assert false;
      }
    }
  }

  lemma CountWraps(n: nat)
    ensures (n % 256 + 1) % 256 == (n + 1) % 256
  {
  }

  ghost predicate CountsOn(s: State, i: nat, count: nat -> nat, count': nat -> nat) {
    forall id :: count'(id) == count(id) + if IsRefused(s, Process(i), id) then 1 else 0
  }

  lemma TripKeepsCount(s: State, i: nat, count: nat -> nat, count': nat -> nat)
    requires CountInv(s, count) && i < |s.waiting| && CountsOn(s, i, count, count')
    ensures var pkt := Ingress(s.lock, s.regs, s.waiting[i]).pkt; pkt.nFailed == count'(pkt.txn.id) % 256
  {
    assert s.waiting[i] in s.waiting;
    CountOnTrip(s, i);
    CountWraps(count(s.waiting[i].txn.id));
  }

  lemma PacketKeepsCount(s: State, i: nat, count: nat -> nat, count': nat -> nat, p: Packet)
    requires PacketsInv(s) && IdInv(s) && CountInv(s, count) && i < |s.waiting| && CountsOn(s, i, count, count')
    requires p in Next(s, Process(i)).waiting || p in Next(s, Process(i)).done
    ensures p.nFailed == count'(p.txn.id) % 256
  {
    ProcessMembers(s, i);
    if p == Ingress(s.lock, s.regs, s.waiting[i]).pkt {
      TripKeepsCount(s, i, count, count');
    } else {
      OthersKeepId(s, i, p);
      assert !IsRefused(s, Process(i), p.txn.id);
    }
  }

  lemma OthersKeepId(s: State, i: nat, p: Packet)
    requires PacketsInv(s) && IdInv(s) && i < |s.waiting| && p != Ingress(s.lock, s.regs, s.waiting[i]).pkt
    requires p in Next(s, Process(i)).waiting || p in Next(s, Process(i)).done
    ensures (p in s.waiting || p in s.done) && p.txn.id != s.waiting[i].txn.id
  {
    ProcessMembers(s, i);
    assert s.waiting[i] in s.waiting;
  }

  lemma UnusedHasNone(s: State, i: nat, count: nat -> nat, count': nat -> nat, id: nat)
    requires PacketsInv(s) && CountInv(s, count) && i < |s.waiting| && CountsOn(s, i, count, count')
    requires !UsedId(Next(s, Process(i)), id)
    ensures count'(id) == 0
  {
    if UsedId(s, id) {
      UsedStaysUsed(s, Process(i), id);
      assert false;
    }
    assert s.waiting[i].txn.id != id;
  }

  lemma ProcessKeepsCount(s: State, i: nat, count: nat -> nat, count': nat -> nat)
    requires PacketsInv(s) && IdInv(s) && CountInv(s, count) && i < |s.waiting| && CountsOn(s, i, count, count')
    ensures CountInv(Next(s, Process(i)), count')
  {
    var s' := Next(s, Process(i));
    forall p | p in s'.waiting || p in s'.done
      ensures p.nFailed == count'(p.txn.id) % 256
    {
      PacketKeepsCount(s, i, count, count', p);
    }
    forall id | !UsedId(s', id)
      ensures count'(id) == 0
    {
      UnusedHasNone(s, i, count, count', id);
    }
  }

  lemma {:induction false} ReachableCount(hosts: Hosts, steps: seq<Step>, states: seq<State>, k: nat)
    requires IsRun(hosts, steps, states) && HaveWords(hosts) && k < |states|
    ensures CountInv(states[k], Counts(steps, states, k))
  {
    if k != 0 {
      ReachableCount(hosts, steps, states, k - 1);
      ReachablePackets(hosts, steps, states, k - 1);
      var count, count' := Counts(steps, states, k - 1), Counts(steps, states, k);
      match steps[k - 1]
      case Inject(t) =>
        assert forall id :: count'(id) == count(id);
        InjectKeepsCount(states[k - 1], t, count);
      case Process(i) =>
        ProcessKeepsCount(states[k - 1], i, count, count');
    }
  }

  // ---------------------------------------------------------------- when a packet gives up

  /** The packet has left and never got an access. */
  ghost predicate GaveUp(s: State, id: nat) {
    (exists p :: p in s.done && p.txn.id == id) && !Ordered(s.order, id)
  }

  /** The packet is on its way, or it got its access. */
  ghost predicate StillInIt(s: State, id: nat) {
    (exists p :: p in s.waiting && p.txn.id == id) || Ordered(s.order, id)
  }

  /** A trip on which the packet gives bits back without having had an access. */
  ghost predicate GivesBack(s: State, step: Step, id: nat) {
    && step.Process? && step.i < |s.waiting| && s.waiting[step.i].txn.id == id
    && s.waiting[step.i].undo != {} && !Ordered(s.order, id)
  }

  lemma TripGivesUp(s: State, i: nat)
    requires PacketsInv(s) && IdInv(s) && i < |s.waiting|
    ensures var pkt := s.waiting[i]; var trip := Ingress(s.lock, s.regs, pkt);
      if GivesBack(s, Process(i), pkt.txn.id)
      then trip.recirc == (pkt.nFailed < MAX_FAILED) && (trip.recirc ==> trip.pkt.undo == {})
      else !trip.recirc ==> FirstAccess(s, pkt) || Ordered(s.order, pkt.txn.id)
  {
    assert s.waiting[i] in s.waiting;
  }

  /**
    A packet that has to give bits back without having had an access leaves on that trip if its refusals,
    counted modulo 256, are at least eight, and otherwise goes round to try again.
   */
  lemma GivesUpIff(hosts: Hosts, steps: seq<Step>, states: seq<State>, k: nat, id: nat)
    requires IsRun(hosts, steps, states) && HaveWords(hosts) && k < |steps| && GivesBack(states[k], steps[k], id)
    ensures GaveUp(states[k + 1], id) <==> Refusals(steps, states, id, k) % 256 >= 8
    ensures !GaveUp(states[k + 1], id) ==>
      exists p :: p in states[k + 1].waiting && p.txn.id == id && p.undo == {}
  {
    var s, i := states[k], steps[k].i;
    ReachablePackets(hosts, steps, states, k);
    ReachableCount(hosts, steps, states, k);
    assert s.waiting[i] in s.waiting;
    ProcessMembers(s, i);
    TripGivesUp(s, i);
    var trip := Ingress(s.lock, s.regs, s.waiting[i]);
    assert Counts(steps, states, k)(id) == Refusals(steps, states, id, k);
    if trip.recirc {
      assert trip.pkt in states[k + 1].waiting;
    } else {
      assert trip.pkt in states[k + 1].done;
    }
  }

  lemma RefusalsGrow(steps: seq<Step>, states: seq<State>, id: nat, k: nat)
    requires k < |steps| && |states| == |steps| + 1
    ensures Refusals(steps, states, id, k) <= Refusals(steps, states, id, k + 1)
  {
  }

  lemma NewlyGaveUp(s: State, step: Step, id: nat)
    requires PacketsInv(s) && IdInv(s) && (step.Process? ==> step.i < |s.waiting|)
    requires GaveUp(Next(s, step), id) && !GaveUp(s, id)
    ensures GivesBack(s, step, id)
  {
    if step.Process? {
      assert s.waiting[step.i] in s.waiting;
      ProcessMembers(s, step.i);
      TripGivesUp(s, step.i);
      OrderedAppend(s.order, s.waiting[step.i].txn);
    }
  }

  lemma RefusedBefore(hosts: Hosts, steps: seq<Step>, states: seq<State>, k: nat, id: nat)
    requires IsRun(hosts, steps, states) && HaveWords(hosts) && k < |steps|
    requires GaveUp(states[k + 1], id) && !GaveUp(states[k], id)
    ensures Refusals(steps, states, id, k) >= 8
  {
    ReachablePackets(hosts, steps, states, k);
    NewlyGaveUp(states[k], steps[k], id);
    GivesUpIff(hosts, steps, states, k, id);
  }

  /** Whoever has left without an access was refused at least eight times. */
  lemma {:induction false} GivesUpAfterEight(hosts: Hosts, steps: seq<Step>, states: seq<State>, k: nat, id: nat)
    requires IsRun(hosts, steps, states) && HaveWords(hosts) && k < |states| && GaveUp(states[k], id)
    ensures Refusals(steps, states, id, k) >= 8
  {
    if k != 0 {
      if GaveUp(states[k - 1], id) {
        GivesUpAfterEight(hosts, steps, states, k - 1, id);
      } else {
        RefusedBefore(hosts, steps, states, k - 1, id);
      }
      RefusalsGrow(steps, states, id, k - 1);
    }
  }

  lemma {:induction false} SentIsKnown(hosts: Hosts, steps: seq<Step>, states: seq<State>, k: nat, t: Txn)
    requires IsRun(hosts, steps, states) && HaveWords(hosts) && k < |states| && IsSent(steps, t, k)
    ensures IsKnown(states[k], t.id)
  {
    var s := states[k - 1];
    ReachablePackets(hosts, steps, states, k - 1);
    if steps[k - 1] == Inject(t) {
      AppendMembers(s.waiting, Fresh(t));
      assert Fresh(t) in states[k].waiting;
    } else {
      assert IsSent(steps, t, k - 1);
      SentIsKnown(hosts, steps, states, k - 1, t);
      if p :| p in s.waiting && p.txn.id == t.id {
        WaitingStaysKnown(s, steps[k - 1], p);
      } else {
        var p :| p in s.done && p.txn.id == t.id;
        assert p in states[k].done;
      }
    }
  }

  /** A transaction that was refused fewer than eight times is still on its way or got its access. */
  lemma FewRefusalsStay(hosts: Hosts, steps: seq<Step>, states: seq<State>, k: nat, t: Txn)
    requires IsRun(hosts, steps, states) && HaveWords(hosts) && k < |states| && IsSent(steps, t, k)
    requires Refusals(steps, states, t.id, k) < 8
    ensures StillInIt(states[k], t.id)
  {
    SentIsKnown(hosts, steps, states, k, t);
    if !StillInIt(states[k], t.id) {
      GivesUpAfterEight(hosts, steps, states, k, t.id);
    }
  }
}
