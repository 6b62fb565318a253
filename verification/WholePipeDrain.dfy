/**
  Under `whole_pipe_lock` the switch drains: while anything is left to do, some pass completes
  within N_STAGES + 2 cycles.
 */
module WholePipeDrain {
  import opened SwitchModel
  import opened SwitchPlaces
  import WholePipe

  // ---------------------------------------------------------------- the work left in the switch

  function Left(t: Txn): nat {
    if t.passCt <= |t.passes| then |t.passes| - t.passCt else 0
  }

  function LeftIn(p: Option<Txn>): nat {
    if p.Some? then Left(p.value) else 0
  }

  function LeftInQueue(q: seq<Txn>): nat {
    if q == [] then 0 else Left(q[0]) + LeftInQueue(q[1..])
  }

  /** Passes left in the input buffers and parsers of the first `n` port groups. */
  function LeftInGroups(s: State, n: nat): nat
    requires n <= |s.ipb| && n <= |s.parser|
  {
    if n == 0 then 0 else LeftInGroups(s, n - 1) + LeftInQueue(s.ipb[n - 1]) + LeftIn(s.parser[n - 1])
  }

  function LeftInPipe(pipe: seq<Option<Txn>>, n: nat): nat
    requires n <= |pipe|
  {
    if n == 0 then 0 else LeftInPipe(pipe, n - 1) + LeftIn(pipe[n - 1])
  }

  /** All passes that the transactions in the switch still have to run. */
  function Remaining(s: State): nat
    requires Shape(s)
  {
    LeftInGroups(s, |s.ipb|) + LeftIn(s.recirc) + LeftInPipe(s.pipe, |s.pipe|)
  }

  lemma {:induction false} LeftInShiftedPipe(t: Option<Txn>, pipe: seq<Option<Txn>>, n: nat)
    requires n < |pipe|
    ensures LeftInPipe([t] + pipe[..|pipe| - 1], n + 1) == LeftIn(t) + LeftInPipe(pipe, n)
  {
    var pipe' := [t] + pipe[..|pipe| - 1];
    if n == 0 {
      assert LeftInPipe(pipe', 0) == 0;
    } else {
      LeftInShiftedPipe(t, pipe, n - 1);
      assert pipe'[n] == pipe[n - 1];
    }
  }

  lemma {:induction false} CycleLeftInGroups(s: State, n: nat)
    requires Shape(s) && n <= N_PORT_GROUPS
    ensures LeftInGroups(Cycle(s), n) + (if Chosen(s).Some? && Chosen(s).value < n then LeftIn(Entering(s)) else 0)
      == LeftInGroups(s, n)
  {
    if n != 0 {
      CycleLeftInGroups(s, n - 1);
    }
  }

  lemma LeftAfterAdmission(s: State)
    requires Shape(s)
    ensures LeftIn(Admitted(s)) == LeftIn(Entering(s))
  {
  }

  /** A cycle completes one pass when the packet at the end of the pipe is valid, and none otherwise. */
  lemma CycleRemaining(s: State)
    requires WholePipe.Inv(s)
    ensures Shape(Cycle(s))
    ensures Remaining(Cycle(s)) + (if Live(s.pipe[N_STAGES - 1]) then 1 else 0) == Remaining(s)
  {
    CycleKeepsShape(s);
    var s' := Cycle(s);
    var out := s.pipe[N_STAGES - 1];
    CycleLeftInGroups(s, |s.ipb|);
    LeftAfterAdmission(s);
    LeftInShiftedPipe(Admitted(s), s.pipe, |s.pipe| - 1);
    assert LeftInPipe(s.pipe, |s.pipe|) == LeftInPipe(s.pipe, |s.pipe| - 1) + LeftIn(out);
    if out.Some? {
      assert Get(s, Stage(N_STAGES - 1)) == out;
      assert TxnOk(s, out.value);
    }
  }

  // ---------------------------------------------------------------- the next completed pass

  /** The valid packet nearest to the end among the first `n` stages. */
  function OldestLive(pipe: seq<Option<Txn>>, n: nat): (m: Option<nat>)
    requires n <= |pipe|
    ensures m.None? <==> forall i :: 0 <= i < n ==> !Live(pipe[i])
    ensures m.Some? ==> m.value < n && Live(pipe[m.value]) && forall i :: m.value < i < n ==> !Live(pipe[i])
  {
    if n == 0 then None
    else if Live(pipe[n - 1]) then Some(n - 1)
    else OldestLive(pipe, n - 1)
  }

  /** A bound on the number of cycles until the next pass completes. */
  function Distance(s: State): nat
    requires Shape(s)
  {
    var m := OldestLive(s.pipe, |s.pipe|);
    if m.Some? then |s.pipe| - m.value
    else if Entering(s).Some? then N_STAGES + 1
    else N_STAGES + 2
  }

  lemma DistanceOfLive(s: State, i: nat)
    requires Shape(s) && i < N_STAGES && Live(s.pipe[i])
    ensures Distance(s) <= N_STAGES - i
  {
  }

  /** With no valid pass in the pipe, whoever asks for admission gets it. */
  lemma IdlePipeAdmits(s: State)
    requires WholePipe.Inv(s) && Entering(s).Some? && forall i :: 0 <= i < N_STAGES ==> !Live(s.pipe[i])
    ensures Live(Admitted(s))
  {
    WholePipe.EnteringFacts(s);
    if s.lock.holder.Some? {
      var p :| Get(s, p).Some? && Get(s, p).value.id == s.lock.holder.value;
      assert WholePipe.Holding(s, p, Get(s, p).value);
      assert p.Stage? ==> Live(s.pipe[p.i]);
      assert p == Recirc && Entering(s) == s.recirc;
    }
  }

  lemma {:induction false} GroupWithWork(s: State, n: nat) returns (g: nat)
    requires n <= |s.ipb| && n <= |s.parser| && LeftInGroups(s, n) > 0 && forall i :: 0 <= i < n ==> s.parser[i].None?
    ensures g < n && s.ipb[g] != []
  {
    if LeftInQueue(s.ipb[n - 1]) > 0 {
      g := n - 1;
    } else {
      g := GroupWithWork(s, n - 1);
    }
  }

  lemma {:induction false} EmptyPipeHasNoWork(pipe: seq<Option<Txn>>, n: nat)
    requires n <= |pipe| && forall i :: 0 <= i < n ==> pipe[i].None?
    ensures LeftInPipe(pipe, n) == 0
  {
    if n != 0 {
      EmptyPipeHasNoWork(pipe, n - 1);
    }
  }

  /** With nothing valid in the pipe and nobody parsed, packets are waiting in an input buffer. */
  lemma OnlyQueuedWork(s: State)
    requires WholePipe.Inv(s) && Remaining(s) > 0 && Entering(s).None?
    requires forall i :: 0 <= i < N_STAGES ==> !Live(s.pipe[i])
    ensures Entering(Cycle(s)).Some?
  {
    assert s.lock.holder.None?;
    forall i | 0 <= i < |s.pipe|
      ensures s.pipe[i].None?
    {
      assert Get(s, Stage(i)) == s.pipe[i];
      assert s.pipe[i].Some? ==> TxnOk(s, s.pipe[i].value);
    }
    EmptyPipeHasNoWork(s.pipe, |s.pipe|);
    var g := GroupWithWork(s, |s.ipb|);
    CycleKeepsShape(s);
    assert Cycle(s).parser[g].Some?;
  }

  /** Every cycle either completes a pass or comes closer to completing one. */
  lemma Progress(s: State)
    requires WholePipe.Inv(s) && Remaining(s) > 0
    ensures Shape(Cycle(s))
    ensures Live(s.pipe[N_STAGES - 1]) || Distance(Cycle(s)) < Distance(s)
  {
    var s' := Cycle(s);
    CycleKeepsShape(s);
    var m := OldestLive(s.pipe, |s.pipe|);
    if m.Some? {
      if m.value < N_STAGES - 1 {
        assert s'.pipe[m.value + 1] == s.pipe[m.value];
        DistanceOfLive(s', m.value + 1);
      }
    } else if Entering(s).Some? {
      IdlePipeAdmits(s);
      DistanceOfLive(s', 0);
    } else {
      OnlyQueuedWork(s);
    }
  }

  // ---------------------------------------------------------------- draining

  /** A run in which nothing is sent from step `k` to step `m`; the host may receive. */
  ghost predicate Draining(host: Host, steps: seq<Step>, states: seq<State>, k: nat, m: nat) {
    && IsRun(host, SwitchModel.WholePipe(None), steps, states)
    && k <= m <= |steps|
    && forall j :: k <= j < m ==> !steps[j].Offer?
  }

  /** The number of cycles between two steps of a run. */
  function Ticks(steps: seq<Step>, k: nat, m: nat): nat
    requires k <= m <= |steps|
  {
    if k == m then 0 else Ticks(steps, k, m - 1) + if steps[m - 1].Tick? then 1 else 0
  }

  /** A bound on the number of cycles until no pass is left. */
  function CyclesLeft(s: State): nat
    requires Shape(s)
  {
    if Remaining(s) == 0 then 0 else (Remaining(s) - 1) * (N_STAGES + 2) + Distance(s)
  }

  lemma {:induction false} SameWorkInGroups(s: State, s': State, n: nat)
    requires s'.ipb == s.ipb && s'.parser == s.parser && n <= |s.ipb| && n <= |s.parser|
    ensures LeftInGroups(s', n) == LeftInGroups(s, n)
  {
    if n != 0 {
      SameWorkInGroups(s, s', n - 1);
    }
  }

  lemma {:induction false} SameFullest(s: State, s': State, n: nat)
    requires s'.ipb == s.ipb && s'.parser == s.parser && |s.ipb| == |s.parser| && n <= |s.ipb|
    ensures Fullest(s', n) == Fullest(s, n)
  {
    if n != 0 {
      SameFullest(s, s', n - 1);
    }
  }

  /** Receiving neither adds nor removes work. */
  lemma RecvCyclesLeft(s: State, port: nat)
    requires Shape(s) && port < N_PORTS
    ensures Shape(Recv(s, port)) && CyclesLeft(Recv(s, port)) == CyclesLeft(s)
  {
    SameWorkInGroups(s, Recv(s, port), |s.ipb|);
    SameFullest(s, Recv(s, port), N_PORT_GROUPS);
  }

  /** Every cycle uses up one of the cycles left. */
  lemma CycleCyclesLeft(s: State)
    requires WholePipe.Inv(s)
    ensures Shape(Cycle(s)) && CyclesLeft(Cycle(s)) <= if CyclesLeft(s) == 0 then 0 else CyclesLeft(s) - 1
  {
    CycleRemaining(s);
    if Remaining(s) > 0 {
      Progress(s);
    }
  }

  lemma {:induction false} TicksUseUp(host: Host, steps: seq<Step>, states: seq<State>, k: nat, m: nat)
    requires Draining(host, steps, states, k, m)
    ensures Shape(states[k]) && Shape(states[m])
    ensures CyclesLeft(states[m]) == 0 || CyclesLeft(states[m]) + Ticks(steps, k, m) <= CyclesLeft(states[k])
  {
    WholePipe.ReachableInv(host, steps, states, k);
    if k < m {
      TicksUseUp(host, steps, states, k, m - 1);
      WholePipe.ReachableInv(host, steps, states, m - 1);
      match steps[m - 1]
      case Tick => CycleCyclesLeft(states[m - 1]);
      case Take(port) => RecvCyclesLeft(states[m - 1], port);
    }
  }

  /** While passes are left, N_STAGES + 2 cycles complete at least one, whatever is received meanwhile. */
  lemma DrainRate(host: Host, steps: seq<Step>, states: seq<State>, k: nat, m: nat)
    requires Draining(host, steps, states, k, m) && Ticks(steps, k, m) >= N_STAGES + 2
    ensures Shape(states[k]) && Shape(states[m])
    ensures Remaining(states[m]) <= if Remaining(states[k]) == 0 then 0 else Remaining(states[k]) - 1
  {
    TicksUseUp(host, steps, states, k, m);
  }

  lemma {:induction false} WorkInPipe(pipe: seq<Option<Txn>>, n: nat, i: nat)
    requires i < n <= |pipe|
    ensures LeftIn(pipe[i]) <= LeftInPipe(pipe, n)
  {
    if i < n - 1 {
      WorkInPipe(pipe, n - 1, i);
    }
  }

  lemma {:induction false} WorkInQueue(q: seq<Txn>, i: nat)
    requires i < |q|
    ensures Left(q[i]) <= LeftInQueue(q)
  {
    if i > 0 {
      WorkInQueue(q[1..], i - 1);
    }
  }

  lemma {:induction false} WorkInGroups(s: State, n: nat, g: nat)
    requires g < n && n <= |s.ipb| && n <= |s.parser|
    ensures LeftInQueue(s.ipb[g]) + LeftIn(s.parser[g]) <= LeftInGroups(s, n)
  {
    if g < n - 1 {
      WorkInGroups(s, n - 1, g);
    }
  }

  lemma NoWorkNoPackets(s: State, p: Place)
    requires SwitchPlaces.Inv(s) && Remaining(s) == 0
    ensures Get(s, p).None?
  {
    if Get(s, p).Some? {
      assert TxnOk(s, Get(s, p).value);
      match p
      case Queued(g, k) => WorkInQueue(s.ipb[g], k); WorkInGroups(s, |s.ipb|, g);
      case Parsed(g) => WorkInGroups(s, |s.ipb|, g);
      case Recirc =>
      case Stage(i) => WorkInPipe(s.pipe, |s.pipe|, i);
    }
  }

  // ---------------------------------------------------------------- where the packets end up

  /** A finished transaction: the one that was sent, with all its passes run. */
  predicate IsOutcome(t: Txn, d: Done) {
    SameBody(d.txn, t) && WholePipe.Completed(d)
  }

  /** Step `j` of the run received `d` from `port`. */
  predicate Receives(steps: seq<Step>, states: seq<State>, j: nat, port: nat, d: Done) {
    && j < |steps| && j < |states| && steps[j] == Take(port) && port < |states[j].egress|
    && states[j].egress[port] != [] && states[j].egress[port][0] == d
  }

  /** The outcome of `t` waits at its port after step `m`, or was received since step `k`. */
  ghost predicate Delivered(steps: seq<Step>, states: seq<State>, k: nat, m: nat, t: Txn) {
    exists d :: IsOutcome(t, d) && DeliveredAs(steps, states, k, m, t.port, d)
  }

  ghost predicate DeliveredAs(steps: seq<Step>, states: seq<State>, k: nat, m: nat, port: nat, d: Done) {
    || (m < |states| && port < |states[m].egress| && d in states[m].egress[port])
    || exists j :: k <= j < m && Receives(steps, states, j, port, d)
  }

  ghost predicate Inside(s: State, t: Txn) {
    exists p :: Get(s, p).Some? && SameBody(Get(s, p).value, t)
  }

  /** Where a cycle puts the packet at `p`, unless it leaves. */
  function Destination(s: State, p: Place): Place
    requires Shape(s)
  {
    match p
    case Queued(g, k) =>
      if g < N_PORT_GROUPS && Refills(s, g) then (if k == 0 then Parsed(g) else Queued(g, k - 1)) else p
    case Parsed(g) => if g < N_PORT_GROUPS && Refills(s, g) then Stage(0) else p
    case Recirc => Stage(0)
    case Stage(i) => if i + 1 < N_STAGES then Stage(i + 1) else Recirc
  }

  ghost predicate AtItsPort(s: State, t: Txn, d: Done) {
    IsOutcome(t, d) && t.port < |s.egress| && d in s.egress[t.port]
  }

  /** What leaves the pipe for good is put into the egress queue of its port with all its passes run. */
  lemma ExitDelivers(s: State, t: Txn)
    requires WholePipe.Inv(s) && s.pipe[N_STAGES - 1] == Some(t) && Leaves(Finished(t))
    ensures AtItsPort(Cycle(s), t, Done(|t.passes| == Finished(t).passCt, Finished(t)))
  {
    assert Get(s, Stage(N_STAGES - 1)) == Some(t) && TxnOk(s, t);
    WholePipe.CycleKeepsInv(s);
    var q := Cycle(s).egress[t.port];
    assert q[|q| - 1] == Done(|t.passes| == Finished(t).passCt, Finished(t));
    assert WholePipe.Completed(q[|q| - 1]);
  }

  /** A cycle keeps every other packet. */
  lemma OthersStay(s: State, p: Place)
    requires SwitchPlaces.Inv(s) && Get(s, p).Some?
    requires !(p == Stage(N_STAGES - 1) && Leaves(Finished(Get(s, p).value)))
    ensures Inside(Cycle(s), Get(s, p).value)
  {
    var q := Destination(s, p);
    assert Origin(s, q) == p && Get(Cycle(s), q).Some?;
    Transport(s, q);
    MovedSameBody(s, q, Get(s, p).value);
  }

  lemma StaysInside(host: Host, steps: seq<Step>, states: seq<State>, m: nat, t: Txn) returns (d: Option<Done>)
    requires Draining(host, steps, states, m, m + 1) && Inside(states[m], t)
    ensures Inside(states[m + 1], t) || (d.Some? && AtItsPort(states[m + 1], t, d.value))
  {
    var s := states[m];
    WholePipe.ReachableInv(host, steps, states, m);
    var p :| Get(s, p).Some? && SameBody(Get(s, p).value, t);
    var x := Get(s, p).value;
    d := None;
    if steps[m].Take? {
      assert Get(states[m + 1], p) == Get(s, p);
    } else if p == Stage(N_STAGES - 1) && Leaves(Finished(x)) {
      ExitDelivers(s, x);
      d := Some(Done(|x.passes| == Finished(x).passCt, Finished(x)));
    } else {
      OthersStay(s, p);
    }
  }

  lemma {:induction false} NothingIsLost(host: Host, steps: seq<Step>, states: seq<State>, k: nat, m: nat, t: Txn)
    requires Draining(host, steps, states, k, m) && Inside(states[k], t)
    ensures Inside(states[m], t) || Delivered(steps, states, k, m, t)
  {
    if k < m {
      NothingIsLost(host, steps, states, k, m - 1, t);
      if Inside(states[m - 1], t) {
        var d := StaysInside(host, steps, states, m - 1, t);
        assert Inside(states[m], t) || DeliveredAs(steps, states, k, m, t.port, d.value);
      } else {
        var d :| IsOutcome(t, d) && DeliveredAs(steps, states, k, m - 1, t.port, d);
        StaysDelivered(host, steps, states, k, m, t.port, d);
      }
    }
  }

  lemma StaysDelivered(host: Host, steps: seq<Step>, states: seq<State>, k: nat, m: nat, port: nat, d: Done)
    requires Draining(host, steps, states, k, m) && k < m && DeliveredAs(steps, states, k, m - 1, port, d)
    ensures DeliveredAs(steps, states, k, m, port, d)
  {
    var s, s' := states[m - 1], states[m];
    if j :| k <= j < m - 1 && Receives(steps, states, j, port, d) {
    } else if steps[m - 1].Take? {
      var q := s.egress[port];
      var i :| 0 <= i < |q| && q[i] == d;
      if steps[m - 1].port == port {
        assert i == 0 ==> Receives(steps, states, m - 1, port, d);
        assert i > 0 ==> q[1..][i - 1] == d;
      }
    }
  }

  /**
    With no further sends the switch is empty after N_STAGES + 2 cycles per pass that was left, and
    every transaction that was in it has run all its passes and waits at its port or was received.
   */
  lemma DrainsCompletely(host: Host, steps: seq<Step>, states: seq<State>, k: nat, m: nat)
    requires Draining(host, steps, states, k, m) && Shape(states[k])
    requires Ticks(steps, k, m) >= Remaining(states[k]) * (N_STAGES + 2)
    ensures forall p :: Get(states[m], p).None?
    ensures forall p :: Get(states[k], p).Some? ==> Delivered(steps, states, k, m, Get(states[k], p).value)
  {
    TicksUseUp(host, steps, states, k, m);
    WholePipe.ReachableInv(host, steps, states, m);
    forall p
      ensures Get(states[m], p).None?
    {
      NoWorkNoPackets(states[m], p);
    }
    forall p | Get(states[k], p).Some?
      ensures Delivered(steps, states, k, m, Get(states[k], p).value)
    {
      NothingIsLost(host, steps, states, k, m, Get(states[k], p).value);
    }
  }
}
