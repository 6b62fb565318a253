/**
  The lock manager in force, `whole_pipe_lock`: a transaction with several passes keeps everybody
  else out from its first valid pass to its last. The valid passes of one transaction therefore
  enter stage 0 without interruption, and the switch drains.
 */
module WholePipe {
  import opened SwitchModel
  import opened SwitchPlaces

  // ---------------------------------------------------------------- serial histories

  predicate IsFinal(e: Entry) {
    e.pass + 1 == e.of
  }

  predicate Follows(e: Entry, f: Entry) {
    f.id == e.id && f.of == e.of && f.pass == e.pass + 1
  }

  predicate Continues(log: seq<Entry>, k: nat)
    requires k < |log|
  {
    if k == 0 || IsFinal(log[k - 1]) then log[k].pass == 0 else Follows(log[k - 1], log[k])
  }

  /** A history made of whole transactions, one after the other; only the last may be unfinished. */
  ghost predicate IsSerial(log: seq<Entry>) {
    && (forall k :: 0 <= k < |log| ==> Continues(log, k))
    && (forall j, k :: 0 <= j < k < |log| && log[j].pass == 0 && log[k].pass == 0 ==> log[j].id != log[k].id)
  }

  lemma {:induction false} StartOf(log: seq<Entry>, k: nat) returns (j: nat)
    requires IsSerial(log) && k < |log|
    ensures j <= k && log[j].id == log[k].id && log[j].pass == 0
  {
    assert Continues(log, k);
    if log[k].pass == 0 {
      j := k;
    } else {
      j := StartOf(log, k - 1);
    }
  }

  /** In a serial history nothing comes between two passes of one transaction. */
  lemma {:induction false} SerialIsContiguous(log: seq<Entry>, i: nat, j: nat, k: nat)
    requires IsSerial(log) && i <= j <= k < |log| && log[i].id == log[k].id
    ensures log[j].id == log[i].id
    decreases k - j
  {
    if j < k {
      var a := StartOf(log, i);
      assert log[k].pass != 0 && Continues(log, k);
      SerialIsContiguous(log, i, j, k - 1);
    }
  }

  // ---------------------------------------------------------------- the invariant

  predicate IsHolder(s: State, id: TxnId)
    requires s.lock.WholePipe?
  {
    s.lock.holder == Some(id)
  }

  /** A packet that does not hold the pipe: finishing its last pass, or never admitted so far. */
  predicate Quiet(s: State, p: Place, t: Txn) {
    match p
    case Stage(i) => if t.valid then t.passCt + 1 == |t.passes| else t.passCt == 0 && !HasEntered(s, t.id)
    case _ => t.passCt == 0 && !HasEntered(s, t.id)
  }

  /** The packet that holds the pipe is between its first and its last pass, and was the last to enter. */
  predicate Holding(s: State, p: Place, t: Txn) {
    && (p.Recirc? || (p.Stage? && t.valid && t.passCt + 1 < |t.passes|))
    && (p.Recirc? ==> t.passCt > 0)
    && |s.entered| > 0
    && var e := s.entered[|s.entered| - 1];
       e.id == t.id && e.of == |t.passes| && e.pass == if p.Recirc? then t.passCt - 1 else t.passCt
  }

  ghost predicate PacketsInv(s: State)
    requires s.lock.WholePipe?
  {
    forall p :: Get(s, p).Some? ==> var t := Get(s, p).value;
      t.failCt == 0 && if IsHolder(s, t.id) then Holding(s, p, t) else Quiet(s, p, t)
  }

  /** A packet that was turned away has the releasing packet behind it, once the pipe is free again. */
  ghost predicate ReleasedBehind(s: State) {
    forall i :: 0 <= i < |s.pipe| && s.pipe[i].Some? && !s.pipe[i].value.valid ==>
      exists j :: 0 <= j < i && Live(s.pipe[j])
  }

  ghost predicate HolderInv(s: State)
    requires s.lock.WholePipe?
  {
    match s.lock.holder
    case None => (s.entered == [] || IsFinal(s.entered[|s.entered| - 1])) && ReleasedBehind(s)
    case Some(h) => exists p :: Get(s, p).Some? && Get(s, p).value.id == h
  }

  predicate Completed(d: Done) {
    d.ok && d.txn.passCt == |d.txn.passes|
  }

  /** Nobody gives up under this lock manager: what leaves has run all its passes. */
  ghost predicate EgressInv(s: State) {
    forall port, k :: 0 <= port < |s.egress| && 0 <= k < |s.egress[port]| ==> Completed(s.egress[port][k])
  }

  ghost predicate Inv(s: State) {
    && SwitchPlaces.Inv(s)
    && s.lock.WholePipe?
    && PacketsInv(s)
    && HolderInv(s)
    && IsSerial(s.entered)
    && EgressInv(s)
  }

  // ---------------------------------------------------------------- preservation

  /** What can ask for admission: the holder for its next pass, or somebody never admitted. */
  lemma EnteringFacts(s: State)
    requires Inv(s) && Entering(s).Some?
    ensures var t := Entering(s).value;
      && Get(s, Origin(s, Stage(0))) == Some(t)
      && t.failCt == 0 && t.passCt < |t.passes|
      && (if IsHolder(s, t.id) then Holding(s, Recirc, t) else t.passCt == 0 && !HasEntered(s, t.id))
  {
    var p := Origin(s, Stage(0));
    assert Get(s, p) == Entering(s);
    assert TxnOk(s, Entering(s).value);
  }

  lemma SerialAppend(log: seq<Entry>, e: Entry)
    requires IsSerial(log) && e.pass < e.of
    requires if log == [] || IsFinal(log[|log| - 1])
             then e.pass == 0 && forall k :: 0 <= k < |log| ==> log[k].id != e.id
             else Follows(log[|log| - 1], e)
    ensures IsSerial(log + [e])
  {
    assert forall k :: 0 <= k < |log| ==> Continues(log, k) ==> Continues(log + [e], k);
  }

  lemma CycleKeepsSerial(s: State)
    requires Inv(s)
    ensures IsSerial(Cycle(s).entered)
  {
    if Entering(s).Some? {
      EnteringFacts(s);
      var t := Entering(s).value;
      if Admitted(s).value.valid {
        SerialAppend(s.entered, EntryOf(Admitted(s).value));
      }
    }
  }

  /** The cycle changes the holder only for the packet it admits. */
  lemma OthersUnaffected(s: State, id: TxnId)
    requires Shape(s) && s.lock.WholePipe? && (Entering(s).Some? ==> Entering(s).value.id != id)
    ensures Cycle(s).lock.WholePipe?
    ensures IsHolder(Cycle(s), id) <==> IsHolder(s, id)
    ensures IsHolder(s, id) ==> Cycle(s).entered == s.entered
  {
  }

  lemma AdmittedInv(s: State)
    requires Inv(s) && Entering(s).Some?
    ensures var s', t := Cycle(s), Admitted(s).value;
      t.failCt == 0 && if IsHolder(s', t.id) then Holding(s', Stage(0), t) else Quiet(s', Stage(0), t)
  {
    EnteringFacts(s);
  }

  lemma CycleKeepsPacket(s: State, p: Place)
    requires Inv(s) && Get(Cycle(s), p).Some?
    ensures var s', t := Cycle(s), Get(Cycle(s), p).value;
      t.failCt == 0 && if IsHolder(s', t.id) then Holding(s', p, t) else Quiet(s', p, t)
  {
    if p == Stage(0) {
      AdmittedInv(s);
    } else {
      Transport(s, p);
      var t := Get(s, Origin(s, p)).value;
      assert TxnOk(s, t);
      OthersDiffer(s, p);
      OthersUnaffected(s, t.id);
      OthersHistory(s, t.id);
    }
  }

  lemma CycleKeepsHolder(s: State)
    requires Inv(s)
    ensures Cycle(s).lock.holder.Some? ==>
      exists p :: Get(Cycle(s), p).Some? && Get(Cycle(s), p).value.id == Cycle(s).lock.holder.value
  {
    var s' := Cycle(s);
    if s'.lock.holder.Some? {
      if Entering(s).Some? && s'.lock.holder == Some(Entering(s).value.id) {
        assert Get(s', Stage(0)).Some? && Get(s', Stage(0)).value.id == Entering(s).value.id;
      } else {
        var p :| Get(s, p).Some? && Get(s, p).value.id == s.lock.holder.value;
        var t := Get(s, p).value;
        assert Holding(s, p, t);
        var q := if p.i == N_STAGES - 1 then Recirc else Stage(p.i + 1);
        assert Get(s', q).Some? && Get(s', q).value.id == t.id;
      }
    }
  }

  lemma CycleKeepsReleased(s: State)
    requires Inv(s) && Cycle(s).lock.holder.None?
    ensures var s' := Cycle(s);
      (s'.entered == [] || IsFinal(s'.entered[|s'.entered| - 1])) && ReleasedBehind(s')
  {
    var s' := Cycle(s);
    if Entering(s).Some? {
      EnteringFacts(s);
    }
    forall i | 0 <= i < |s'.pipe| && s'.pipe[i].Some? && !s'.pipe[i].value.valid
      ensures exists j :: 0 <= j < i && Live(s'.pipe[j])
    {
      if s.lock.holder.None? {
        assert s.pipe[i - 1] == s'.pipe[i];
        var j :| 0 <= j < i - 1 && Live(s.pipe[j]);
        assert Live(s'.pipe[j + 1]);
      } else {
        assert Live(s'.pipe[0]);
      }
    }
  }

  lemma CycleKeepsEgress(s: State)
    requires Inv(s)
    ensures EgressInv(Cycle(s))
  {
    var out := s.pipe[N_STAGES - 1];
    if out.Some? {
      assert Get(s, Stage(N_STAGES - 1)) == out;
      assert !GivesUp(Finished(out.value));
    }
  }

  lemma CycleKeepsInv(s: State)
    requires Inv(s)
    ensures Inv(Cycle(s))
  {
    var s' := Cycle(s);
    SwitchPlaces.CycleKeepsInv(s);
    CycleKeepsSerial(s);
    CycleKeepsEgress(s);
    CycleKeepsHolder(s);
    if s'.lock.holder.None? {
      CycleKeepsReleased(s);
    }
    forall p | Get(s', p).Some?
      ensures var t := Get(s', p).value;
        t.failCt == 0 && if IsHolder(s', t.id) then Holding(s', p, t) else Quiet(s', p, t)
    {
      CycleKeepsPacket(s, p);
    }
  }

  lemma SendKeepsInv(s: State, t: Txn)
    requires Inv(s) && Sendable(t)
    ensures Inv(Send(s, t))
  {
    var s' := Send(s, t);
    SwitchPlaces.SendKeepsInv(s, t);
    assert !IsHolder(s, s.nextId);
    forall p | Get(s', p).Some?
      ensures var t := Get(s', p).value;
        t.failCt == 0 && if IsHolder(s', t.id) then Holding(s', p, t) else Quiet(s', p, t)
    {
      SendPlaces(s, t, p);
      assert SwitchPlaces.Inv(s');
    }
    if s.lock.holder.Some? {
      var p :| Get(s, p).Some? && Get(s, p).value.id == s.lock.holder.value;
      assert Get(s', p) == Get(s, p);
    }
  }

  lemma RecvKeepsInv(s: State, port: nat)
    requires Inv(s) && port < N_PORTS
    ensures Inv(Recv(s, port))
  {
    var s' := Recv(s, port);
    assert forall p :: Get(s', p) == Get(s, p);
  }

  lemma {:induction false} ReachableInv(host: Host, steps: seq<Step>, states: seq<State>, k: nat)
    requires IsRun(host, SwitchModel.WholePipe(None), steps, states) && k < |states|
    ensures Inv(states[k])
  {
    if k == 0 {
      assert forall p :: Get(states[0], p).None?;
    } else {
      ReachableInv(host, steps, states, k - 1);
      match steps[k - 1]
      case Offer(t) => SendKeepsInv(states[k - 1], t);
      case Tick => CycleKeepsInv(states[k - 1]);
      case Take(port) => RecvKeepsInv(states[k - 1], port);
    }
  }

  /** In every run the valid passes of one transaction enter stage 0 one right after the other, in order. */
  lemma ValidPassesAreContiguous(host: Host, steps: seq<Step>, states: seq<State>, k: nat)
    requires IsRun(host, SwitchModel.WholePipe(None), steps, states) && k < |states|
    ensures var log := states[k].entered;
      && IsSerial(log)
      && forall a, b, c :: 0 <= a <= b <= c < |log| && log[a].id == log[c].id ==> log[b].id == log[a].id
  {
    ReachableInv(host, steps, states, k);
    var log := states[k].entered;
    forall a, b, c | 0 <= a <= b <= c < |log| && log[a].id == log[c].id
      ensures log[b].id == log[a].id
    {
      SerialIsContiguous(log, a, b, c);
    }
  }
}
