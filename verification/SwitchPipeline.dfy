/**
  The pipelined switch refines an atomic one. A packet performs its operations stage by stage
  while other packets are in front of and behind it, yet every register cell sees the valid
  passes in the order in which they entered stage 0.
 */
module SwitchPipeline {
  import opened SwitchModel
  import SwitchPlaces

  function NewEntries(t: Option<Txn>): seq<Entry> {
    if Live(t) then [EntryOf(t.value)] else []
  }

  /** The valid passes in the first `n` stages, oldest first. */
  function InFlight(pipe: seq<Option<Txn>>, n: nat): seq<Entry>
    requires n <= |pipe|
  {
    if n == 0 then []
    else NewEntries(pipe[n - 1]) + InFlight(pipe, n - 1)
  }

  // ---------------------------------------------------------------- the atomic reference

  /** Who touched a cell last when each pass of `log` runs atomically, in order. */
  function LastToucher(log: seq<Entry>, c: Cell): TxnId {
    if log == [] then START_TXN_ID
    else if Touches(log[|log| - 1].grid, c) then log[|log| - 1].id
    else LastToucher(log[..|log| - 1], c)
  }

  /** The dependency that the `k`-th pass reports for cell `c` when passes run atomically. */
  predicate Reports(log: seq<Entry>, k: nat, c: Cell, d: Dep) {
    k < |log| && Touches(log[k].grid, c) && d == Dep(log[k].id, LastToucher(log[..k], c))
  }

  ghost predicate AtomicDep(log: seq<Entry>, d: Dep) {
    exists k, c :: Reports(log, k, c, d)
  }

  // ---------------------------------------------------------------- invariants

  predicate IsTail(xs: seq<Entry>, log: seq<Entry>) {
    |xs| <= |log| && log[|log| - |xs|..] == xs
  }

  lemma TailOfTail(xs: seq<Entry>, ys: seq<Entry>, log: seq<Entry>)
    requires IsTail(xs, ys) && IsTail(ys, log)
    ensures IsTail(xs, log)
  {
  }

  ghost predicate PipeInv(s: State) {
    && Shape(s)
    && IsTail(InFlight(s.pipe, |s.pipe|), s.entered)
  }

  /** How many valid passes stage `i` has already served. */
  function Served(s: State, i: nat): int
    requires i < |s.pipe|
  {
    |s.entered| - |InFlight(s.pipe, i + 1)|
  }

  lemma {:induction false} InFlightSuffix(pipe: seq<Option<Txn>>, m: nat, n: nat)
    requires m <= n <= |pipe|
    ensures IsTail(InFlight(pipe, m), InFlight(pipe, n))
  {
    if m < n {
      InFlightSuffix(pipe, m, n - 1);
    }
  }

  /** The passes in the first `n` stages are the last ones that entered. */
  lemma InFlightIsTail(s: State, n: nat)
    requires PipeInv(s) && n <= N_STAGES
    ensures IsTail(InFlight(s.pipe, n), s.entered)
  {
    InFlightSuffix(s.pipe, n, |s.pipe|);
    TailOfTail(InFlight(s.pipe, n), InFlight(s.pipe, |s.pipe|), s.entered);
  }

  /** Stage `i` is about to serve exactly the next valid pass. */
  lemma NextServed(s: State, i: nat)
    requires PipeInv(s) && i < N_STAGES
    ensures 0 <= Served(s, i)
    ensures Live(s.pipe[i]) ==> Served(s, i) < |s.entered| && s.entered[Served(s, i)] == EntryOf(s.pipe[i].value)
  {
    InFlightIsTail(s, i + 1);
  }

  ghost predicate RegInv(s: State)
    requires PipeInv(s)
  {
    forall c: Cell :: c.r.stage < N_STAGES ==>
      (NextServed(s, c.r.stage); LastTxn(s.last, c) == LastToucher(s.entered[..Served(s, c.r.stage)], c))
  }

  ghost predicate DepInv(s: State)
    requires PipeInv(s)
  {
    forall d :: d in s.deps <==>
      exists k: nat, c: Cell :: c.r.stage < N_STAGES && k < Served(s, c.r.stage) && Reports(s.entered, k, c, d)
  }

  // ---------------------------------------------------------------- one cycle

  lemma {:induction false} InFlightShift(t: Option<Txn>, pipe: seq<Option<Txn>>, n: nat)
    requires n < |pipe|
    ensures InFlight([t] + pipe[..|pipe| - 1], n + 1) ==
      InFlight(pipe, n) + NewEntries(t)
  {
    var pipe' := [t] + pipe[..|pipe| - 1];
    if n == 0 {
      assert InFlight(pipe', 0) == [];
    } else {
      InFlightShift(t, pipe, n - 1);
      var older := NewEntries(pipe[n - 1]);
      assert InFlight(pipe', n + 1) == older + InFlight(pipe', n);
      assert older + (InFlight(pipe, n - 1) + NewEntries(t)) == (older + InFlight(pipe, n - 1)) + NewEntries(t);
    }
  }

  lemma CycleHistory(s: State)
    requires SwitchPlaces.Inv(s)
    ensures Cycle(s).entered == s.entered + NewEntries(Admitted(s))
    ensures Cycle(s).pipe == [Admitted(s)] + s.pipe[..|s.pipe| - 1]
  {
    if Admitted(s).Some? {
      SwitchPlaces.CycleTxnOk(s, SwitchPlaces.Stage(0));
    }
  }

  lemma CycleServed(s: State, i: nat)
    requires SwitchPlaces.Inv(s) && i < N_STAGES
    ensures Served(Cycle(s), i) == Served(s, i) + if Live(s.pipe[i]) then 1 else 0
  {
    CycleHistory(s);
    InFlightShift(Admitted(s), s.pipe, i);
  }

  lemma TailAppend(xs: seq<Entry>, log: seq<Entry>, ys: seq<Entry>)
    requires IsTail(xs, log)
    ensures IsTail(xs + ys, log + ys)
  {
  }

  lemma CycleKeepsPipeInv(s: State)
    requires SwitchPlaces.Inv(s) && PipeInv(s)
    ensures PipeInv(Cycle(s))
  {
    SwitchPlaces.CycleKeepsInv(s);
    CycleHistory(s);
    InFlightShift(Admitted(s), s.pipe, |s.pipe| - 1);
    InFlightIsTail(s, |s.pipe| - 1);
    TailAppend(InFlight(s.pipe, |s.pipe| - 1), s.entered, NewEntries(Admitted(s)));
  }

  lemma LastToucherAppend(log: seq<Entry>, k: nat, c: Cell)
    requires k < |log|
    ensures LastToucher(log[..k + 1], c) == if Touches(log[k].grid, c) then log[k].id else LastToucher(log[..k], c)
  {
    assert log[..k + 1][..k] == log[..k];
  }

  lemma ExecutesEntry(s: State, c: Cell)
    requires SwitchPlaces.Inv(s) && c.r.stage < N_STAGES
    ensures var p := s.pipe[c.r.stage];
      Executes(s.pipe, c.r.stage, c) <==> Live(p) && Touches(EntryOf(p.value).grid, c)
  {
    if Live(s.pipe[c.r.stage]) {
      assert SwitchPlaces.TxnOk(s, SwitchPlaces.Get(s, SwitchPlaces.Stage(c.r.stage)).value);
    }
  }

  lemma CycleLast(s: State, c: Cell)
    requires SwitchPlaces.Inv(s) && PipeInv(s) && RegInv(s) && c.r.stage < N_STAGES
    ensures 0 <= Served(Cycle(s), c.r.stage) <= |Cycle(s).entered|
    ensures LastTxn(Cycle(s).last, c) == LastToucher(Cycle(s).entered[..Served(Cycle(s), c.r.stage)], c)
  {
    var i := c.r.stage;
    CycleHistory(s);
    CycleServed(s, i);
    NextServed(s, i);
    ExecutesEntry(s, c);
    assert Cycle(s).entered[..Served(Cycle(s), i)] == s.entered[..Served(Cycle(s), i)];
    if Live(s.pipe[i]) {
      LastToucherAppend(s.entered, Served(s, i), c);
    }
  }

  lemma ReportsAppend(log: seq<Entry>, es: seq<Entry>, k: nat, c: Cell, d: Dep)
    requires k < |log|
    ensures Reports(log, k, c, d) <==> Reports(log + es, k, c, d)
  {
    assert (log + es)[..k] == log[..k];
  }

  /** The dependencies that a cycle adds are those of the passes it serves. */
  lemma CycleNewDeps(s: State, d: Dep)
    requires SwitchPlaces.Inv(s) && PipeInv(s) && RegInv(s)
    ensures NewDep(Regs(s.last, s.deps), s.pipe, 0, d) <==>
      exists c: Cell :: c.r.stage < N_STAGES && Live(s.pipe[c.r.stage]) &&
        0 <= Served(s, c.r.stage) && Reports(s.entered, Served(s, c.r.stage), c, d)
  {
    forall c: Cell | c.r.stage < N_STAGES && Live(s.pipe[c.r.stage])
      ensures 0 <= Served(s, c.r.stage)
      ensures Reports(s.entered, Served(s, c.r.stage), c, d) <==>
        Executes(s.pipe, c.r.stage, c) && d == Dep(s.pipe[c.r.stage].value.id, LastTxn(s.last, c))
    {
      NextServed(s, c.r.stage);
      ExecutesEntry(s, c);
    }
  }

  lemma CycleKeepsDepInv(s: State, d: Dep)
    requires SwitchPlaces.Inv(s) && PipeInv(s) && RegInv(s) && DepInv(s)
    ensures d in Cycle(s).deps <==> exists k: nat, c: Cell ::
      c.r.stage < N_STAGES && k < Served(Cycle(s), c.r.stage) && Reports(Cycle(s).entered, k, c, d)
  {
    var s' := Cycle(s);
    CycleHistory(s);
    CycleNewDeps(s, d);
    forall c: Cell, k: nat | c.r.stage < N_STAGES
      ensures k < Served(s', c.r.stage) && Reports(s'.entered, k, c, d) <==>
        (k < Served(s, c.r.stage) && Reports(s.entered, k, c, d)) ||
        (Live(s.pipe[c.r.stage]) && k == Served(s, c.r.stage) && Reports(s.entered, k, c, d))
    {
      CycleServed(s, c.r.stage);
      NextServed(s, c.r.stage);
      if k < |s.entered| {
        ReportsAppend(s.entered, NewEntries(Admitted(s)), k, c, d);
      }
    }
  }

  // ---------------------------------------------------------------- every run

  ghost predicate Inv(s: State) {
    SwitchPlaces.Inv(s) && PipeInv(s) && RegInv(s) && DepInv(s)
  }

  lemma NextKeepsInv(host: Host, s: State, step: Step)
    requires Inv(s) && Enabled(host, s, step)
    ensures Inv(Next(host, s, step))
  {
    SwitchPlaces.NextKeepsInv(host, s, step);
    if step.Tick? {
      CycleKeepsPipeInv(s);
      forall c: Cell | c.r.stage < N_STAGES
        ensures 0 <= Served(Cycle(s), c.r.stage) <= |Cycle(s).entered|
        ensures LastTxn(Cycle(s).last, c) == LastToucher(Cycle(s).entered[..Served(Cycle(s), c.r.stage)], c)
      {
        CycleLast(s, c);
      }
      forall d
        ensures d in Cycle(s).deps <==> exists k: nat, c: Cell ::
          c.r.stage < N_STAGES && k < Served(Cycle(s), c.r.stage) && Reports(Cycle(s).entered, k, c, d)
      {
        CycleKeepsDepInv(s, d);
      }
    }
  }

  lemma {:induction false} InFlightOfIdle(pipe: seq<Option<Txn>>, n: nat)
    requires n <= |pipe| && forall i :: 0 <= i < |pipe| ==> !Live(pipe[i])
    ensures InFlight(pipe, n) == []
  {
    if n != 0 {
      InFlightOfIdle(pipe, n - 1);
    }
  }

  lemma InitInv(lock: Lock)
    ensures Inv(Init(lock))
  {
    var s := Init(lock);
    assert forall p :: SwitchPlaces.Get(s, p).None?;
    forall n | 0 <= n <= |s.pipe|
      ensures InFlight(s.pipe, n) == []
    {
      InFlightOfIdle(s.pipe, n);
    }
  }

  lemma {:induction false} ReachableInv(host: Host, lock: Lock, steps: seq<Step>, states: seq<State>, k: nat)
    requires IsRun(host, lock, steps, states) && k < |states|
    ensures Inv(states[k])
  {
    if k == 0 {
      InitInv(lock);
    } else {
      ReachableInv(host, lock, steps, states, k - 1);
      NextKeepsInv(host, states[k - 1], steps[k - 1]);
    }
  }

  /**
    In every reachable state the registers of stage `i` and the dependencies reported from there
    are those of an atomic switch that has run exactly the first `Served(s, i)` valid passes, in
    the order in which they entered stage 0; the passes it has not run yet are in stages 0 to `i`.
   */
  lemma PipelineRefinesAtomic(host: Host, lock: Lock, steps: seq<Step>, states: seq<State>, k: nat)
    requires IsRun(host, lock, steps, states) && k < |states|
    ensures var s := states[k];
      && Shape(s)
      && (forall i :: 0 <= i < N_STAGES ==>
            0 <= Served(s, i) <= |s.entered| && s.entered[Served(s, i)..] == InFlight(s.pipe, i + 1))
      && (forall c: Cell :: c.r.stage < N_STAGES ==>
            LastTxn(s.last, c) == LastToucher(s.entered[..Served(s, c.r.stage)], c))
      && (forall d :: d in s.deps <==> exists j: nat, c: Cell ::
            c.r.stage < N_STAGES && j < Served(s, c.r.stage) && Reports(s.entered, j, c, d))
  {
    ReachableInv(host, lock, steps, states, k);
    var s := states[k];
    forall i | 0 <= i < N_STAGES
      ensures 0 <= Served(s, i) <= |s.entered| && s.entered[Served(s, i)..] == InFlight(s.pipe, i + 1)
    {
      InFlightIsTail(s, i + 1);
    }
  }

  /** Once the pipe holds no valid pass, pipelined and atomic execution cannot be told apart. */
  lemma DrainedPipeIsAtomic(host: Host, lock: Lock, steps: seq<Step>, states: seq<State>, k: nat)
    requires IsRun(host, lock, steps, states) && k < |states|
    requires forall i :: 0 <= i < |states[k].pipe| ==> !Live(states[k].pipe[i])
    ensures var s := states[k];
      && (forall c: Cell :: c.r.stage < N_STAGES ==> LastTxn(s.last, c) == LastToucher(s.entered, c))
      && (forall d :: d in s.deps <==> AtomicDep(s.entered, d))
  {
    ReachableInv(host, lock, steps, states, k);
    var s := states[k];
    forall i | 0 <= i < N_STAGES
      ensures Served(s, i) == |s.entered|
    {
      InFlightOfIdle(s.pipe, i + 1);
    }
    assert s.entered[..|s.entered|] == s.entered;
    forall d | AtomicDep(s.entered, d)
      ensures d in s.deps
    {
      var j: nat, c :| Reports(s.entered, j, c, d);
      assert SwitchPlaces.EntryOk(s, s.entered[j]);
      assert c.r.stage < N_STAGES && j < Served(s, c.r.stage);
    }
  }
}
