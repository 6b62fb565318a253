/**
  A tenant of two nodes with the barrier between them. In `Tenancy` a node asks for its next block only
  when all nodes of its tenant have come to the end of the hot period. Here it asks as soon as it is past
  its own last barrier, and that turns out to be the same.
 */
module TwoNodes {
  import BA = BlockAllocator
  import opened ControlPlane
  import opened Tenancy
  import HotPeriod
  import NB = NodeBarrier

  /** What one node does before a hot period, the queue it sends in it, and what it does after. */
  datatype Period = Period(before: seq<HotPeriod.Event>, q: seq<nat>, after: seq<HotPeriod.Event>)

  /** The hot period of one batch, between two mini-batches, as the two nodes see it. */
  datatype Batch = Batch(past: nat, current: nat, nodes: seq<Period>)

  /** The two nodes, what they do, and their hot periods, from that of batch 1 on. */
  datatype Pair = Pair(fds: seq<Fd>, ps: NB.Programs, batches: seq<Batch>)

  predicate PeriodOk(program: seq<HotPeriod.Event>, p: Period, past: nat, current: nat) {
    HotPeriod.QueueOk(p.q, past, current) && program == NB.WithPeriod(p.before, p.q, past, current, p.after)
  }

  /** Both nodes come to the period after the same number of barriers. */
  predicate BatchOk(ps: NB.Programs, b: Batch) {
    && |b.nodes| == 2 && PeriodOk(ps[0], b.nodes[0], b.past, b.current)
    && PeriodOk(ps[1], b.nodes[1], b.past, b.current)
    && HotPeriod.Level(b.nodes[0].before, |b.nodes[0].before|) ==
       HotPeriod.Level(b.nodes[1].before, |b.nodes[1].before|)
  }

  /** Where node `n` has the last barrier of a batch's hot period. */
  function End(b: Batch, n: nat): nat
    requires n < |b.nodes|
  {
    NB.PeriodEnd(b.nodes[n].before, b.nodes[n].q, b.past, b.current)
  }

  ghost predicate BatchesOk(pair: Pair) {
    && (forall b :: 0 <= b < |pair.batches| ==> BatchOk(pair.ps, pair.batches[b]))
    && (forall b: nat, c: nat :: b < c < |pair.batches| ==> Follows(pair.batches, b, c))
  }

  /** The hot period of one batch ends before that of the other, on both nodes. */
  predicate Follows(batches: seq<Batch>, b: nat, c: nat) {
    && b < |batches| && c < |batches| && |batches[b].nodes| == 2 == |batches[c].nodes|
    && End(batches[b], 0) < End(batches[c], 0) && End(batches[b], 1) < End(batches[c], 1)
  }

  /** The two nodes are all of their tenant. */
  ghost predicate PairOk(pair: Pair, tenants: seq<Tenant>) {
    && BatchesOk(pair) && |pair.fds| == 2 && pair.fds[0] != pair.fds[1] && pair.fds[0] < |tenants|
    && pair.fds[1] < |tenants|
    && forall fd :: 0 <= fd < |tenants| ==> (tenants[fd] == tenants[pair.fds[0]] <==> fd in pair.fds)
  }

  // ---------------------------------------------------------------- steps

  datatype Joint = Joint(w: World, s: NB.State)

  /** A step of the barrier, the arrival at the end of a hot period, or an act that is not about the barrier. */
  datatype Event = Barrier(step: NB.Step) | Finish(n: nat) | Other(act: Act)

  /** The batch that node `n` is in has a hot period in the list. */
  predicate HasPeriod(pair: Pair, w: World, n: nat) {
    n < |pair.fds| && pair.fds[n] < |w.cp.nodes| && 0 < w.cp.nodes[pair.fds[n]].batch <= |pair.batches|
  }

  function EndOf(pair: Pair, w: World, n: nat): nat
    requires HasPeriod(pair, w, n) && BatchesOk(pair) && n < 2
  {
    assert BatchOk(pair.ps, pair.batches[w.cp.nodes[pair.fds[n]].batch - 1]);
    End(pair.batches[w.cp.nodes[pair.fds[n]].batch - 1], n)
  }

  predicate ComesToEnd(pair: Pair, s: NB.State, step: NB.Step)
    requires |s| == 2 && step.n < 2
  {
    step.act == NB.Arrive &&
    exists b :: 0 <= b < |pair.batches| && step.n < |pair.batches[b].nodes|
      && s[step.n].pc == End(pair.batches[b], step.n)
  }

  /** A node of the pair asks when it is past the last barrier of its hot period, which is all it knows. */
  ghost predicate MayAsk(waits: bool, pair: Pair, w: World, s: NB.State, n: nat)
    requires BatchesOk(pair) && n < 2 == |pair.fds| == |s| && pair.fds[n] < |w.cp.nodes|
  {
    var x := w.cp.nodes[pair.fds[n]];
    && (x.batch > 0 ==> HasPeriod(pair, w, n) && s[n].pc > EndOf(pair, w, n))
    && (waits ==> NoneUnderWay(w, x.tenant))
  }

  ghost predicate JointMoves(waits: bool, plans: Plans, pair: Pair, j: Joint, e: Event, j': Joint)
    requires BatchesOk(pair) && |pair.fds| == 2
  {
    && Shape(j.w) && |j.s| == 2 && pair.fds[0] < |j.w.cp.nodes| && pair.fds[1] < |j.w.cp.nodes|
    && match e
       case Barrier(step) =>
         NB.Enabled(pair.ps, j.s, step) && !ComesToEnd(pair, j.s, step) && j' == Joint(j.w, NB.Next(pair.ps, j.s, step))
       case Finish(n) =>
         && n < 2 && HasPeriod(pair, j.w, n) && j.s[n].pc == EndOf(pair, j.w, n)
         && NB.Enabled(pair.ps, j.s, NB.Step(n, NB.Arrive)) && j'.s == NB.Next(pair.ps, j.s, NB.Step(n, NB.Arrive))
         && Moves(waits, plans, j.w, Arrive(pair.fds[n]), j'.w)
       case Other(act) =>
         && j'.s == j.s && (act.Arrive? ==> act.fd !in pair.fds)
         && if act.Control? && act.step.Ask? && act.step.fd in pair.fds then
              && Enabled(j.w.cp, act.step) && j'.w == j.w.(cp := Next(j.w.cp, act.step))
              && forall n :: 0 <= n < 2 && pair.fds[n] == act.step.fd ==> MayAsk(waits, pair, j.w, j.s, n)
            else Moves(waits, plans, j.w, act, j'.w)
  }

  ghost predicate JointAt(waits: bool, plans: Plans, pair: Pair, events: seq<Event>, joints: seq<Joint>, k: nat)
    requires BatchesOk(pair) && |pair.fds| == 2
  {
    k < |events| && k + 1 < |joints| && JointMoves(waits, plans, pair, joints[k], events[k], joints[k + 1])
  }

  ghost predicate IsJointRun(waits: bool, plans: Plans, pair: Pair, tenants: seq<Tenant>, events: seq<Event>,
                             joints: seq<Joint>)
  {
    && PairOk(pair, tenants) && |joints| == |events| + 1 && joints[0] == Joint(Start(tenants), NB.Init)
    && forall k: nat :: k < |events| ==> JointAt(waits, plans, pair, events, joints, k)
  }

  // ---------------------------------------------------------------- the barrier keeps count of arrivals

  /** A node has come to the last barrier of a batch exactly if its arrival there is noted. */
  ghost predicate Linked(pair: Pair, w: World, s: NB.State)
    requires BatchesOk(pair) && |pair.fds| == 2 == |s| && pair.fds[0] < |w.arrived| && pair.fds[1] < |w.arrived|
  {
    forall n: nat, b: nat :: n < 2 && b < |pair.batches| ==> LinkedAt(pair.batches, b, s, n, w.arrived[pair.fds[n]])
  }

  predicate LinkedAt(batches: seq<Batch>, b: nat, s: NB.State, n: nat, arrived: nat) {
    b < |batches| && n < |batches[b].nodes| && n < |s| && (NB.HasCome(s[n], End(batches[b], n)) <==> arrived > b)
  }

  ghost predicate JointInv(pair: Pair, tenants: seq<Tenant>, j: Joint)
    requires PairOk(pair, tenants)
  {
    && Shape(j.w) && |j.w.cp.nodes| == |tenants| && NB.Inv(pair.ps, j.s)
    && (forall fd :: 0 <= fd < |tenants| ==> j.w.cp.nodes[fd].tenant == tenants[fd])
    && Linked(pair, j.w, j.s)
  }

  lemma EndIsBar(ps: NB.Programs, b: Batch, n: nat)
    requires BatchOk(ps, b) && n < 2
    ensures End(b, n) < |ps[n]| && ps[n][End(b, n)] == HotPeriod.Bar
  {
    NB.PeriodEndLevel(b.nodes[n].before, b.nodes[n].q, b.past, b.current, b.nodes[n].after);
  }

  /** A step of the barrier brings its node to no barrier but the one it arrives at. */
  lemma StepComesTo(p: seq<HotPeriod.Event>, x: NB.Node, act: NB.Act, e: nat)
    requires NB.CanAct(p, x, act) && (x.phase != NB.Before ==> NB.AtBar(p, x)) && e < |p| && p[e] == HotPeriod.Bar
    ensures NB.HasCome(NB.Acts(x, act), e) <==> NB.HasCome(x, e) || (act == NB.Arrive && x.pc == e)
  {
  }

  lemma BarrierKeepsLinked(pair: Pair, tenants: seq<Tenant>, j: Joint, step: NB.Step)
    requires PairOk(pair, tenants) && JointInv(pair, tenants, j) && NB.Enabled(pair.ps, j.s, step)
    requires !ComesToEnd(pair, j.s, step)
    ensures Linked(pair, j.w, NB.Next(pair.ps, j.s, step))
  {
    var s' := NB.Next(pair.ps, j.s, step);
    forall n: nat, b: nat | n < 2 && b < |pair.batches|
      ensures LinkedAt(pair.batches, b, s', n, j.w.arrived[pair.fds[n]])
    {
      assert LinkedAt(pair.batches, b, j.s, n, j.w.arrived[pair.fds[n]]);
      EndIsBar(pair.ps, pair.batches[b], n);
      if n == step.n {
        StepComesTo(pair.ps[n], j.s[n], step.act, End(pair.batches[b], n));
      }
    }
  }

  /** The node comes to the last barrier of its batch `c + 1`. */
  lemma FinishLinks(ps: NB.Programs, batches: seq<Batch>, s: NB.State, n: nat, c: nat, b: nat, arrived: nat)
    requires NB.Inv(ps, s) && n < 2 && b < |batches| && c < |batches| && BatchOk(ps, batches[b])
    requires BatchOk(ps, batches[c])
    requires (b < c ==> Follows(batches, b, c)) && (b > c ==> Follows(batches, c, b))
    requires NB.Enabled(ps, s, NB.Step(n, NB.Arrive)) && s[n].pc == End(batches[c], n)
    requires LinkedAt(batches, b, s, n, arrived)
    ensures LinkedAt(batches, b, NB.Next(ps, s, NB.Step(n, NB.Arrive)), n, c + 1)
  {
    EndIsBar(ps, batches[b], n);
    StepComesTo(ps[n], s[n], NB.Arrive, End(batches[b], n));
  }

  lemma OtherStaysLinked(ps: NB.Programs, batches: seq<Batch>, s: NB.State, n: nat, b: nat, arrived: nat)
    requires n < 2 && NB.Enabled(ps, s, NB.Step(n, NB.Arrive)) && LinkedAt(batches, b, s, 1 - n, arrived)
    ensures LinkedAt(batches, b, NB.Next(ps, s, NB.Step(n, NB.Arrive)), 1 - n, arrived)
  {
  }

  /** The state after the arrival of node `n`, as far as the barrier goes. */
  predicate Finished(pair: Pair, w: World, w': World, n: nat)
    requires HasPeriod(pair, w, n)
  {
    pair.fds[n] < |w.arrived| && w'.arrived == w.arrived[pair.fds[n] := w.cp.nodes[pair.fds[n]].batch]
  }

  lemma FinishKeepsLinked(pair: Pair, tenants: seq<Tenant>, j: Joint, w': World, n: nat)
    requires PairOk(pair, tenants) && JointInv(pair, tenants, j) && n < 2 && HasPeriod(pair, j.w, n)
    requires Finished(pair, j.w, w', n)
    requires j.s[n].pc == EndOf(pair, j.w, n) && NB.Enabled(pair.ps, j.s, NB.Step(n, NB.Arrive))
    ensures Linked(pair, w', NB.Next(pair.ps, j.s, NB.Step(n, NB.Arrive)))
  {
    var s', c := NB.Next(pair.ps, j.s, NB.Step(n, NB.Arrive)), j.w.cp.nodes[pair.fds[n]].batch - 1;
    assert w'.arrived[pair.fds[n]] == c + 1 && w'.arrived[pair.fds[1 - n]] == j.w.arrived[pair.fds[1 - n]];
    forall n': nat, b: nat | n' < 2 && b < |pair.batches|
      ensures LinkedAt(pair.batches, b, s', n', w'.arrived[pair.fds[n']])
    {
      assert LinkedAt(pair.batches, b, j.s, n', j.w.arrived[pair.fds[n']]);
      if n' == n {
        FinishLinks(pair.ps, pair.batches, j.s, n, c, b, j.w.arrived[pair.fds[n]]);
      } else {
        OtherStaysLinked(pair.ps, pair.batches, j.s, n, b, j.w.arrived[pair.fds[n']]);
      }
    }
  }

  /** Who is past the last barrier of a hot period knows that the other has come to it. */
  lemma OtherHasCome(ps: NB.Programs, s: NB.State, b: Batch, n: nat)
    requires NB.Inv(ps, s) && n < 2 && BatchOk(ps, b) && s[n].pc > End(b, n)
    ensures NB.HasCome(s[1 - n], End(b, 1 - n))
  {
    var x, y := b.nodes[n], b.nodes[1 - n];
    NB.PeriodHasEnded(ps, s, n, b.past, b.current, x.before, x.q, x.after, y.before, y.q, y.after);
  }

  lemma BothHaveCome(pair: Pair, tenants: seq<Tenant>, j: Joint, n: nat)
    requires PairOk(pair, tenants) && JointInv(pair, tenants, j) && n < 2 && HasPeriod(pair, j.w, n)
    requires j.s[n].pc > EndOf(pair, j.w, n)
    ensures var b := j.w.cp.nodes[pair.fds[n]].batch; j.w.arrived[pair.fds[n]] >= b && j.w.arrived[pair.fds[1 - n]] >= b
  {
    var c := j.w.cp.nodes[pair.fds[n]].batch - 1;
    OtherHasCome(pair.ps, j.s, pair.batches[c], n);
    assert LinkedAt(pair.batches, c, j.s, n, j.w.arrived[pair.fds[n]]);
    assert LinkedAt(pair.batches, c, j.s, 1 - n, j.w.arrived[pair.fds[1 - n]]);
  }

  lemma MayAskIsArrived(waits: bool, pair: Pair, tenants: seq<Tenant>, j: Joint, n: nat)
    requires PairOk(pair, tenants) && JointInv(pair, tenants, j) && n < 2 && MayAsk(waits, pair, j.w, j.s, n)
    ensures AllArrived(j.w, pair.fds[n])
  {
    if j.w.cp.nodes[pair.fds[n]].batch > 0 {
      BothHaveCome(pair, tenants, j, n);
    }
    forall fd | 0 <= fd < |j.w.cp.nodes| && j.w.cp.nodes[fd].tenant == j.w.cp.nodes[pair.fds[n]].tenant
      ensures j.w.arrived[fd] >= j.w.cp.nodes[pair.fds[n]].batch
    {
      assert fd in pair.fds;
    }
  }

  // ---------------------------------------------------------------- every joint run is a history

  /** What the event is for `Tenancy`: nothing, or an act of its own. */
  ghost predicate IsMove(waits: bool, plans: Plans, pair: Pair, j: Joint, e: Event, j': Joint)
    requires |pair.fds| == 2
  {
    match e
    case Barrier(_) => j'.w == j.w
    case Finish(n) => n < 2 && Moves(waits, plans, j.w, Arrive(pair.fds[n]), j'.w)
    case Other(act) => Moves(waits, plans, j.w, act, j'.w)
  }

  lemma JointIsMove(waits: bool, plans: Plans, pair: Pair, tenants: seq<Tenant>, j: Joint, e: Event, j': Joint)
    requires PairOk(pair, tenants) && JointInv(pair, tenants, j) && JointMoves(waits, plans, pair, j, e, j')
    ensures IsMove(waits, plans, pair, j, e, j')
  {
    if e.Other? && e.act.Control? && e.act.step.Ask? && e.act.step.fd in pair.fds {
      var n :| 0 <= n < 2 && pair.fds[n] == e.act.step.fd;
      MayAskIsArrived(waits, pair, tenants, j, n);
    }
  }

  lemma MoveKeepsTenants(waits: bool, plans: Plans, w: World, act: Act, w': World)
    requires Moves(waits, plans, w, act, w')
    ensures Shape(w') && |w'.cp.nodes| == |w.cp.nodes|
    ensures forall fd :: 0 <= fd < |w.cp.nodes| ==> w'.cp.nodes[fd].tenant == w.cp.nodes[fd].tenant
    ensures w'.arrived == if act.Arrive? then w.arrived[act.fd := w.cp.nodes[act.fd].batch] else w.arrived
  {
    if act.Control? {
      StepKeepsNodes(w.cp, act.step);
    }
  }

  lemma JointKeepsInv(waits: bool, plans: Plans, pair: Pair, tenants: seq<Tenant>, j: Joint, e: Event, j': Joint)
    requires PairOk(pair, tenants) && JointInv(pair, tenants, j) && JointMoves(waits, plans, pair, j, e, j')
    ensures JointInv(pair, tenants, j')
  {
    JointIsMove(waits, plans, pair, tenants, j, e, j');
    match e
    case Barrier(step) =>
      NB.NextKeepsInv(pair.ps, j.s, step);
      BarrierKeepsLinked(pair, tenants, j, step);
    case Finish(n) =>
      NB.NextKeepsInv(pair.ps, j.s, NB.Step(n, NB.Arrive));
      MoveKeepsTenants(waits, plans, j.w, Arrive(pair.fds[n]), j'.w);
      FinishKeepsLinked(pair, tenants, j, j'.w, n);
    case Other(act) =>
      MoveKeepsTenants(waits, plans, j.w, act, j'.w);
      SameLinked(pair, j.w, j'.w, j.s);
  }

  lemma SameLinked(pair: Pair, w: World, w': World, s: NB.State)
    requires BatchesOk(pair) && |pair.fds| == 2 == |s| && pair.fds[0] < |w.arrived| == |w'.arrived|
    requires pair.fds[1] < |w.arrived|
    requires w'.arrived[pair.fds[0]] == w.arrived[pair.fds[0]]
    requires w'.arrived[pair.fds[1]] == w.arrived[pair.fds[1]] && Linked(pair, w, s)
    ensures Linked(pair, w', s)
  {
    forall n: nat, b: nat | n < 2 && b < |pair.batches|
      ensures LinkedAt(pair.batches, b, s, n, w'.arrived[pair.fds[n]])
    {
      assert LinkedAt(pair.batches, b, s, n, w.arrived[pair.fds[n]]);
    }
  }

  lemma {:induction false} ReachableJoint(waits: bool, plans: Plans, pair: Pair, tenants: seq<Tenant>,
                                          events: seq<Event>, joints: seq<Joint>, k: nat)
    requires IsJointRun(waits, plans, pair, tenants, events, joints) && k < |joints|
    ensures JointInv(pair, tenants, joints[k])
  {
    if k > 0 {
      ReachableJoint(waits, plans, pair, tenants, events, joints, k - 1);
      assert JointAt(waits, plans, pair, events, joints, k - 1);
      JointKeepsInv(waits, plans, pair, tenants, joints[k - 1], events[k - 1], joints[k]);
    }
  }

  /** The acts of the joint run that change the world. */
  ghost function ActsOf(pair: Pair, events: seq<Event>): seq<Act>
    requires |pair.fds| == 2
  {
    if events == [] then [] else
      var n := |events| - 1;
      ActsOf(pair, events[..n]) +
      match events[n]
      case Barrier(_) => []
      case Finish(i) => if i < 2 then [Arrive(pair.fds[i])] else []
      case Other(act) => [act]
  }

  lemma RunPrefix(waits: bool, plans: Plans, pair: Pair, tenants: seq<Tenant>, events: seq<Event>, joints: seq<Joint>)
    requires IsJointRun(waits, plans, pair, tenants, events, joints) && events != []
    ensures IsJointRun(waits, plans, pair, tenants, events[..|events| - 1], joints[..|events|])
  {
    var events', joints' := events[..|events| - 1], joints[..|events|];
    forall k: nat | k < |events'|
      ensures JointAt(waits, plans, pair, events', joints', k)
    {
      assert JointAt(waits, plans, pair, events, joints, k);
    }
  }

  /**
    Every run in which the two nodes of a tenant ask when they are past their own last barrier is, but for
    the steps of the barrier, a history of `Tenancy`: whenever one of them asks, both have arrived.
   */
  lemma {:induction false} JointRunIsHistory(waits: bool, plans: Plans, pair: Pair, tenants: seq<Tenant>,
                                             events: seq<Event>, joints: seq<Joint>)
    returns (worlds: seq<World>)
    requires IsJointRun(waits, plans, pair, tenants, events, joints)
    requires PlansOk(plans) && forall fd :: 0 <= fd < |tenants| ==> BA.IsTenant(tenants[fd])
    ensures IsHistory(waits, plans, tenants, ActsOf(pair, events), worlds) && worlds[|worlds| - 1] == joints[|events|].w
  {
    if events == [] {
      worlds := [joints[0].w];
    } else {
      var n := |events| - 1;
      RunPrefix(waits, plans, pair, tenants, events, joints);
      worlds := JointRunIsHistory(waits, plans, pair, tenants, events[..n], joints[..n + 1]);
      ReachableJoint(waits, plans, pair, tenants, events, joints, n);
      assert JointAt(waits, plans, pair, events, joints, n);
      JointIsMove(waits, plans, pair, tenants, joints[n], events[n], joints[n + 1]);
      var acts, w' := ActsOf(pair, events[..n]), joints[n + 1].w;
      match events[n]
      case Barrier(_) =>
        assert acts + [] == acts;
      case Finish(i) =>
        Extend(waits, plans, tenants, acts, worlds, Arrive(pair.fds[i]), w');
        worlds := worlds + [w'];
      case Other(act) =>
        Extend(waits, plans, tenants, acts, worlds, act, w');
        worlds := worlds + [w'];
    }
  }
}
