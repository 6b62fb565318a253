/**
  The barrier between the two nodes, and what it gives the hot period: a node that has passed k
  barriers knows that the other has reached its k-th one, so no node sends a mini-batch before the
  other has sent all of the ones before it.
 */
module NodeBarrier {
  import opened HotPeriod

  /** A node at a barrier has not told the other yet, waits to be told, or has seen that it was. */
  datatype Phase = Before | Waiting | Cleared

  /** What one node knows and what is on its way to it. */
  datatype Node = Node(pc: nat, phase: Phase, inFlight: nat, received: nat)

  type State = seq<Node>

  datatype Act = Run | Arrive | Deliver | Clear | Pass

  datatype Step = Step(n: nat, act: Act)

  /** The events the two nodes go through, each in its own order. */
  type Programs = ps: seq<seq<Event>> | |ps| == 2 witness [[], []]

  predicate AtBar(p: seq<Event>, x: Node) {
    x.pc < |p| && p[x.pc] == Bar
  }

  predicate CanAct(p: seq<Event>, x: Node, act: Act) {
    match act
    case Run => x.pc < |p| && p[x.pc].Send?
    case Arrive => AtBar(p, x) && x.phase == Before
    case Deliver => x.inFlight > 0
    case Clear => AtBar(p, x) && x.phase == Waiting && x.received == 1
    case Pass => AtBar(p, x) && x.phase == Cleared && x.received > 0
  }

  /** What the step does to the node that takes it, and to the other one. */
  function Acts(x: Node, act: Act): Node
    requires (act.Deliver? ==> x.inFlight > 0) && (act.Pass? ==> x.received > 0)
  {
    match act
    case Run => x.(pc := x.pc + 1)
    case Arrive => x.(phase := Waiting)
    case Deliver => x.(inFlight := x.inFlight - 1, received := x.received + 1)
    case Clear => x.(phase := Cleared)
    case Pass => x.(pc := x.pc + 1, phase := Before, received := x.received - 1)
  }

  function ActsOnOther(y: Node, act: Act): Node {
    if act.Arrive? then y.(inFlight := y.inFlight + 1) else y
  }

  predicate Enabled(ps: Programs, s: State, step: Step) {
    |s| == 2 && step.n < 2 && CanAct(ps[step.n], s[step.n], step.act)
  }

  function Next(ps: Programs, s: State, step: Step): State
    requires Enabled(ps, s, step)
  {
    var x, y := Acts(s[step.n], step.act), ActsOnOther(s[1 - step.n], step.act);
    if step.n == 0 then [x, y] else [y, x]
  }

  const Init: State := [Node(0, Before, 0, 0), Node(0, Before, 0, 0)]

  ghost predicate IsRun(ps: Programs, steps: seq<Step>, states: seq<State>) {
    && |states| == |steps| + 1 && states[0] == Init
    && forall i :: 0 <= i < |steps| ==>
       Enabled(ps, states[i], steps[i]) && states[i + 1] == Next(ps, states[i], steps[i])
  }

  // ---------------------------------------------------------------- safety

  function Passed(p: seq<Event>, x: Node): nat {
    if x.pc <= |p| then Level(p, x.pc) else 0
  }

  function Reached(p: seq<Event>, x: Node): nat {
    Passed(p, x) + (if x.phase == Before then 0 else 1)
  }

  /** Every barrier the other node has reached was told: still on its way, counted or used up. */
  ghost predicate NodeInv(p: seq<Event>, x: Node, p': seq<Event>, y: Node) {
    && x.pc <= |p| && (x.phase != Before ==> AtBar(p, x))
    && x.inFlight + x.received + Passed(p, x) == Reached(p', y)
    && (x.phase == Cleared ==> x.received > 0)
  }

  ghost predicate Inv(ps: Programs, s: State) {
    |s| == 2 && NodeInv(ps[0], s[0], ps[1], s[1]) && NodeInv(ps[1], s[1], ps[0], s[0])
  }

  lemma LevelNext(p: seq<Event>, i: nat)
    requires i < |p|
    ensures Level(p, i + 1) == Level(p, i) + (if p[i] == Bar then 1 else 0)
  {
  }

  lemma ActKeepsNodes(p: seq<Event>, x: Node, p': seq<Event>, y: Node, act: Act)
    requires NodeInv(p, x, p', y) && NodeInv(p', y, p, x) && CanAct(p, x, act)
    ensures NodeInv(p, Acts(x, act), p', ActsOnOther(y, act)) && NodeInv(p', ActsOnOther(y, act), p, Acts(x, act))
  {
    if act.Run? || act.Pass? {
      LevelNext(p, x.pc);
    }
  }

  lemma NextKeepsInv(ps: Programs, s: State, step: Step)
    requires Inv(ps, s) && Enabled(ps, s, step)
    ensures Inv(ps, Next(ps, s, step))
  {
    ActKeepsNodes(ps[step.n], s[step.n], ps[1 - step.n], s[1 - step.n], step.act);
  }

  lemma {:induction false} ReachableInv(ps: Programs, steps: seq<Step>, states: seq<State>, i: nat)
    requires IsRun(ps, steps, states) && i < |states|
    ensures Inv(ps, states[i])
  {
    if i > 0 {
      ReachableInv(ps, steps, states, i - 1);
      NextKeepsInv(ps, states[i - 1], steps[i - 1]);
    }
  }

  /** Whoever has done something after k barriers: the other has sent all it sends before its k-th. */
  lemma OtherIsNotBehind(ps: Programs, s: State, n: nat, e: nat, e': nat)
    requires Inv(ps, s) && n < 2 && e < |ps[n]| && e < s[n].pc
    requires e' < |ps[1 - n]| && ps[1 - n][e'].Send? && Level(ps[1 - n], e') < Level(ps[n], e)
    ensures e' < s[1 - n].pc
  {
    LevelGrows(ps[n], e, s[n].pc);
    var y := s[1 - n];
    if y.pc <= e' {
      if y.phase == Before {
        LevelGrows(ps[1 - n], y.pc, e');
      } else {
        LevelGrows(ps[1 - n], y.pc + 1, e');
      }
    }
  }

  // ---------------------------------------------------------------- the hot period

  /** A hot period, with whatever the node does before and after it. */
  function WithPeriod(before: seq<Event>, q: seq<nat>, past: nat, current: nat, after: seq<Event>): seq<Event> {
    before + ([Bar] + (Schedule(q, past, current) + ([Bar] + after)))
  }

  lemma PeriodLevel(before: seq<Event>, q: seq<nat>, past: nat, current: nat, after: seq<Event>, i: nat)
    requires QueueOk(q, past, current) && i < |Schedule(q, past, current)| && Schedule(q, past, current)[i].Send?
    ensures var p, e := WithPeriod(before, q, past, current, after), |before| + 1 + i;
      && e < |p| && p[e] == Schedule(q, past, current)[i]
      && Level(p, e) == Level(before, |before|) + 1 + p[e].mb - past
  {
    var sched := Schedule(q, past, current);
    var rest := sched + ([Bar] + after);
    LevelOfRest(before, [Bar] + rest, 1 + i);
    LevelOfRest([Bar], rest, i);
    LevelOfPrefix(sched, [Bar] + after, i);
    SentAtItsLevel(q, past, current, i);
    OneEvent([Bar]);
  }

  /**
    In every run of two nodes that come to a hot period after the same number of barriers: when node
    `n` has sent a transaction of mini-batch m, the other has sent all of its earlier ones.
   */
  lemma HotPeriodsAligned(ps: Programs, steps: seq<Step>, states: seq<State>, k: nat, n: nat, past: nat, current: nat,
                          before: seq<Event>, q: seq<nat>, after: seq<Event>, i: nat,
                          before': seq<Event>, q': seq<nat>, after': seq<Event>, i': nat)
    requires IsRun(ps, steps, states) && k < |states| && |states[k]| == 2 && n < 2
    requires QueueOk(q, past, current) && ps[n] == WithPeriod(before, q, past, current, after)
    requires QueueOk(q', past, current) && ps[1 - n] == WithPeriod(before', q', past, current, after')
    requires Level(before, |before|) == Level(before', |before'|)
    requires i < |Schedule(q, past, current)| && Schedule(q, past, current)[i].Send?
    requires i' < |Schedule(q', past, current)| && Schedule(q', past, current)[i'].Send?
    requires Schedule(q', past, current)[i'].mb < Schedule(q, past, current)[i].mb
    requires |before| + 1 + i < states[k][n].pc
    ensures |before'| + 1 + i' < states[k][1 - n].pc
  {
    ReachableInv(ps, steps, states, k);
    PeriodLevel(before, q, past, current, after, i);
    PeriodLevel(before', q', past, current, after', i');
    OtherIsNotBehind(ps, states[k], n, |before| + 1 + i, |before'| + 1 + i');
  }

  /**
    Whoever has passed a barrier: the other has come to its own one after as many, having done all
    that is before it.
   */
  lemma OtherHasArrived(ps: Programs, s: State, n: nat, e: nat, e': nat)
    requires Inv(ps, s) && n < 2 && e < |ps[n]| && ps[n][e] == Bar && e < s[n].pc
    requires e' < |ps[1 - n]| && Level(ps[1 - n], e') == Level(ps[n], e)
    ensures s[1 - n].pc >= e' && (s[1 - n].pc == e' ==> s[1 - n].phase != Before)
  {
    var y := s[1 - n];
    LevelNext(ps[n], e);
    LevelGrows(ps[n], e + 1, s[n].pc);
    if y.pc < e' {
      LevelNext(ps[1 - n], y.pc);
      LevelGrows(ps[1 - n], y.pc + 1, e');
    }
  }

  /** Where the last barrier of the hot period is. */
  function PeriodEnd(before: seq<Event>, q: seq<nat>, past: nat, current: nat): nat {
    |before| + 1 + |Schedule(q, past, current)|
  }

  lemma LevelAfter(before: seq<Event>, period: seq<Event>, rest: seq<Event>)
    ensures Level(before + ([Bar] + (period + rest)), |before| + (1 + |period|)) ==
      Level(before, |before|) + 1 + Level(period, |period|)
  {
    LevelOfRest(before, [Bar] + (period + rest), 1 + |period|);
    LevelOfRest([Bar], period + rest, |period|);
    LevelOfPrefix(period, rest, |period|);
    OneEvent([Bar]);
  }

  lemma EventAfter(before: seq<Event>, period: seq<Event>, x: Event, after: seq<Event>)
    ensures var p, e := before + ([Bar] + (period + ([x] + after))), |before| + 1 + |period|; e < |p| && p[e] == x
  {
  }

  lemma PeriodEndLevel(before: seq<Event>, q: seq<nat>, past: nat, current: nat, after: seq<Event>)
    requires QueueOk(q, past, current)
    ensures var p, e := WithPeriod(before, q, past, current, after), PeriodEnd(before, q, past, current);
      e < |p| && p[e] == Bar && Level(p, e) == Level(before, |before|) + 1 + current - past
  {
    LevelAfter(before, Schedule(q, past, current), [Bar] + after);
    EventAfter(before, Schedule(q, past, current), Bar, after);
    ScheduleBarriers(q, past, current);
  }

  /** The node has come to the barrier at this place of its program, or is past it. */
  predicate HasCome(x: Node, e: nat) {
    x.pc > e || (x.pc == e && x.phase != Before)
  }

  lemma PeriodHasEnded(ps: Programs, s: State, n: nat, past: nat, current: nat,
                       before: seq<Event>, q: seq<nat>, after: seq<Event>,
                       before': seq<Event>, q': seq<nat>, after': seq<Event>)
    requires Inv(ps, s) && n < 2
    requires QueueOk(q, past, current) && ps[n] == WithPeriod(before, q, past, current, after)
    requires QueueOk(q', past, current) && ps[1 - n] == WithPeriod(before', q', past, current, after')
    requires Level(before, |before|) == Level(before', |before'|) && s[n].pc > PeriodEnd(before, q, past, current)
    ensures HasCome(s[1 - n], PeriodEnd(before', q', past, current))
  {
    PeriodEndLevel(before, q, past, current, after);
    PeriodEndLevel(before', q', past, current, after');
    OtherHasArrived(ps, s, n, PeriodEnd(before, q, past, current), PeriodEnd(before', q', past, current));
  }

  /**
    In every run of two nodes that come to a hot period after the same number of barriers: when one of
    them is past its last barrier the other has come to it, having sent all it sends in the period.
   */
  lemma HotPeriodEnds(ps: Programs, steps: seq<Step>, states: seq<State>, k: nat, n: nat, past: nat, current: nat,
                      before: seq<Event>, q: seq<nat>, after: seq<Event>,
                      before': seq<Event>, q': seq<nat>, after': seq<Event>)
    requires IsRun(ps, steps, states) && k < |states| && |states[k]| == 2 && n < 2
    requires QueueOk(q, past, current) && ps[n] == WithPeriod(before, q, past, current, after)
    requires QueueOk(q', past, current) && ps[1 - n] == WithPeriod(before', q', past, current, after')
    requires Level(before, |before|) == Level(before', |before'|)
    requires states[k][n].pc > PeriodEnd(before, q, past, current)
    ensures HasCome(states[k][1 - n], PeriodEnd(before', q', past, current))
  {
    ReachableInv(ps, steps, states, k);
    PeriodHasEnded(ps, states[k], n, past, current, before, q, after, before', q', after');
  }

  // ---------------------------------------------------------------- why only safety

  ghost predicate Stuck(ps: Programs, s: State, n: nat) {
    |s| == 2 && n < 2 && AtBar(ps[n], s[n]) && s[n].phase == Waiting && s[n].received >= 2
  }

  /** The wait asks for exactly one message: a node that is told twice before it looks waits for ever. */
  lemma {:induction false} StuckForEver(ps: Programs, steps: seq<Step>, states: seq<State>, n: nat, i: nat, j: nat)
    requires IsRun(ps, steps, states) && i <= j < |states| && Stuck(ps, states[i], n)
    ensures Stuck(ps, states[j], n) && states[j][n].pc == states[i][n].pc
    decreases j
  {
    if i < j {
      StuckForEver(ps, steps, states, n, i, j - 1);
    }
  }

  /** That is the only way to block: with equally many barriers on both sides, otherwise some step can be taken. */
  lemma OnlyStuckBlocks(ps: Programs, steps: seq<Step>, states: seq<State>, i: nat)
    requires IsRun(ps, steps, states) && i < |states| && |states[i]| == 2
    requires Level(ps[0], |ps[0]|) == Level(ps[1], |ps[1]|)
    requires states[i][0].pc < |ps[0]| || states[i][1].pc < |ps[1]|
    ensures (exists step :: Enabled(ps, states[i], step)) || Stuck(ps, states[i], 0) || Stuck(ps, states[i], 1)
  {
    var s := states[i];
    ReachableInv(ps, steps, states, i);
    if !Stuck(ps, s, 0) && !Stuck(ps, s, 1) && !(exists step :: Enabled(ps, s, step)) {
      forall n | 0 <= n < 2
        ensures s[n].pc < |ps[n]| ==> s[n].phase == Waiting && s[n].received == 0
        ensures s[n].inFlight == 0
      {
        BlockedNode(ps, s, n);
      }
      LevelOfEnd(ps[0], s[0]);
      LevelOfEnd(ps[1], s[1]);
    }
  }

  lemma BlockedNode(ps: Programs, s: State, n: nat)
    requires Inv(ps, s) && n < 2 && !Stuck(ps, s, n) && !(exists step :: Enabled(ps, s, step))
    ensures s[n].pc < |ps[n]| ==> s[n].phase == Waiting && s[n].received == 0
    ensures s[n].inFlight == 0
  {
    assert !Enabled(ps, s, Step(n, Deliver)) && !Enabled(ps, s, Step(n, Run)) && !Enabled(ps, s, Step(n, Arrive));
    assert !Enabled(ps, s, Step(n, Clear)) && !Enabled(ps, s, Step(n, Pass));
  }

  lemma LevelOfEnd(p: seq<Event>, x: Node)
    requires x.pc <= |p|
    ensures Level(p, x.pc) <= Level(p, |p|) && (AtBar(p, x) ==> Level(p, x.pc) < Level(p, |p|))
  {
    LevelGrows(p, x.pc, |p|);
    if AtBar(p, x) {
      LevelGrows(p, x.pc + 1, |p|);
    }
  }

  // ---------------------------------------------------------------- and exactly when it can happen

  /** Node `n` is at `x`, the other one at `y`. */
  function Pair(n: nat, x: Node, y: Node): State {
    if n == 0 then [x, y] else [y, x]
  }

  ghost predicate ReachesPair(ps: Programs, steps: seq<Step>, states: seq<State>, n: nat, x: Node, y: Node) {
    IsRun(ps, steps, states) && n < 2 && states[|steps|] == Pair(n, x, y)
  }

  lemma Swapped(ps: Programs, steps: seq<Step>, states: seq<State>, n: nat, x: Node, y: Node)
    requires ReachesPair(ps, steps, states, n, x, y)
    ensures ReachesPair(ps, steps, states, 1 - n, y, x)
  {
  }

  lemma Go(ps: Programs, steps: seq<Step>, states: seq<State>, n: nat, x: Node, y: Node, act: Act)
    returns (steps': seq<Step>, states': seq<State>)
    requires ReachesPair(ps, steps, states, n, x, y) && CanAct(ps[n], x, act)
    ensures ReachesPair(ps, steps', states', n, Acts(x, act), ActsOnOther(y, act))
  {
    var s, step := states[|steps|], Step(n, act);
    steps', states' := steps + [step], states + [Next(ps, s, step)];
    forall i | 0 <= i < |steps'|
      ensures Enabled(ps, states'[i], steps'[i]) && states'[i + 1] == Next(ps, states'[i], steps'[i])
    {
      assert states'[i] == states[i];
      if i < |steps| {
        assert steps'[i] == steps[i] && states'[i + 1] == states[i + 1];
      }
    }
  }

  lemma {:induction false} RunTo(ps: Programs, steps: seq<Step>, states: seq<State>, n: nat, x: Node, y: Node, end: nat)
    returns (steps': seq<Step>, states': seq<State>)
    requires ReachesPair(ps, steps, states, n, x, y) && x.pc <= end <= |ps[n]|
    requires forall i :: x.pc <= i < end ==> ps[n][i].Send?
    ensures ReachesPair(ps, steps', states', n, x.(pc := end), y)
    decreases end
  {
    steps', states' := steps, states;
    if x.pc < end {
      steps', states' := RunTo(ps, steps, states, n, x, y, end - 1);
      steps', states' := Go(ps, steps', states', n, x.(pc := end - 1), y, Run);
    }
  }

  lemma {:induction false} NextBar(p: seq<Event>, from: nat) returns (i: nat)
    requires from <= |p| && Level(p, from) < Level(p, |p|)
    ensures from <= i < |p| && p[i] == Bar && Level(p, i + 1) == Level(p, from) + 1
    ensures forall j :: from <= j < i ==> p[j].Send?
    decreases |p| - from
  {
    LevelNext(p, from);
    if p[from] == Bar {
      i := from;
    } else {
      i := NextBar(p, from + 1);
    }
  }

  /** The node comes to its next barrier and tells the other. */
  lemma Arrives(ps: Programs, steps: seq<Step>, states: seq<State>, n: nat, x: Node, y: Node, bar: nat)
    returns (steps': seq<Step>, states': seq<State>)
    requires ReachesPair(ps, steps, states, n, x, y) && x.phase == Before
    requires x.pc <= bar < |ps[n]| && ps[n][bar] == Bar && forall i :: x.pc <= i < bar ==> ps[n][i].Send?
    ensures ReachesPair(ps, steps', states', n, x.(pc := bar, phase := Waiting), y.(inFlight := y.inFlight + 1))
  {
    steps', states' := RunTo(ps, steps, states, n, x, y, bar);
    steps', states' := Go(ps, steps', states', n, x.(pc := bar), y, Arrive);
  }

  /** A node that waits, and was told, goes on. */
  lemma GoesOn(ps: Programs, steps: seq<Step>, states: seq<State>, n: nat, bar: nat, y: Node)
    returns (steps': seq<Step>, states': seq<State>)
    requires ReachesPair(ps, steps, states, n, Node(bar, Waiting, 1, 0), y) && bar < |ps[n]| && ps[n][bar] == Bar
    ensures ReachesPair(ps, steps', states', n, Node(bar + 1, Before, 0, 0), y)
  {
    steps', states' := Go(ps, steps, states, n, Node(bar, Waiting, 1, 0), y, Deliver);
    steps', states' := Go(ps, steps', states', n, Node(bar, Waiting, 0, 1), y, Clear);
    steps', states' := Go(ps, steps', states', n, Node(bar, Cleared, 0, 1), y, Pass);
  }

  /** The other node is through and at its next barrier before this one looks. */
  lemma CanStick(ps: Programs, n: nat) returns (steps: seq<Step>, states: seq<State>)
    requires n < 2 && Level(ps[n], |ps[n]|) >= 1 && Level(ps[1 - n], |ps[1 - n]|) >= 2
    ensures IsRun(ps, steps, states) && Stuck(ps, states[|steps|], n)
  {
    var b := NextBar(ps[n], 0);
    var c := NextBar(ps[1 - n], 0);
    var c' := NextBar(ps[1 - n], c + 1);
    var start := Node(0, Before, 0, 0);
    steps, states := [], [Init];
    steps, states := Arrives(ps, steps, states, n, start, start, b);
    Swapped(ps, steps, states, n, Node(b, Waiting, 0, 0), Node(0, Before, 1, 0));
    steps, states := Arrives(ps, steps, states, 1 - n, Node(0, Before, 1, 0), Node(b, Waiting, 0, 0), c);
    steps, states := GoesOn(ps, steps, states, 1 - n, c, Node(b, Waiting, 1, 0));
    steps, states := Arrives(ps, steps, states, 1 - n, Node(c + 1, Before, 0, 0), Node(b, Waiting, 1, 0), c');
    Swapped(ps, steps, states, 1 - n, Node(c', Waiting, 0, 0), Node(b, Waiting, 2, 0));
    steps, states := Go(ps, steps, states, n, Node(b, Waiting, 2, 0), Node(c', Waiting, 0, 0), Deliver);
    steps, states := Go(ps, steps, states, n, Node(b, Waiting, 1, 1), Node(c', Waiting, 0, 0), Deliver);
  }

  /** A node can get stuck in some run if and only if it has a barrier and the other at least two. */
  lemma CanStickIff(ps: Programs, n: nat)
    requires n < 2
    ensures (exists steps, states, i :: IsRun(ps, steps, states) && 0 <= i < |states| && Stuck(ps, states[i], n))
       <==> Level(ps[n], |ps[n]|) >= 1 && Level(ps[1 - n], |ps[1 - n]|) >= 2
  {
    if steps: seq<Step>, states: seq<State>, i :|
         IsRun(ps, steps, states) && 0 <= i < |states| && Stuck(ps, states[i], n) {
      ReachableInv(ps, steps, states, i);
      LevelOfEnd(ps[n], states[i][n]);
      LevelOfEnd(ps[1 - n], states[i][1 - n]);
    }
    if Level(ps[n], |ps[n]|) >= 1 && Level(ps[1 - n], |ps[1 - n]|) >= 2 {
      var steps, states := CanStick(ps, n);
      assert Stuck(ps, states[|steps|], n);
    }
  }
}
