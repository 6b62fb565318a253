/**
  The reusable thread barrier: `wait` as atomic steps of any number of threads over the two shared
  counters, with sequentially consistent memory.
 */
module ReusableBarrier {

  /**
    Where a thread is: outside, spinning until `enter_ct` is reset, about to reset it, about to call
    the middle function, in it, about to count itself out, spinning until `exit_ct` is reset, about
    to reset it.
   */
  datatype Pc = Out | SpinIn | LastIn | BeforeMiddle | InMiddle | BeforeExit | SpinOut | LastOut

  /**
    `entered` and `left` count the calls and returns of each thread and `ran` its runs of the middle
    function; `gen` counts the generations that are over, `leader` is who closed the last one, and
    `middles` lists the generation of every call of the middle function. None of them is read.
   */
  datatype State = State(pcs: seq<Pc>, enterCt: nat, exitCt: nat, entered: seq<nat>, left: seq<nat>, ran: seq<nat>,
                         gen: nat, leader: nat, middles: seq<nat>)

  predicate Shape(s: State) {
    |s.pcs| > 0 && |s.entered| == |s.left| == |s.ran| == |s.pcs|
  }

  function Init(n: nat): State {
    var zeros := seq(n, t => 0);
    State(seq(n, t => Out), 0, 0, zeros, zeros, zeros, 0, 0, [])
  }

  /** A spinning thread goes on when it finds the counter reset. */
  predicate CanStep(s: State, t: nat) {
    && Shape(s) && t < |s.pcs|
    && (s.pcs[t] == SpinIn ==> s.enterCt == 0)
    && (s.pcs[t] == SpinOut ==> s.exitCt == 0)
  }

  function Step(s: State, single: bool, t: nat): State
    requires CanStep(s, t)
  {
    match s.pcs[t]
    case Out =>
      var last := s.enterCt + 1 == |s.pcs|;
      s.(pcs := s.pcs[t := if last then LastIn else SpinIn], enterCt := s.enterCt + 1,
         entered := s.entered[t := s.entered[t] + 1], leader := if last then t else s.leader)
    case LastIn => s.(pcs := s.pcs[t := BeforeMiddle], enterCt := 0)
    case SpinIn => s.(pcs := s.pcs[t := if single then BeforeExit else BeforeMiddle])
    case BeforeMiddle => s.(pcs := s.pcs[t := InMiddle], middles := s.middles + [s.entered[t]])
    case InMiddle => s.(pcs := s.pcs[t := BeforeExit], ran := s.ran[t := s.ran[t] + 1])
    case BeforeExit =>
      s.(pcs := s.pcs[t := if s.exitCt + 1 == |s.pcs| then LastOut else SpinOut], exitCt := s.exitCt + 1)
    case SpinOut => s.(pcs := s.pcs[t := Out], left := s.left[t := s.left[t] + 1])
    case LastOut => s.(pcs := s.pcs[t := Out], exitCt := 0, left := s.left[t := s.left[t] + 1], gen := s.gen + 1)
  }

  ghost predicate IsRun(n: nat, single: bool, steps: seq<nat>, states: seq<State>) {
    && n > 0 && |states| == |steps| + 1 && states[0] == Init(n)
    && forall i :: 0 <= i < |steps| ==>
       CanStep(states[i], steps[i]) && states[i + 1] == Step(states[i], single, steps[i])
  }

  // ---------------------------------------------------------------- counting threads

  function Count(pcs: seq<Pc>, pc: Pc): nat {
    if pcs == [] then 0 else Count(pcs[..|pcs| - 1], pc) + (if pcs[|pcs| - 1] == pc then 1 else 0)
  }

  lemma {:induction false} Moves(pcs: seq<Pc>, t: nat, pc: Pc, at: Pc)
    requires t < |pcs|
    ensures Count(pcs[t := pc], at) == Count(pcs, at) + (if pc == at then 1 else 0) - (if pcs[t] == at then 1 else 0)
  {
    var n := |pcs| - 1;
    if t == n {
      assert pcs[t := pc][..n] == pcs[..n];
    } else {
      Moves(pcs[..n], t, pc, at);
      assert pcs[t := pc][..n] == pcs[..n][t := pc];
    }
  }

  lemma {:induction false} AllCounted(pcs: seq<Pc>, pc: Pc)
    ensures Count(pcs, pc) <= |pcs|
    ensures Count(pcs, pc) == |pcs| <==> forall t :: 0 <= t < |pcs| ==> pcs[t] == pc
  {
    if pcs != [] {
      var n := |pcs| - 1;
      AllCounted(pcs[..n], pc);
      assert forall t :: 0 <= t < n ==> pcs[..n][t] == pcs[t];
    }
  }

  lemma {:induction false} NoneCounted(pcs: seq<Pc>, pc: Pc)
    requires forall t :: 0 <= t < |pcs| ==> pcs[t] != pc
    ensures Count(pcs, pc) == 0
  {
    if pcs != [] {
      NoneCounted(pcs[..|pcs| - 1], pc);
    }
  }

  /** When all but one thread are at `pc`, they are all the others. */
  lemma AllOthers(pcs: seq<Pc>, t: nat, pc: Pc)
    requires t < |pcs| && pcs[t] != pc && Count(pcs, pc) + 1 == |pcs|
    ensures forall t' :: 0 <= t' < |pcs| && t' != t ==> pcs[t'] == pc
  {
    Moves(pcs, t, pc, pc);
    AllCounted(pcs[t := pc], pc);
    assert forall t' :: 0 <= t' < |pcs| && t' != t ==> pcs[t := pc][t'] == pcs[t'];
  }

  // ---------------------------------------------------------------- the four phases of a generation

  /** Threads gather; those still spinning on `exit_ct` are late from the generation before. */
  ghost predicate Gathering(s: State, single: bool) {
    && Shape(s) && s.exitCt == 0 && s.enterCt == Count(s.pcs, SpinIn) < |s.pcs|
    && (single ==> |s.middles| == s.gen)
    && forall t :: 0 <= t < |s.pcs| ==>
         && (s.pcs[t] == Out || s.pcs[t] == SpinIn || (s.pcs[t] == SpinOut && s.gen > 0))
         && s.entered[t] == s.gen + (if s.pcs[t] == SpinIn then 1 else 0)
         && s.left[t] == s.gen - (if s.pcs[t] == SpinOut then 1 else 0)
         && (!single ==> s.ran[t] == s.gen)
  }

  /** All have entered and the last one is about to let them go. */
  ghost predicate Closing(s: State, single: bool) {
    && Shape(s) && s.exitCt == 0 && s.enterCt == |s.pcs|
    && (single ==> |s.middles| == s.gen)
    && s.leader < |s.pcs| && s.pcs[s.leader] == LastIn
    && forall t :: 0 <= t < |s.pcs| ==>
         && (t != s.leader ==> s.pcs[t] == SpinIn)
         && s.entered[t] == s.gen + 1 && s.left[t] == s.gen && (!single ==> s.ran[t] == s.gen)
  }

  predicate RunsOnce(s: State, single: bool, t: nat)
    requires t < |s.pcs| && t < |s.ran|
  {
    if single then t != s.leader ==> s.pcs[t] != BeforeMiddle && s.pcs[t] != InMiddle
    else s.ran[t] == s.gen + (if s.pcs[t] == BeforeExit || s.pcs[t] == SpinOut || s.pcs[t] == LastOut then 1 else 0)
  }

  /** They go through the middle and count themselves out; those still spinning on `enter_ct` are late. */
  ghost predicate Crossing(s: State, single: bool) {
    && Shape(s) && s.enterCt == 0 && s.exitCt == Count(s.pcs, SpinOut) < |s.pcs|
    && s.leader < |s.pcs| && s.pcs[s.leader] != SpinIn
    && (single ==> |s.middles| == s.gen + (if s.pcs[s.leader] == BeforeMiddle then 0 else 1))
    && forall t :: 0 <= t < |s.pcs| ==>
         && s.pcs[t] != Out && s.pcs[t] != LastIn && s.pcs[t] != LastOut && RunsOnce(s, single, t)
         && s.entered[t] == s.gen + 1 && s.left[t] == s.gen
  }

  /** All have counted themselves out and the last one is about to let them go. */
  ghost predicate Leaving(s: State, single: bool) {
    && Shape(s) && s.enterCt == 0 && s.exitCt == |s.pcs|
    && (single ==> |s.middles| == s.gen + 1)
    && exists last :: 0 <= last < |s.pcs| && s.pcs[last] == LastOut && AllAfter(s, single, last)
  }

  ghost predicate AllAfter(s: State, single: bool, last: int) {
    && Shape(s)
    && forall t :: 0 <= t < |s.pcs| ==>
         && (t != last ==> s.pcs[t] == SpinOut)
         && s.entered[t] == s.gen + 1 && s.left[t] == s.gen && (!single ==> s.ran[t] == s.gen + 1)
  }

  ghost predicate OncePerGen(s: State, single: bool) {
    single ==> forall i :: 0 <= i < |s.middles| ==> s.middles[i] == i + 1
  }

  ghost predicate Inv(s: State, single: bool) {
    && Shape(s) && OncePerGen(s, single)
    && (Gathering(s, single) || Closing(s, single) || Crossing(s, single) || Leaving(s, single))
  }

  lemma LateLeaves(s: State, single: bool, t: nat)
    requires CanStep(s, t) && Gathering(s, single) && s.pcs[t] == SpinOut
    ensures Gathering(Step(s, single, t), single)
  {
    Moves(s.pcs, t, Out, SpinIn);
  }

  lemma Enters(s: State, single: bool, t: nat)
    requires CanStep(s, t) && Gathering(s, single) && s.pcs[t] == Out && s.enterCt + 1 < |s.pcs|
    ensures Gathering(Step(s, single, t), single)
  {
    Moves(s.pcs, t, SpinIn, SpinIn);
  }

  lemma EntersLast(s: State, single: bool, t: nat)
    requires CanStep(s, t) && Gathering(s, single) && s.pcs[t] == Out && s.enterCt + 1 == |s.pcs|
    ensures Closing(Step(s, single, t), single)
  {
    AllOthers(s.pcs, t, SpinIn);
  }

  lemma GatheringStep(s: State, single: bool, t: nat)
    requires CanStep(s, t) && Gathering(s, single)
    ensures var s' := Step(s, single, t); Gathering(s', single) || Closing(s', single)
  {
    Moves(s.pcs, t, Out, SpinIn);
    if s.pcs[t] == SpinOut {
      LateLeaves(s, single, t);
    } else if s.enterCt + 1 < |s.pcs| {
      Enters(s, single, t);
    } else {
      EntersLast(s, single, t);
    }
  }

  lemma ClosingStep(s: State, single: bool, t: nat)
    requires Shape(s) && CanStep(s, t) && Closing(s, single)
    ensures Crossing(Step(s, single, t), single)
  {
    var s' := Step(s, single, t);
    NoneCounted(s'.pcs, SpinOut);
  }

  /** Through the middle function, or past it. */
  lemma GoesOn(s: State, single: bool, t: nat)
    requires CanStep(s, t) && Crossing(s, single) && s.pcs[t] != BeforeExit
    ensures Crossing(Step(s, single, t), single)
  {
    Moves(s.pcs, t, Step(s, single, t).pcs[t], SpinOut);
  }

  lemma CountsOut(s: State, single: bool, t: nat)
    requires CanStep(s, t) && Crossing(s, single) && s.pcs[t] == BeforeExit && s.exitCt + 1 < |s.pcs|
    ensures Crossing(Step(s, single, t), single)
  {
    Moves(s.pcs, t, SpinOut, SpinOut);
  }

  lemma CountsOutLast(s: State, single: bool, t: nat)
    requires CanStep(s, t) && Crossing(s, single) && s.pcs[t] == BeforeExit && s.exitCt + 1 == |s.pcs|
    ensures Leaving(Step(s, single, t), single)
  {
    AllOthers(s.pcs, t, SpinOut);
    assert AllAfter(Step(s, single, t), single, t);
  }

  lemma CrossingStep(s: State, single: bool, t: nat)
    requires OncePerGen(s, single) && CanStep(s, t) && Crossing(s, single)
    ensures var s' := Step(s, single, t); OncePerGen(s', single) && (Crossing(s', single) || Leaving(s', single))
  {
    if s.pcs[t] != BeforeExit {
      GoesOn(s, single, t);
    } else if s.exitCt + 1 < |s.pcs| {
      CountsOut(s, single, t);
    } else {
      CountsOutLast(s, single, t);
    }
  }

  lemma LeavingStep(s: State, single: bool, t: nat)
    requires Shape(s) && CanStep(s, t) && Leaving(s, single)
    ensures Gathering(Step(s, single, t), single)
  {
    var s' := Step(s, single, t);
    NoneCounted(s'.pcs, SpinIn);
  }

  lemma StepKeepsInv(s: State, single: bool, t: nat)
    requires Inv(s, single) && CanStep(s, t)
    ensures Inv(Step(s, single, t), single)
  {
    if Gathering(s, single) {
      GatheringStep(s, single, t);
    } else if Closing(s, single) {
      ClosingStep(s, single, t);
    } else if Crossing(s, single) {
      CrossingStep(s, single, t);
    } else {
      LeavingStep(s, single, t);
    }
  }

  lemma {:induction false} ReachableInv(n: nat, single: bool, steps: seq<nat>, states: seq<State>, i: nat)
    requires IsRun(n, single, steps, states) && i < |states|
    ensures Inv(states[i], single) && |states[i].pcs| == n
  {
    if i == 0 {
      NoneCounted(Init(n).pcs, SpinIn);
    } else {
      ReachableInv(n, single, steps, states, i - 1);
      StepKeepsInv(states[i - 1], single, steps[i - 1]);
    }
  }

  // ---------------------------------------------------------------- what the barrier promises

  /**
    In every run, whatever the number of threads and generations: nobody has left a generation that
    somebody has not entered, nobody is a whole generation ahead, and nobody has left the
    generation whose middle function is still running.
   */
  lemma NobodyLeavesEarly(n: nat, single: bool, steps: seq<nat>, states: seq<State>, i: nat, t: nat, t': nat)
    requires IsRun(n, single, steps, states) && i < |states| && t < n && t' < n
    ensures var s := states[i];
      && |s.pcs| == |s.left| == |s.entered| == n
      && s.left[t] <= s.entered[t'] <= s.left[t] + 2
      && (s.pcs[t'] == InMiddle || s.pcs[t'] == BeforeMiddle ==> s.left[t] < s.entered[t'])
  {
    ReachableInv(n, single, steps, states, i);
  }

  /** How often a thread has run the middle function, in each phase. */
  lemma RanWithoutSingle(s: State, t: nat, t': nat)
    requires Inv(s, false) && t < |s.pcs| && t' < |s.pcs|
    ensures s.left[t] <= s.ran[t'] <= s.entered[t']
  {
    if Crossing(s, false) {
      assert RunsOnce(s, false, t');
    } else if Leaving(s, false) {
      var last :| 0 <= last < |s.pcs| && s.pcs[last] == LastOut && AllAfter(s, false, last);
    }
  }

  /**
    With `single`, the k-th call of the middle function belongs to generation k, so there is exactly
    one for each generation anybody has left; without it, every thread has run it once for each.
   */
  lemma MiddleRunsOnce(n: nat, single: bool, steps: seq<nat>, states: seq<State>, i: nat, t: nat, t': nat)
    requires IsRun(n, single, steps, states) && i < |states| && t < n && t' < n
    ensures var s := states[i];
      && |s.left| == |s.ran| == |s.entered| == n
      && (single ==>
            && s.left[t] <= |s.middles| <= s.left[t] + 2
            && forall j :: 0 <= j < |s.middles| ==> s.middles[j] == j + 1)
      && (!single ==> s.left[t] <= s.ran[t'] <= s.entered[t'])
  {
    ReachableInv(n, single, steps, states, i);
    if !single {
      RanWithoutSingle(states[i], t, t');
    }
  }

  /** Some thread can always step, and it is one inside `wait` unless all that are spin and wait for one outside. */
  lemma SomebodyCanStep(n: nat, single: bool, steps: seq<nat>, states: seq<State>, i: nat)
    requires IsRun(n, single, steps, states) && i < |states|
    ensures exists t :: CanStep(states[i], t)
    ensures (forall t :: 0 <= t < n ==> |states[i].pcs| == n && states[i].pcs[t] != Out) ==>
      exists t: nat :: CanStep(states[i], t) && states[i].pcs[t] != Out
  {
    var s := states[i];
    ReachableInv(n, single, steps, states, i);
    if Gathering(s, single) {
      AllCounted(s.pcs, SpinIn);
      var t :| 0 <= t < |s.pcs| && s.pcs[t] != SpinIn;
      assert CanStep(s, t);
    } else if Closing(s, single) {
      assert CanStep(s, s.leader);
    } else if Crossing(s, single) {
      AllCounted(s.pcs, SpinOut);
      var t :| 0 <= t < |s.pcs| && s.pcs[t] != SpinOut;
      assert CanStep(s, t);
    } else {
      var last :| 0 <= last < |s.pcs| && s.pcs[last] == LastOut && AllAfter(s, single, last);
      assert CanStep(s, last);
    }
  }
}
