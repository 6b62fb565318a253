/**
  What the allocator's estimates mean, told by the allocations of a run. A block is expected to be free
  when all its allocations are over, each beginning at its own start time or when the one before is over,
  whichever is later. Every allocation gets the block that fits best by these times.
 */
module BlockTimes {
  import opened BlockAllocator

  /** This step gives the block to somebody: its queue grows. */
  predicate Gets(a: Alloc, step: Step, a': Alloc, b: Block) {
    step.Get? && b < |a.queue| && b < |a'.queue| && |a'.queue[b]| == |a.queue[b]| + 1
  }

  function Max(x: Time, y: Time): Time {
    if x >= y then x else y
  }

  /** When the allocations that the block got in the first `n` steps are over. */
  function Finish(steps: seq<Step>, states: seq<Alloc>, b: Block, n: nat): Time
    requires n <= |steps| && |states| == |steps| + 1
  {
    if n == 0 then 0 else
      var before := Finish(steps, states, b, n - 1);
      if Gets(states[n - 1], steps[n - 1], states[n], b)
      then Max(before, steps[n - 1].start) + steps[n - 1].duration
      else before
  }

  // ---------------------------------------------------------------- the estimates

  lemma GetsIs(a: Alloc, t: Tenant, start: Time, duration: Time, b: Block)
    requires Inv(a) && Enabled(a, Get(t, start, duration)) && b < N_BLOCKS
    ensures Gets(a, Get(t, start, duration), DoAlloc(a, t, start, duration), b) <==> b == Found(a, start).blk
  {
  }

  /** The chosen block's estimate is `duration` after the later of the old one and `start`; the others stay. */
  lemma EstimateAfter(a: Alloc, t: Tenant, start: Time, duration: Time, m: Meta)
    requires Inv(a) && Enabled(a, Get(t, start, duration))
    ensures var c := Found(a, start);
      m in DoAlloc(a, t, start, duration).sorted <==>
        (m in a.sorted && m.blk != c.blk) || m == Meta(c.blk, Max(c.est, start) + duration)
  {
    var i := Chosen(a.sorted, start);
    InsertContents(Without(a.sorted, i), Later(a.sorted[i], start, duration), m);
    WithoutContents(a.sorted, i, m);
    if m in a.sorted {
      SameBlockSameEntry(a.sorted, m, a.sorted[i]);
    }
  }

  /** In every run a block's estimate is the time at which its allocations are over. */
  lemma {:induction false} EstimateIsFinish(steps: seq<Step>, states: seq<Alloc>, n: nat, m: Meta)
    requires IsRun(steps, states) && n < |states| && m in states[n].sorted
    ensures m.est == Finish(steps, states, m.blk, n) && m.blk < N_BLOCKS
  {
    ReachableInv(steps, states, n);
    if n > 0 {
      var a, step := states[n - 1], steps[n - 1];
      ReachableInv(steps, states, n - 1);
      assert StepAt(steps, states, n - 1);
      if step.Get? {
        var c := Found(a, step.start);
        EstimateAfter(a, step.t, step.start, step.duration, m);
        GetsIs(a, step.t, step.start, step.duration, m.blk);
        EstimateIsFinish(steps, states, n - 1, if m.blk == c.blk then c else m);
      } else {
        EstimateIsFinish(steps, states, n - 1, m);
      }
    }
  }

  // ---------------------------------------------------------------- the block that fits best

  /** The block is free by then; block 0 also if it is free exactly then. */
  predicate Fits(b: Block, est: Time, start: Time) {
    est < start || (est == start && b == 0)
  }

  /** Free earlier, or at the same time with the smaller number. */
  predicate Before(b: Block, est: Time, b': Block, est': Time) {
    est < est' || (est == est' && b <= b')
  }

  /** Of the blocks that fit the last one, or else the first of all. */
  lemma ChosenIsExact(ms: seq<Meta>, start: Time, m: Meta)
    requires Ordered(ms) && m in ms
    ensures var c := ms[Chosen(ms, start)];
      if Fits(c.blk, c.est, start)
      then Fits(m.blk, m.est, start) ==> Before(m.blk, m.est, c.blk, c.est)
      else !Fits(m.blk, m.est, start) && Before(c.blk, c.est, m.blk, m.est)
  {
    var q, u := Meta(0, start), UpperBound(ms, Meta(0, start));
    var j :| 0 <= j < |ms| && ms[j] == m;
    UpperBoundIs(ms, q);
    if j > u {
      assert Less(ms[u], ms[j]);
    } else if u > 0 && j < u - 1 {
      assert Less(ms[j], ms[u - 1]);
    }
  }

  /**
    In every run an allocation gets the block that fits best by the times at which the allocations of the
    blocks are over: the last of those that are free by its start, or else the first of all to be free.
   */
  lemma BestFitInRun(steps: seq<Step>, states: seq<Alloc>, n: nat, b: Block, b': Block)
    requires IsRun(steps, states) && n < |steps| && b < N_BLOCKS && b' < N_BLOCKS
    requires Gets(states[n], steps[n], states[n + 1], b)
    ensures var start, est, est' := steps[n].start, Finish(steps, states, b, n), Finish(steps, states, b', n);
      if Fits(b, est, start)
      then Fits(b', est', start) ==> Before(b', est', b, est)
      else !Fits(b', est', start) && Before(b, est, b', est')
  {
    var a, step := states[n], steps[n];
    ReachableInv(steps, states, n);
    assert StepAt(steps, states, n);
    GetsIs(a, step.t, step.start, step.duration, b);
    EveryBlockOnce(a, b');
    var i :| 0 <= i < |a.sorted| && a.sorted[i].blk == b';
    EstimateIsFinish(steps, states, n, a.sorted[i]);
    EstimateIsFinish(steps, states, n, Found(a, step.start));
    ChosenIsExact(a.sorted, step.start, a.sorted[i]);
  }

  /** Nobody else's queue grows. */
  ghost predicate GetsOnly(a: Alloc, step: Step, a': Alloc, b: Block) {
    Gets(a, step, a', b) && forall b': Block :: b' != b ==> !Gets(a, step, a', b')
  }

  /** And every allocation gets exactly one block, whose queue the tenant joins at the end. */
  lemma GetsOne(steps: seq<Step>, states: seq<Alloc>, n: nat) returns (b: Block)
    requires IsRun(steps, states) && n < |steps| && steps[n].Get?
    ensures b < N_BLOCKS && GetsOnly(states[n], steps[n], states[n + 1], b)
    ensures At(states[n + 1], b, |states[n].queue[b]|, steps[n].t)
  {
    var a, step, a' := states[n], steps[n], states[n + 1];
    ReachableInv(steps, states, n);
    assert StepAt(steps, states, n);
    b := Found(a, step.start).blk;
    GetsIs(a, step.t, step.start, step.duration, b);
    forall b': Block | b' != b
      ensures !Gets(a, step, a', b')
    {
      if b' < N_BLOCKS {
        GetsIs(a, step.t, step.start, step.duration, b');
      }
    }
  }
}
