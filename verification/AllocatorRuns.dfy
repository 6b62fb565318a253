/**
  The allocator inside the control plane. Leaving out everything else, every run of the control plane is a
  run of the allocator, in which each first request for a batch is one allocation with the start and the
  duration of that request. So what is proved of the allocator's choices holds of the blocks it grants.
 */
module AllocatorRuns {
  import BA = BlockAllocator
  import BT = BlockTimes
  import opened ControlPlane

  /** The allocations that the first `n` steps ask for. */
  ghost function AskedFor(steps: seq<Step>, states: seq<State>, n: nat): seq<BA.Step>
    requires n <= |steps| && |states| == |steps| + 1
  {
    if n == 0 then [] else
      AskedFor(steps, states, n - 1) +
      match steps[n - 1]
      case Serve(fd, start, duration) =>
        if fd < |states[n - 1].nodes| && Fresh(states[n - 1], fd)
        then [BA.Get(states[n - 1].nodes[fd].tenant, start, duration)]
        else []
      case _ => []
  }

  /** A run of the allocator, and where in it its allocations are. */
  datatype View = View(steps: seq<BA.Step>, states: seq<BA.Alloc>, gets: seq<nat>)

  /** The allocations are these, each gives the block that was granted, and there are no others. */
  ghost predicate IsView(v: View, alloc: BA.Alloc, asked: seq<BA.Step>, grants: seq<Grant>) {
    && BA.IsRun(v.steps, v.states) && v.states[|v.steps|] == alloc
    && |v.gets| == |asked| == |grants|
    && (forall i, j :: 0 <= i < j < |v.gets| ==> v.gets[i] < v.gets[j])
    && (forall i: nat :: i < |v.gets| ==> GrantedAt(v, i, asked, grants))
    && (forall k :: 0 <= k < |v.steps| && v.steps[k].Get? ==> k in v.gets)
  }

  predicate GrantedAt(v: View, i: nat, asked: seq<BA.Step>, grants: seq<Grant>) {
    && i < |v.gets| && i < |asked| && i < |grants| && |v.states| == |v.steps| + 1 && v.gets[i] < |v.steps|
    && var k := v.gets[i];
       v.steps[k] == asked[i] && v.steps[k].Get? && v.steps[k].t == grants[i].tenant
       && BT.Gets(v.states[k], v.steps[k], v.states[k + 1], grants[i].blk)
  }

  // ---------------------------------------------------------------- one more step

  lemma Extend(steps: seq<BA.Step>, states: seq<BA.Alloc>, step: BA.Step)
    requires BA.IsRun(steps, states) && BA.Enabled(states[|steps|], step)
    ensures BA.IsRun(steps + [step], states + [BA.Next(states[|steps|], step)])
  {
    var steps', states' := steps + [step], states + [BA.Next(states[|steps|], step)];
    forall n: nat | n < |steps'|
      ensures BA.StepAt(steps', states', n)
    {
      if n < |steps| {
        assert BA.StepAt(steps, states, n);
      }
    }
  }

  function Longer(v: View, step: BA.Step, alloc: BA.Alloc): View {
    View(v.steps + [step], v.states + [alloc], if step.Get? then v.gets + [|v.steps|] else v.gets)
  }

  lemma StillGranted(v: View, step: BA.Step, alloc: BA.Alloc, i: nat, asked: seq<BA.Step>, grants: seq<Grant>,
                     asked': seq<BA.Step>, grants': seq<Grant>)
    requires GrantedAt(v, i, asked, grants) && asked <= asked' && grants <= grants'
    ensures GrantedAt(Longer(v, step, alloc), i, asked', grants')
  {
  }

  lemma QuietStep(v: View, alloc: BA.Alloc, asked: seq<BA.Step>, grants: seq<Grant>, step: BA.Step)
    requires IsView(v, alloc, asked, grants) && BA.Enabled(alloc, step) && !step.Get?
    ensures IsView(Longer(v, step, BA.Next(alloc, step)), BA.Next(alloc, step), asked, grants)
  {
    Extend(v.steps, v.states, step);
    var v' := Longer(v, step, BA.Next(alloc, step));
    forall i: nat | i < |v'.gets|
      ensures GrantedAt(v', i, asked, grants)
    {
      assert GrantedAt(v, i, asked, grants);
      StillGranted(v, step, BA.Next(alloc, step), i, asked, grants, asked, grants);
    }
  }

  lemma GetStep(v: View, alloc: BA.Alloc, asked: seq<BA.Step>, grants: seq<Grant>, step: BA.Step, g: Grant)
    requires IsView(v, alloc, asked, grants) && BA.Inv(alloc) && BA.Enabled(alloc, step) && step.Get?
    requires g.tenant == step.t && g.blk == BA.Found(alloc, step.start).blk
    ensures IsView(Longer(v, step, BA.Next(alloc, step)), BA.Next(alloc, step), asked + [step], grants + [g])
  {
    Extend(v.steps, v.states, step);
    var v', asked', grants' := Longer(v, step, BA.Next(alloc, step)), asked + [step], grants + [g];
    forall i: nat | i < |v'.gets|
      ensures GrantedAt(v', i, asked', grants') && v'.gets[i] <= |v.steps|
    {
      if i < |v.gets| {
        assert GrantedAt(v, i, asked, grants);
        StillGranted(v, step, BA.Next(alloc, step), i, asked, grants, asked', grants');
      } else {
        BT.GetsIs(alloc, step.t, step.start, step.duration, g.blk);
      }
    }
    BeforeNow(v, alloc, asked, grants);
    forall k | 0 <= k < |v'.steps| && v'.steps[k].Get?
      ensures k in v'.gets
    {
      if k < |v.steps| {
        assert v.steps[k].Get?;
      } else {
        assert v'.gets[|v.gets|] == k;
      }
    }
  }

  lemma BeforeNow(v: View, alloc: BA.Alloc, asked: seq<BA.Step>, grants: seq<Grant>)
    requires IsView(v, alloc, asked, grants)
    ensures forall i :: 0 <= i < |v.gets| ==> v.gets[i] < |v.steps|
  {
    forall i: nat | i < |v.gets|
      ensures v.gets[i] < |v.steps|
    {
      assert GrantedAt(v, i, asked, grants);
    }
  }

  /** Telling tenants to go takes them out of the notify set, one after another. */
  lemma {:induction false} TellAll(v: View, alloc: BA.Alloc, asked: seq<BA.Step>, grants: seq<Grant>, now: set<Tenant>)
    returns (v': View)
    requires IsView(v, alloc, asked, grants) && BA.Shape(alloc) && now <= alloc.notify
    ensures IsView(v', alloc.(notify := alloc.notify - now), asked, grants)
    decreases now
  {
    if now == {} {
      v' := v;
      assert alloc.(notify := alloc.notify - now) == alloc;
    } else {
      var t :| t in now;
      QuietStep(v, alloc, asked, grants, BA.Notify(t));
      var alloc' := BA.Next(alloc, BA.Notify(t));
      v' := TellAll(Longer(v, BA.Notify(t), alloc'), alloc', asked, grants, now - {t});
      assert alloc'.notify - (now - {t}) == alloc.notify - now;
    }
  }

  // ---------------------------------------------------------------- one request

  /** A first request frees the old block, if there is one, and then allocates. */
  lemma RenewedView(v: View, s: State, asked: seq<BA.Step>, fd: Fd, start: Time, duration: Time) returns (v': View)
    requires Inv(s) && fd < |s.nodes| && s.nodes[fd].phase == Requested && AssertionsHold(s, fd, start)
    requires Fresh(s, fd) && IsView(v, s.alloc, asked, s.grants)
    ensures var s', x := Renewed(s, fd, start, duration), s.nodes[fd];
      IsView(v', s'.alloc, asked + [BA.Get(x.tenant, start, duration)], s'.grants)
  {
    var x, a := s.nodes[fd], AfterFree(s, fd);
    FreedAlloc(s, fd);
    FreshNode(s, fd);
    var v1 := v;
    if x.block != NO_BLOCK {
      QuietStep(v, s.alloc, asked, s.grants, BA.Free(x.block));
      v1 := Longer(v, BA.Free(x.block), a);
    }
    BA.AllocReady(a, x.tenant, start);
    var step, g := BA.Get(x.tenant, start, duration), Grant(x.tenant, x.batch, BA.Found(a, start).blk);
    GetStep(v1, a, asked, s.grants, step, g);
    v' := Longer(v1, step, BA.Next(a, step));
  }

  lemma TellView(v: View, s: State, asked: seq<BA.Step>) returns (v': View)
    requires BA.Shape(s.alloc) && IsView(v, s.alloc, asked, s.grants)
    ensures IsView(v', Notified(s).alloc, asked, s.grants)
  {
    v' := TellAll(v, s.alloc, asked, s.grants, GoesNow(s));
  }

  lemma ServedView(v: View, s: State, asked: seq<BA.Step>, fd: Fd, start: Time, duration: Time) returns (v': View)
    requires Inv(s) && fd < |s.nodes| && s.nodes[fd].phase == Requested && AssertionsHold(s, fd, start)
    requires IsView(v, s.alloc, asked, s.grants)
    ensures var s' := Served(s, fd, start, duration);
      IsView(v', s'.alloc, asked +
        if Fresh(s, fd) then [BA.Get(s.nodes[fd].tenant, start, duration)] else [], s'.grants)
  {
    var asked' := asked + if Fresh(s, fd) then [BA.Get(s.nodes[fd].tenant, start, duration)] else [];
    var s1 := Renewed(s, fd, start, duration);
    RenewedStep(s, fd, start, duration);
    v' := v;
    if Fresh(s, fd) {
      v' := RenewedView(v, s, asked, fd, start, duration);
    } else {
      assert asked' == asked;
    }
    var s2 := Answered(s1, fd);
    if |InfoOf(s2, s.nodes[fd].tenant).fds| == |Members(s2, s.nodes[fd].tenant)| {
      v' := TellView(v', s2, asked');
    }
  }

  // ---------------------------------------------------------------- every run

  /** Every run of the control plane contains a run of the allocator with exactly the allocations asked for. */
  lemma {:induction false} RunHasView(tenants: seq<Tenant>, steps: seq<Step>, states: seq<State>, n: nat)
    returns (v: View)
    requires IsRun(tenants, steps, states) && n < |states|
    ensures IsView(v, states[n].alloc, AskedFor(steps, states, n), states[n].grants)
  {
    if n == 0 {
      v := View([], [BA.Init()], []);
    } else {
      var s, step, asked := states[n - 1], steps[n - 1], AskedFor(steps, states, n - 1);
      v := RunHasView(tenants, steps, states, n - 1);
      ReachableInv(tenants, steps, states, n - 1);
      if step.Serve? {
        v := ServedView(v, s, asked, step.fd, step.start, step.duration);
      } else {
        assert asked + [] == asked;
      }
    }
  }

  /** Block `b` fits the request at least as well as `b'`, by when they are free in this run of the allocator. */
  ghost predicate FitsBetter(v: View, k: nat, start: Time, b: Block, b': Block) {
    && BA.IsRun(v.steps, v.states) && k < |v.steps|
    && var est, est' := BT.Finish(v.steps, v.states, b, k), BT.Finish(v.steps, v.states, b', k);
       if BT.Fits(b, est, start)
       then BT.Fits(b', est', start) ==> BT.Before(b', est', b, est)
       else !BT.Fits(b', est', start) && BT.Before(b, est, b', est')
  }

  /** In every run the block granted to a request is the one that fits it best. */
  lemma GrantsFitBest(tenants: seq<Tenant>, steps: seq<Step>, states: seq<State>, n: nat, i: nat, b: Block)
    returns (v: View)
    requires IsRun(tenants, steps, states) && n < |states| && i < |states[n].grants| && b < BA.N_BLOCKS
    ensures IsView(v, states[n].alloc, AskedFor(steps, states, n), states[n].grants)
    ensures AskedFor(steps, states, n)[i].Get?
    ensures FitsBetter(v, v.gets[i], AskedFor(steps, states, n)[i].start, states[n].grants[i].blk, b)
  {
    v := RunHasView(tenants, steps, states, n);
    assert GrantedAt(v, i, AskedFor(steps, states, n), states[n].grants);
    var k := v.gets[i];
    BA.ReachableInv(v.steps, v.states, k);
    BT.BestFitInRun(v.steps, v.states, k, states[n].grants[i].blk, b);
  }
}
