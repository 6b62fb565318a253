/**
  Waiting for packets is needed even by a tenant that shares nothing with others. If its node does not
  wait, a packet of one batch can be executed in the next one, on the same block, and changes values and
  replies there. So batches are isolated exactly if nodes wait or nothing is hot.
 */
module LateBatches {
  import BA = BlockAllocator
  import opened ControlPlane
  import opened Tenancy
  import opened LatePackets
  import opened BatchIsolation
  import HS = HotStore
  import HotCold
  import Packet

  // ---------------------------------------------------------------- the same block again

  /** The tenant that was told to go on the only block in use asks for its next batch. */
  ghost predicate AsksForMore(s: State, a: Tenant, blk: Block) {
    && |s.nodes| == 2 && s.nodes[0] == Node(a, Requested, 2, blk, s.nodes[0].inbox) && s.nodes[1].tenant != a
    && Going(s, a) && InfoOf(s, a).batch == 1 && InfoOf(s, a).blk == blk && OneUsed(s.alloc.sorted, blk, 1)
    && forall t: Tenant :: t != a ==> InfoOf(s, t).batch == 0
  }

  lemma SameBlock(s: State, a: Tenant, blk: Block)
    requires Inv(s) && AsksForMore(s, a, blk) && AssertionsHold(s, 0, 2)
    ensures var s' := Served(s, 0, 2, 0); InfoOf(s', a).batch == 2 && InfoOf(s', a).blk == blk
  {
    FreedAlloc(s, 0);
    FirstServed(s, 0, 2, 0);
    assert AfterFree(s, 0).sorted == s.alloc.sorted;
    PicksUsed(AfterFree(s, 0), blk, 1, 2);
  }

  lemma OthersStillIdle(s: State, a: Tenant, blk: Block)
    requires AsksForMore(s, a, blk) && AssertionsHold(s, 0, 2)
    ensures forall t: Tenant :: t != a ==> InfoOf(Served(s, 0, 2, 0), t).batch == 0
  {
    forall t: Tenant | t != a
      ensures InfoOf(Served(s, 0, 2, 0), t).batch == 0
    {
      OthersKeepInfo(s, 0, 2, 0, t);
    }
  }

  lemma GoesOn(s: State, a: Tenant)
    requires Inv(s) && History(s) && |s.nodes| == 2 && s.nodes[0].tenant == a != s.nodes[1].tenant
    requires s.nodes[0].batch == 2 == InfoOf(s, a).batch && s.nodes[0].phase == AwaitResp
    requires forall t: Tenant :: t != a ==> InfoOf(s, t).batch == 0
    ensures Going(s, a)
  {
    GoesAlone(s, 0);
  }

  lemma ServedAgain(s: State, s': State, a: Tenant, blk: Block)
    requires Inv(s) && AsksForMore(s, a, blk) && AssertionsHold(s, 0, 2) && s' == Served(s, 0, 2, 0) && Inv(s')
    requires History(s')
    ensures |s'.nodes| == 2 && s'.nodes[0].tenant == a && s'.nodes[0].phase == AwaitResp && s'.nodes[0].batch == 2
    ensures Going(s', a) && InfoOf(s', a).batch == 2 && InfoOf(s', a).blk == blk
  {
    SameBlock(s, a, blk);
    OthersStillIdle(s, a, blk);
    ServedPhases(s, 0, 2, 0, 0);
    ServedPhases(s, 0, 2, 0, 1);
    GoesOn(s', a);
  }

  // ---------------------------------------------------------------- a packet is left over

  lemma AskedForMore(w: World, w': World, a: Tenant, b: Tenant, blk: Block)
    requires FirstIsOn(w, a, b, blk) && w.cp.nodes[0].block == blk && HasAsked(w, w', 0)
    ensures AsksForMore(w'.cp, a, blk)
  {
    assert forall t: Tenant :: InfoOf(w'.cp, t) == InfoOf(w.cp, t);
  }

  /** The first tenant is served for its second batch, with whatever it has under way. */
  lemma NextBatch(plans: Plans, tenants: seq<Tenant>, acts: seq<Act>, worlds: seq<World>, w: World, a: Tenant,
                  blk: Block)
    returns (acts': seq<Act>, worlds': seq<World>, w': World)
    requires Reaches(plans, tenants, acts, worlds, w) && WorldInv(w) && AsksForMore(w.cp, a, blk) && w.arrived == [1, 0]
    ensures Reaches(plans, tenants, acts', worlds', w') && WorldInv(w') && InHotPeriod(w', 0)
    ensures w'.cp.nodes[0].tenant == a && w'.cp.nodes[0].batch == 2 && w'.cp.nodes[0].block == blk
    ensures w'.under == w.under && w'.regs == w.regs
  {
    RequestsAreSafe(w.cp, 0, 2);
    var w1;
    acts', worlds', w1 := GoControl(plans, tenants, acts, worlds, w, Serve(0, 2, 0));
    ServedAgain(w.cp, w1.cp, a, blk);
    acts', worlds', w' := TakesUp(plans, tenants, acts', worlds', w1, 0);
  }

  /** A packet of batch 1 is under way while its tenant is in the hot period of batch 2. */
  lemma IsLeftOver(plans: Plans, a: Tenant, b: Tenant, k: HotCold.Key)
    returns (acts: seq<Act>, worlds: seq<World>, w: World)
    requires PlansOk(plans) && BA.IsTenant(a) && BA.IsTenant(b) && a != b && HS.HotSlot(plans(a), k)
    ensures Reaches(plans, [a, b], acts, worlds, w) && WriteAhead(plans, w, 0, k, k)
    ensures w.cp.nodes[0].tenant == a == w.under[0].who && w.cp.nodes[0].batch == 2 && w.under[0].batch == 1
  {
    var w0, w1, w2, blk;
    acts, worlds, w0, blk := FirstGoes(plans, a, b);
    HotTenantOk(plans, w0, 0);
    var t := TenantOf(plans, w0, 0);
    assert HS.OpsOk(t, [WriteOp(t, k, 1)]) by {
      WriteOpOk(t, k, 1);
    }
    acts, worlds, w1 := GoSend(plans, [a, b], acts, worlds, w0, 0, [WriteOp(t, k, 1)]);
    acts, worlds, w2 := AsksAgain(plans, [a, b], acts, worlds, w1, 0);
    assert HasAsked(w0, w2.(under := []), 0);
    AskedForMore(w0, w2.(under := []), a, b, blk);
    acts, worlds, w := NextBatch(plans, [a, b], acts, worlds, w2, a, blk);
  }

  // ---------------------------------------------------------------- batches are not isolated

  ghost predicate BatchIsolatedRun(waits: bool, plans: Plans, tenants: seq<Tenant>, acts: seq<Act>, worlds: seq<World>)
  {
    IsHistory(waits, plans, tenants, acts, worlds) ==> BatchIsolated(plans, acts, worlds)
  }

  ghost predicate AlwaysBatchIsolated(waits: bool, plans: Plans) {
    forall tenants, acts, worlds :: BatchIsolatedRun(waits, plans, tenants, acts, worlds)
  }

  ghost predicate BatchRepliesRun(waits: bool, plans: Plans, tenants: seq<Tenant>, acts: seq<Act>, worlds: seq<World>) {
    IsHistory(waits, plans, tenants, acts, worlds) ==> RepliesBatchIsolated(plans, acts, worlds)
  }

  ghost predicate AlwaysBatchReplies(waits: bool, plans: Plans) {
    forall tenants, acts, worlds :: BatchRepliesRun(waits, plans, tenants, acts, worlds)
  }

  /** The batch has nothing to do with what this act executes. */
  lemma NotOfBatch(acts: seq<Act>, worlds: seq<World>, m: nat, t: Tenant, b: nat)
    requires |worlds| == |acts| + 1 && m < |acts| && !IsForBatch(worlds[m], acts[m], t, b)
    ensures BatchOps(acts, worlds, m, m + 1, t, b) == []
  {
    assert BatchOps(acts, worlds, m, m, t, b) == [];
  }

  lemma ValuesOfOtherBatch(plans: Plans, tenants: seq<Tenant>, acts: seq<Act>, worlds: seq<World>, m: nat, fd: Fd,
                           k: HotCold.Key)
    requires |acts| == m + 1 && |worlds| == m + 2 && InHotPeriod(worlds[m], fd) && worlds[m + 1].cp == worlds[m].cp
    requires acts[m].Execute? && acts[m].i < |worlds[m].under|
    requires worlds[m].under[acts[m].i].batch != worlds[m].cp.nodes[fd].batch
    requires BecomesOne(TenantOf(plans, worlds[m], fd), k, worlds[m].regs, worlds[m + 1].regs)
    requires IsHistory(false, plans, tenants, acts, worlds)
    ensures !AlwaysBatchIsolated(false, plans)
  {
    var t := worlds[m].cp.nodes[fd].tenant;
    ReachableWorld(false, plans, tenants, acts, worlds, m);
    HotIsCurrent(worlds[m], fd);
    NotOfBatch(acts, worlds, m, t, worlds[m].cp.nodes[fd].batch);
    assert SameBatch(worlds, m, m + 1, t) && !BatchIsolatedBetween(plans, acts, worlds, m, m + 1, t);
    assert !BatchIsolatedRun(false, plans, tenants, acts, worlds);
  }

  lemma LeftOverWrites(plans: Plans, tenants: seq<Tenant>, acts: seq<Act>, worlds: seq<World>, w: World, fd: Fd,
                       k: HotCold.Key)
    requires Reaches(plans, tenants, acts, worlds, w)
    requires WriteAhead(plans, w, fd, k, k) && w.under[0].batch != w.cp.nodes[fd].batch
    ensures !AlwaysBatchIsolated(false, plans)
  {
    var acts', worlds', w', d := ExecutedLate(plans, tenants, acts, worlds, w, fd, k, k);
    assert BecomesOne(TenantOf(plans, w, fd), k, w.regs, w'.regs) by {
      LateIsSeen(plans, w, fd, k, k, w'.regs, d);
    }
    ValuesOfOtherBatch(plans, tenants, acts', worlds', |acts|, fd, k);
  }

  lemma RepliesOfOtherBatch(plans: Plans, acts: seq<Act>, worlds: seq<World>, m: nat, w: World, fd: Fd, k: HotCold.Key)
    requires AnsweredLate(plans, acts, worlds, m, w, fd, k) && WorldInv(w) && InHotPeriod(w, fd)
    requires w.under[0].batch != w.cp.nodes[fd].batch
    ensures !RepliesBatchIsolated(plans, acts, worlds)
  {
    HotIsCurrent(w, fd);
    var own := OwnPacket(plans, w, fd, k);
    assert worlds[m + 1].under[acts[m + 1].i] == own;
    NotOfBatch(acts, worlds, m, own.who, own.batch);
    assert BatchReply(acts, worlds, m, m + 1);
    assert own.ops[..0] == [];
    assert !AnswersAll(own, acts[m + 1].d, HS.Values(own.t, w.regs));
    assert !BatchReplyBetween(plans, acts, worlds, m, m + 1);
  }

  lemma LeftOverIsAnswered(plans: Plans, tenants: seq<Tenant>, acts: seq<Act>, worlds: seq<World>, w: World, fd: Fd,
                           k: HotCold.Key)
    requires Reaches(plans, tenants, acts, worlds, w)
    requires WriteAhead(plans, w, fd, k, k) && w.under[0].batch != w.cp.nodes[fd].batch
    ensures !AlwaysBatchReplies(false, plans)
  {
    var acts', worlds' := LateReply(plans, tenants, acts, worlds, w, fd, k, k);
    ReachableWorld(false, plans, tenants, acts, worlds, |acts|);
    RepliesOfOtherBatch(plans, acts', worlds', |acts| + 1, w, fd, k);
    assert !BatchRepliesRun(false, plans, tenants, acts', worlds');
  }

  lemma LateBatchFails(plans: Plans, a: Tenant, b: Tenant, k: HotCold.Key)
    requires PlansOk(plans) && BA.IsTenant(a) && BA.IsTenant(b) && a != b && HS.HotSlot(plans(a), k)
    ensures !AlwaysBatchIsolated(false, plans) && !AlwaysBatchReplies(false, plans)
  {
    var acts, worlds, w := IsLeftOver(plans, a, b, k);
    LeftOverWrites(plans, [a, b], acts, worlds, w, 0, k);
    LeftOverIsAnswered(plans, [a, b], acts, worlds, w, 0, k);
  }

  lemma NotAlwaysBatchIsolated(plans: Plans)
    requires PlansOk(plans) && SomeHotKey(plans)
    ensures !AlwaysBatchIsolated(false, plans) && !AlwaysBatchReplies(false, plans)
  {
    var a: Tenant, k :| BA.IsTenant(a) && HS.HotSlot(plans(a), k);
    LateBatchFails(plans, a, if a == 1 then 2 else 1, k);
  }

  /**
    In every history the values of a tenant in a batch, and the replies to the batch's packets, are those
    of the operations sent for this batch if and only if nodes wait for their packets or no tenant has a
    hot key.
   */
  lemma BatchIsolatedIff(waits: bool, plans: Plans)
    requires PlansOk(plans)
    ensures AlwaysBatchIsolated(waits, plans) <==> waits || !SomeHotKey(plans)
    ensures AlwaysBatchReplies(waits, plans) <==> waits || !SomeHotKey(plans)
  {
    if waits || !SomeHotKey(plans) {
      forall tenants, acts, worlds
        ensures BatchIsolatedRun(waits, plans, tenants, acts, worlds)
        ensures BatchRepliesRun(waits, plans, tenants, acts, worlds)
      {
        if IsHistory(waits, plans, tenants, acts, worlds) {
          BatchesAreIsolated(waits, plans, tenants, acts, worlds);
        }
      }
    } else {
      NotAlwaysBatchIsolated(plans);
    }
  }
}
