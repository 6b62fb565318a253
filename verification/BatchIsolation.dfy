/**
  What a batch owes to its own packets. With nodes that wait for their packets, the values a tenant has
  in the switch and the replies its nodes get are those of the operations sent for this very batch. Once
  all nodes have loaded their keys the batch starts from the tenant's rows, whatever was there before.
 */
module BatchIsolation {
  import opened ControlPlane
  import opened Tenancy
  import BA = BlockAllocator
  import HS = HotStore
  import HL = HotLoad
  import HotCold
  import Packet

  /** This act executes a packet that was sent for batch `b` of the tenant. */
  predicate IsForBatch(w: World, act: Act, t: Tenant, b: nat) {
    act.Execute? && act.i < |w.under| && w.under[act.i].who == t && w.under[act.i].batch == b
  }

  /** The operations executed between two moments that were sent for batch `b` of the tenant. */
  function BatchOps(acts: seq<Act>, worlds: seq<World>, m: nat, n: nat, t: Tenant, b: nat): seq<HotCold.HotOp>
    requires m <= n <= |acts| && |worlds| == |acts| + 1
  {
    if m == n then [] else
      BatchOps(acts, worlds, m, n - 1, t, b) +
      if IsForBatch(worlds[n - 1], acts[n - 1], t, b) then worlds[n - 1].under[acts[n - 1].i].ops else []
  }

  /** The tenant's values at moment `n`, as the batch it works on since `m` makes them. */
  ghost function BatchValues(plans: Plans, acts: seq<Act>, worlds: seq<World>, m: nat, n: nat, t: Tenant)
    : map<HotCold.Key, nat>
    requires m <= n <= |acts| && |worlds| == |acts| + 1
  {
    var v, b := InBatch(plans, worlds[m], t), InfoOf(worlds[m].cp, t).batch;
    HS.Exec(HS.Values(v, worlds[m].regs), BatchOps(acts, worlds, m, n, t, b))
  }

  /** As long as a tenant works on a batch, only packets sent for this batch change its values. */
  ghost predicate BatchIsolated(plans: Plans, acts: seq<Act>, worlds: seq<World>) {
    forall m: nat, n: nat, t: Tenant :: |worlds| == |acts| + 1 && SameBatch(worlds, m, n, t) ==>
      BatchIsolatedBetween(plans, acts, worlds, m, n, t)
  }

  ghost predicate BatchIsolatedBetween(plans: Plans, acts: seq<Act>, worlds: seq<World>, m: nat, n: nat, t: Tenant)
    requires |worlds| == |acts| + 1 && m <= n < |worlds|
  {
    HS.Values(InBatch(plans, worlds[m], t), worlds[n].regs) == BatchValues(plans, acts, worlds, m, n, t)
  }

  /** Act `n` executes a packet for the batch that its tenant has worked on since moment `m`. */
  ghost predicate BatchReply(acts: seq<Act>, worlds: seq<World>, m: nat, n: nat) {
    && |worlds| == |acts| + 1 && n < |acts| && acts[n].Execute? && acts[n].i < |worlds[n].under|
    && var p := worlds[n].under[acts[n].i];
       SameBatch(worlds, m, n, p.who) && p.batch == InfoOf(worlds[m].cp, p.who).batch
  }

  /** Replies to packets of a batch are what the operations sent for this batch left. */
  ghost predicate RepliesBatchIsolated(plans: Plans, acts: seq<Act>, worlds: seq<World>) {
    forall m: nat, n: nat :: BatchReply(acts, worlds, m, n) ==> BatchReplyBetween(plans, acts, worlds, m, n)
  }

  ghost predicate BatchReplyBetween(plans: Plans, acts: seq<Act>, worlds: seq<World>, m: nat, n: nat)
    requires BatchReply(acts, worlds, m, n)
  {
    var p := worlds[n].under[acts[n].i];
    AnswersAll(p, acts[n].d, BatchValues(plans, acts, worlds, m, n, p.who))
  }

  /** Some tenant has a key in the first slots of a register, which are those that a block has. */
  ghost predicate SomeHotKey(plans: Plans) {
    exists t: Tenant, k :: BA.IsTenant(t) && HS.HotSlot(plans(t), k)
  }

  // ---------------------------------------------------------------- nodes that wait

  lemma FromAppend(sent: seq<HS.Sent>, p: HS.Sent, who: Tenant)
    ensures HS.From(sent + [p], who) == HS.From(sent, who) + if p.who == who then p.ops else []
  {
    assert (sent + [p])[..|sent|] == sent;
  }

  /** Everything a tenant has executed while it works on a batch was sent for this batch. */
  lemma {:induction false} OpsAreOfBatch(plans: Plans, tenants: seq<Tenant>, acts: seq<Act>, worlds: seq<World>,
                                         m: nat, n: nat, t: Tenant)
    requires IsHistory(true, plans, tenants, acts, worlds) && SameBatch(worlds, m, n, t)
    ensures BatchOps(acts, worlds, m, n, t, InfoOf(worlds[m].cp, t).batch) == HS.From(ExecutedIn(acts, worlds, m, n), t)
  {
    if m < n {
      BatchesGrow(true, plans, tenants, acts, worlds, m, n - 1, t);
      BatchesGrow(true, plans, tenants, acts, worlds, n - 1, n, t);
      OpsAreOfBatch(plans, tenants, acts, worlds, m, n - 1, t);
      if acts[n - 1].Execute? {
        OwnsNext(plans, tenants, acts, worlds, m, n - 1, t);
        FromAppend(ExecutedIn(acts, worlds, m, n - 1), ExecutedBy(worlds[n - 1], acts[n - 1]), t);
      } else {
        assert ExecutedIn(acts, worlds, m, n) == ExecutedIn(acts, worlds, m, n - 1);
      }
    }
  }

  lemma WaitingKeepsBatch(plans: Plans, tenants: seq<Tenant>, acts: seq<Act>, worlds: seq<World>, m: nat, n: nat,
                          t: Tenant)
    requires IsHistory(true, plans, tenants, acts, worlds) && SameBatch(worlds, m, n, t)
    ensures BatchIsolatedBetween(plans, acts, worlds, m, n, t)
  {
    OpsAreOfBatch(plans, tenants, acts, worlds, m, n, t);
    BatchIsIsolated(plans, tenants, acts, worlds, m, n, t);
  }

  lemma WaitingKeepsReplies(plans: Plans, tenants: seq<Tenant>, acts: seq<Act>, worlds: seq<World>, m: nat, n: nat)
    requires IsHistory(true, plans, tenants, acts, worlds) && BatchReply(acts, worlds, m, n)
    ensures BatchReplyBetween(plans, acts, worlds, m, n)
  {
    var p := worlds[n].under[acts[n].i];
    WaitingKeepsBatch(plans, tenants, acts, worlds, m, n, p.who);
    ReplyToPacket(true, plans, tenants, acts, worlds, n);
    OwnsNext(plans, tenants, acts, worlds, m, n, p.who);
  }

  // ---------------------------------------------------------------- tenants without hot keys

  lemma NoValues(plans: Plans, v: HS.Tenant, regs: Packet.Store)
    requires HS.TenantOk(v) && forall k :: !HS.HotSlot(v.plan, k)
    ensures HS.Values(v, regs) == map[]
  {
    forall k | k in v.plan.virt
      ensures !HS.HotKey(v, k)
    {
      HS.HotSlotIs(v, k);
    }
  }

  lemma NothingToSend(plans: Plans, p: Flying)
    requires FlyingOk(plans, p) && !SomeHotKey(plans)
    ensures p.ops == []
  {
    if p.ops != [] {
      HS.HotSlotIs(p.t, p.ops[0].op.id);
      assert false;
    }
  }

  lemma {:induction false} NoBatchOps(waits: bool, plans: Plans, tenants: seq<Tenant>, acts: seq<Act>,
                                      worlds: seq<World>, m: nat, n: nat, t: Tenant, b: nat)
    requires IsHistory(waits, plans, tenants, acts, worlds) && !SomeHotKey(plans) && m <= n <= |acts|
    ensures BatchOps(acts, worlds, m, n, t, b) == []
  {
    if m < n {
      NoBatchOps(waits, plans, tenants, acts, worlds, m, n - 1, t, b);
      if IsForBatch(worlds[n - 1], acts[n - 1], t, b) {
        ReachableFlying(waits, plans, tenants, acts, worlds, n - 1);
        NothingToSend(plans, worlds[n - 1].under[acts[n - 1].i]);
      }
    }
  }

  lemma ColdBatch(waits: bool, plans: Plans, tenants: seq<Tenant>, acts: seq<Act>, worlds: seq<World>, m: nat,
                  n: nat, t: Tenant)
    requires IsHistory(waits, plans, tenants, acts, worlds) && !SomeHotKey(plans) && SameBatch(worlds, m, n, t)
    ensures BatchIsolatedBetween(plans, acts, worlds, m, n, t)
  {
    ReachableWorld(waits, plans, tenants, acts, worlds, m);
    InBatchOk(plans, worlds[m], t);
    NoBatchOps(waits, plans, tenants, acts, worlds, m, n, t, InfoOf(worlds[m].cp, t).batch);
    NoValues(plans, InBatch(plans, worlds[m], t), worlds[m].regs);
    NoValues(plans, InBatch(plans, worlds[m], t), worlds[n].regs);
  }

  lemma ColdReply(waits: bool, plans: Plans, tenants: seq<Tenant>, acts: seq<Act>, worlds: seq<World>, m: nat, n: nat)
    requires IsHistory(waits, plans, tenants, acts, worlds) && !SomeHotKey(plans) && BatchReply(acts, worlds, m, n)
    ensures BatchReplyBetween(plans, acts, worlds, m, n)
  {
    ReachableFlying(waits, plans, tenants, acts, worlds, n);
    NothingToSend(plans, worlds[n].under[acts[n].i]);
  }

  /** Batches are isolated if nodes wait for their packets, and trivially if nothing is hot. */
  lemma BatchesAreIsolated(waits: bool, plans: Plans, tenants: seq<Tenant>, acts: seq<Act>, worlds: seq<World>)
    requires (waits || !SomeHotKey(plans)) && IsHistory(waits, plans, tenants, acts, worlds)
    ensures BatchIsolated(plans, acts, worlds) && RepliesBatchIsolated(plans, acts, worlds)
  {
    forall m: nat, n: nat, t: Tenant | SameBatch(worlds, m, n, t)
      ensures BatchIsolatedBetween(plans, acts, worlds, m, n, t)
    {
      if waits {
        WaitingKeepsBatch(plans, tenants, acts, worlds, m, n, t);
      } else {
        ColdBatch(waits, plans, tenants, acts, worlds, m, n, t);
      }
    }
    forall m: nat, n: nat | BatchReply(acts, worlds, m, n)
      ensures BatchReplyBetween(plans, acts, worlds, m, n)
    {
      if waits {
        WaitingKeepsReplies(plans, tenants, acts, worlds, m, n);
      } else {
        ColdReply(waits, plans, tenants, acts, worlds, m, n);
      }
    }
  }

  // ---------------------------------------------------------------- a batch starts from its rows

  /** The rows of the tenant's hot keys. */
  function RowValues(v: HS.Tenant, rows: HL.Rows): map<HotCold.Key, nat> {
    map k | k in v.plan.virt && HS.HotKey(v, k) :: rows(k)
  }

  /** Every hot key is some node's own, and the start packets of all nodes carried these keys. */
  ghost predicate AllLoaded(v: HS.Tenant, locals: seq<HotCold.Key -> bool>, keys: seq<HotCold.Key>) {
    && (forall n :: 0 <= n < |locals| ==> HL.HasLoaded(v, locals[n], keys))
    && (forall k :: HS.HotKey(v, k) ==> exists n :: 0 <= n < |locals| && locals[n](k))
  }

  lemma LoadedRow(v: HS.Tenant, rows: HL.Rows, locals: seq<HotCold.Key -> bool>, keys: seq<HotCold.Key>,
                  kv: map<HotCold.Key, nat>, k: HotCold.Key)
    requires HS.TenantOk(v) && AllLoaded(v, locals, keys) && k in kv && HS.HotKey(v, k)
    ensures var after := HS.Exec(kv, HL.FillAll(v, true, rows, keys)); k in after && after[k] == rows(k)
  {
    var n :| 0 <= n < |locals| && locals[n](k);
    HL.AllLocalKeys(v, locals[n], k);
    assert HL.HasLoaded(v, locals[n], keys);
    HL.ExecLoad(v, rows, kv, keys, k);
  }

  lemma AreRows(v: HS.Tenant, rows: HL.Rows, kv: map<HotCold.Key, nat>)
    requires kv.Keys == RowValues(v, rows).Keys && forall k :: k in kv ==> kv[k] == rows(k)
    ensures kv == RowValues(v, rows)
  {
  }

  /** The batch has been loaded by moment `n`: what was executed for it are start packets of all nodes. */
  ghost predicate IsLoaded(plans: Plans, acts: seq<Act>, worlds: seq<World>, m: nat, n: nat, t: Tenant,
                           rows: HL.Rows, locals: seq<HotCold.Key -> bool>, keys: seq<HotCold.Key>)
    requires m <= n <= |acts| && |worlds| == |acts| + 1
  {
    var v := InBatch(plans, worlds[m], t);
    && AllLoaded(v, locals, keys)
    && BatchOps(acts, worlds, m, n, t, InfoOf(worlds[m].cp, t).batch) == HL.FillAll(v, true, rows, keys)
  }

  lemma ValuesAreRows(plans: Plans, tenants: seq<Tenant>, acts: seq<Act>, worlds: seq<World>, m: nat, n: nat, t: Tenant,
                      rows: HL.Rows, locals: seq<HotCold.Key -> bool>, keys: seq<HotCold.Key>)
    requires IsHistory(true, plans, tenants, acts, worlds) && SameBatch(worlds, m, n, t)
    requires IsLoaded(plans, acts, worlds, m, n, t, rows, locals, keys)
    ensures var v := InBatch(plans, worlds[m], t); HS.Values(v, worlds[n].regs) == RowValues(v, rows)
  {
    var v := InBatch(plans, worlds[m], t);
    ReachableWorld(true, plans, tenants, acts, worlds, m);
    InBatchOk(plans, worlds[m], t);
    WaitingKeepsBatch(plans, tenants, acts, worlds, m, n, t);
    forall k | k in HS.Values(v, worlds[n].regs)
      ensures HS.Values(v, worlds[n].regs)[k] == rows(k)
    {
      LoadedRow(v, rows, locals, keys, HS.Values(v, worlds[m].regs), k);
    }
    AreRows(v, rows, HS.Values(v, worlds[n].regs));
  }

  /** The batch goes on from moment `j`. */
  lemma BatchGoesOn(plans: Plans, tenants: seq<Tenant>, acts: seq<Act>, worlds: seq<World>, m: nat, j: nat, n: nat,
                    t: Tenant)
    requires IsHistory(true, plans, tenants, acts, worlds) && SameBatch(worlds, m, n, t) && m <= j <= n
    ensures SameBatch(worlds, m, j, t) && SameBatch(worlds, j, n, t)
    ensures InBatch(plans, worlds[j], t) == InBatch(plans, worlds[m], t)
  {
    BatchesGrow(true, plans, tenants, acts, worlds, m, j, t);
    BatchesGrow(true, plans, tenants, acts, worlds, j, n, t);
    StillGoing(true, plans, tenants, acts, worlds, m, j, t);
  }

  /**
    In every history in which nodes wait for their packets: once the batch is loaded, at moment `j`, the
    tenant's values are what the operations sent for the batch make of its rows. What the switch held
    when the batch began, and for whom, does not matter.
   */
  lemma BatchStartsFromRows(plans: Plans, tenants: seq<Tenant>, acts: seq<Act>, worlds: seq<World>,
                            m: nat, j: nat, n: nat, t: Tenant,
                            rows: HL.Rows, locals: seq<HotCold.Key -> bool>, keys: seq<HotCold.Key>)
    requires IsHistory(true, plans, tenants, acts, worlds) && SameBatch(worlds, m, n, t) && m <= j <= n
    requires IsLoaded(plans, acts, worlds, m, j, t, rows, locals, keys)
    ensures var v, b := InBatch(plans, worlds[m], t), InfoOf(worlds[m].cp, t).batch;
      HS.Values(v, worlds[n].regs) == HS.Exec(RowValues(v, rows), BatchOps(acts, worlds, j, n, t, b))
  {
    BatchGoesOn(plans, tenants, acts, worlds, m, j, n, t);
    ValuesAreRows(plans, tenants, acts, worlds, m, j, t, rows, locals, keys);
    WaitingKeepsBatch(plans, tenants, acts, worlds, j, n, t);
  }

  /** And so is every reply. */
  lemma RepliesStartFromRows(plans: Plans, tenants: seq<Tenant>, acts: seq<Act>, worlds: seq<World>,
                             m: nat, j: nat, n: nat,
                             rows: HL.Rows, locals: seq<HotCold.Key -> bool>, keys: seq<HotCold.Key>)
    requires IsHistory(true, plans, tenants, acts, worlds) && BatchReply(acts, worlds, m, n) && m <= j <= n
    requires IsLoaded(plans, acts, worlds, m, j, worlds[n].under[acts[n].i].who, rows, locals, keys)
    ensures var p := worlds[n].under[acts[n].i];
      AnswersAll(p, acts[n].d, HS.Exec(RowValues(p.t, rows), BatchOps(acts, worlds, j, n, p.who, p.batch)))
  {
    var p := worlds[n].under[acts[n].i];
    BatchStartsFromRows(plans, tenants, acts, worlds, m, j, n, p.who, rows, locals, keys);
    ReplyToPacket(true, plans, tenants, acts, worlds, n);
    OwnsNext(plans, tenants, acts, worlds, m, n, p.who);
  }
}
