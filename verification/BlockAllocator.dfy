/**
  The switch-memory allocator of the control plane: blocks ordered by estimated finish time, one
  queue of tenants per block, and the set of tenants to be told that their block is theirs.
 */
module BlockAllocator {
  type Tenant = nat
  type Block = nat
  type Time = nat

  const N_BLOCKS: nat := 32
  const N_MAX_TENANTS: nat := 150
  const NO_TENANT: Tenant := 0

  // ---------------------------------------------------------------- blocks by finish time

  datatype Meta = Meta(blk: Block, est: Time)

  predicate Less(a: Meta, b: Meta) {
    if a.est == b.est then a.blk < b.blk else a.est < b.est
  }

  predicate Ordered(ms: seq<Meta>) {
    forall i, j :: 0 <= i < j < |ms| ==> Less(ms[i], ms[j])
  }

  /** The number of entries not after `q`. */
  function UpperBound(ms: seq<Meta>, q: Meta): (u: nat)
    ensures u <= |ms|
  {
    if ms == [] || Less(q, ms[0]) then 0 else 1 + UpperBound(ms[1..], q)
  }

  lemma {:induction false} UpperBoundIs(ms: seq<Meta>, q: Meta)
    ensures var u := UpperBound(ms, q); (u < |ms| ==> Less(q, ms[u])) && forall i :: 0 <= i < u ==> !Less(q, ms[i])
  {
    if ms != [] && !Less(q, ms[0]) {
      UpperBoundIs(ms[1..], q);
      assert forall i :: 0 < i < UpperBound(ms, q) ==> ms[i] == ms[1..][i - 1];
    }
  }

  /** The last entry not after the start time, or else the first of all. */
  function Chosen(ms: seq<Meta>, start: Time): (i: nat)
    ensures ms != [] ==> i < |ms|
  {
    var u := UpperBound(ms, Meta(0, start));
    if u == 0 then 0 else u - 1
  }

  function Later(m: Meta, start: Time, duration: Time): Meta {
    m.(est := start + duration + (if m.est >= start then m.est - start else 0))
  }

  function Without(ms: seq<Meta>, i: nat): seq<Meta>
    requires i < |ms|
  {
    ms[..i] + ms[i + 1..]
  }

  function Insert(ms: seq<Meta>, m: Meta): seq<Meta> {
    var u := UpperBound(ms, m);
    ms[..u] + [m] + ms[u..]
  }

  /**
    The chosen block is the best fit: of the blocks estimated to be free by `start` none is free
    later than it; only if there is none is it one that is not, and then the earliest of all.
   */
  lemma ChosenIsBestFit(ms: seq<Meta>, start: Time, j: nat)
    requires Ordered(ms) && j < |ms|
    ensures var c := ms[Chosen(ms, start)];
      && (ms[j].est < start ==> c.est <= start && ms[j].est <= c.est)
      && (c.est > start ==> c.est <= ms[j].est && ms[j].est >= start)
  {
    var u, q := UpperBound(ms, Meta(0, start)), Meta(0, start);
    UpperBoundIs(ms, q);
    if j >= u {
      assert Less(q, ms[j]) by {
        assert Less(q, ms[u]);
        assert j > u ==> Less(ms[u], ms[j]);
      }
    } else if j < u - 1 {
      assert Less(ms[j], ms[u - 1]);
    }
  }

  // ---------------------------------------------------------------- the allocator's state

  datatype Alloc = Alloc(sorted: seq<Meta>, queue: seq<seq<Tenant>>, waiting: seq<nat>, notify: set<Tenant>)

  predicate IsTenant(t: Tenant) {
    t != NO_TENANT && t < N_MAX_TENANTS
  }

  predicate Shape(a: Alloc) {
    |a.sorted| == |a.queue| == N_BLOCKS && |a.waiting| == N_MAX_TENANTS
  }

  function Init(): Alloc {
    Alloc(seq(N_BLOCKS, i requires i >= 0 => Meta(i, 0)), seq(N_BLOCKS, i => []), seq(N_MAX_TENANTS, i => 0), {})
  }

  function Found(a: Alloc, start: Time): Meta
    requires Shape(a)
  {
    a.sorted[Chosen(a.sorted, start)]
  }

  function DoAlloc(a: Alloc, t: Tenant, start: Time, duration: Time): Alloc
    requires Shape(a) && IsTenant(t) && Found(a, start).blk < N_BLOCKS
  {
    var i := Chosen(a.sorted, start);
    var m := a.sorted[i];
    var busy := a.queue[m.blk] != [];
    Alloc(Insert(Without(a.sorted, i), Later(m, start, duration)),
          a.queue[m.blk := a.queue[m.blk] + [t]],
          if busy then a.waiting[t := 1] else a.waiting,
          if busy then a.notify else a.notify + {t})
  }

  /** `n_waiting` is an unsigned 64-bit word. */
  function Less1(n: nat): nat {
    if n == 0 then 0xFFFF_FFFF_FFFF_FFFF else n - 1
  }

  function DoFree(a: Alloc, b: Block): Alloc
    requires Shape(a) && b < N_BLOCKS && a.queue[b] != []
    requires |a.queue[b]| > 1 ==> a.queue[b][1] < N_MAX_TENANTS
  {
    var rest := a.queue[b][1..];
    var a' := a.(queue := a.queue[b := rest]);
    if rest == [] then a' else
      var next := rest[0];
      var n := Less1(a.waiting[next]);
      a'.(waiting := a.waiting[next := n], notify := if n == 0 then a.notify + {next} else a.notify)
  }

  // ---------------------------------------------------------------- the invariant

  ghost predicate OnePerBlock(ms: seq<Meta>) {
    && (forall i :: 0 <= i < |ms| ==> ms[i].blk < N_BLOCKS)
    && (forall i, j :: 0 <= i < j < |ms| ==> ms[i].blk != ms[j].blk)
  }

  /** Tenant `t` is at position `i` of the queue of block `b`. */
  predicate At(a: Alloc, b: Block, i: nat, t: Tenant) {
    b < |a.queue| && i < |a.queue[b]| && a.queue[b][i] == t
  }

  ghost predicate Queued(a: Alloc, t: Tenant) {
    exists b: nat, i: nat :: At(a, b, i, t)
  }

  ghost predicate InOneQueue(a: Alloc) {
    forall b: nat, i: nat, b': nat, i': nat, t: Tenant :: At(a, b, i, t) && At(a, b', i', t) ==> b == b' && i == i'
  }

  ghost predicate WaitingInv(a: Alloc)
    requires Shape(a)
  {
    && (forall b: nat, i: nat, t: Tenant :: At(a, b, i, t) ==> IsTenant(t) && a.waiting[t] == if i > 0 then 1 else 0)
    && (forall t: Tenant :: t < N_MAX_TENANTS && a.waiting[t] != 0 ==> Queued(a, t))
  }

  ghost predicate Inv(a: Alloc) {
    Shape(a) && Ordered(a.sorted) && OnePerBlock(a.sorted) && InOneQueue(a) && WaitingInv(a)
  }

  ghost predicate HeadsBlock(a: Alloc, t: Tenant) {
    exists b: nat :: At(a, b, 0, t)
  }

  ghost predicate NotifiesHeads(a: Alloc) {
    forall t :: t in a.notify ==> HeadsBlock(a, t)
  }

  // ---------------------------------------------------------------- the ordered set

  lemma WithoutKeeps(ms: seq<Meta>, i: nat)
    requires Ordered(ms) && OnePerBlock(ms) && i < |ms|
    ensures Ordered(Without(ms, i)) && OnePerBlock(Without(ms, i))
    ensures forall j :: 0 <= j < |ms| - 1 ==> Without(ms, i)[j] == ms[if j < i then j else j + 1]
    ensures forall j :: 0 <= j < |ms| - 1 ==> Without(ms, i)[j].blk != ms[i].blk
  {
  }

  lemma InsertedAt(ms: seq<Meta>, m: Meta)
    requires Ordered(ms) && forall j :: 0 <= j < |ms| ==> ms[j].blk != m.blk
    ensures var u, r := UpperBound(ms, m), Insert(ms, m);
      && |r| == |ms| + 1
      && (forall j :: 0 <= j < |r| ==> r[j] == if j < u then ms[j] else if j == u then m else ms[j - 1])
      && (forall j :: 0 <= j < |ms| ==> if j < u then Less(ms[j], m) else Less(m, ms[j]))
  {
    var u := UpperBound(ms, m);
    UpperBoundIs(ms, m);
    forall j | u < j < |ms|
      ensures Less(m, ms[j])
    {
      assert Less(ms[u], ms[j]);
    }
  }

  lemma InsertOrdered(ms: seq<Meta>, m: Meta)
    requires Ordered(ms) && forall j :: 0 <= j < |ms| ==> ms[j].blk != m.blk
    ensures Ordered(Insert(ms, m))
  {
    InsertedAt(ms, m);
    var u, r := UpperBound(ms, m), Insert(ms, m);
    forall i, j | 0 <= i < j < |r|
      ensures Less(r[i], r[j])
    {
      if i < u && j > u {
        assert Less(ms[i], ms[j - 1]);
      }
    }
  }

  lemma InsertKeeps(ms: seq<Meta>, m: Meta)
    requires Ordered(ms) && OnePerBlock(ms) && m.blk < N_BLOCKS && forall j :: 0 <= j < |ms| ==> ms[j].blk != m.blk
    ensures Ordered(Insert(ms, m)) && OnePerBlock(Insert(ms, m)) && |Insert(ms, m)| == |ms| + 1
  {
    InsertOrdered(ms, m);
    InsertedAt(ms, m);
  }

  /** Entries after an allocation: the chosen block's with its new estimate, and the others as they were. */
  lemma InsertContents(ms: seq<Meta>, m: Meta, x: Meta)
    ensures x in Insert(ms, m) <==> x in ms || x == m
  {
    var u := UpperBound(ms, m);
    assert ms == ms[..u] + ms[u..];
  }

  lemma WithoutContents(ms: seq<Meta>, i: nat, x: Meta)
    requires OnePerBlock(ms) && i < |ms|
    ensures x in Without(ms, i) <==> x in ms && x != ms[i]
  {
    assert ms == ms[..i] + [ms[i]] + ms[i + 1..];
  }

  // ---------------------------------------------------------------- allocating

  lemma AllocSorted(a: Alloc, t: Tenant, start: Time, duration: Time)
    requires Shape(a) && Ordered(a.sorted) && OnePerBlock(a.sorted) && IsTenant(t)
    ensures var a' := DoAlloc(a, t, start, duration);
      |a'.sorted| == N_BLOCKS && Ordered(a'.sorted) && OnePerBlock(a'.sorted)
  {
    var i := Chosen(a.sorted, start);
    WithoutKeeps(a.sorted, i);
    InsertKeeps(Without(a.sorted, i), Later(a.sorted[i], start, duration));
  }

  lemma AllocAt(a: Alloc, t: Tenant, start: Time, duration: Time)
    requires Inv(a) && IsTenant(t)
    ensures var a', b0 := DoAlloc(a, t, start, duration), Found(a, start).blk;
      forall b: nat, i: nat, t': Tenant :: At(a', b, i, t') <==>
        At(a, b, i, t') || (b == b0 && i == |a.queue[b0]| && t' == t)
  {
  }

  lemma AllocKeepsInv(a: Alloc, t: Tenant, start: Time, duration: Time)
    requires Inv(a) && IsTenant(t) && !Queued(a, t)
    ensures Inv(DoAlloc(a, t, start, duration)) && a.waiting[t] == 0
  {
    var a', b0 := DoAlloc(a, t, start, duration), Found(a, start).blk;
    AllocSorted(a, t, start, duration);
    AllocAt(a, t, start, duration);
    forall t': Tenant | t' < N_MAX_TENANTS && a'.waiting[t'] != 0
      ensures Queued(a', t')
    {
      if t' == t {
        assert At(a', b0, |a.queue[b0]|, t);
      } else {
        var b: nat, i: nat :| At(a, b, i, t');
        assert At(a', b, i, t');
      }
    }
  }

  /** No block's estimate ever decreases: it is that of the chosen block or stays. */
  lemma EstimatesGrow(a: Alloc, t: Tenant, start: Time, duration: Time, m: Meta, m': Meta)
    requires Inv(a) && IsTenant(t) && m in a.sorted && m' in DoAlloc(a, t, start, duration).sorted && m.blk == m'.blk
    ensures m'.est >= m.est
    ensures m.blk == Found(a, start).blk ==> m'.est >= m.est + duration && m'.est >= start + duration
    ensures m.blk != Found(a, start).blk ==> m' == m
  {
    var i := Chosen(a.sorted, start);
    var c := a.sorted[i];
    InsertContents(Without(a.sorted, i), Later(c, start, duration), m');
    WithoutContents(a.sorted, i, m');
    SameBlockSameEntry(a.sorted, m, if m' in a.sorted then m' else c);
    if m.blk == c.blk {
      SameBlockSameEntry(a.sorted, m, c);
    }
  }

  lemma SameBlockSameEntry(ms: seq<Meta>, x: Meta, y: Meta)
    requires OnePerBlock(ms) && x in ms && y in ms
    ensures x.blk == y.blk ==> x == y
  {
  }

  // ---------------------------------------------------------------- freeing

  lemma FreeAt(a: Alloc, b0: Block)
    requires Inv(a) && b0 < N_BLOCKS && a.queue[b0] != []
    ensures |a.queue[b0]| > 1 ==> IsTenant(a.queue[b0][1]) && a.waiting[a.queue[b0][1]] == 1
    ensures var a' := DoFree(a, b0);
      forall b: nat, i: nat, t: Tenant :: At(a', b, i, t) <==> At(a, b, if b == b0 then i + 1 else i, t)
  {
    if |a.queue[b0]| > 1 {
      assert At(a, b0, 1, a.queue[b0][1]);
    }
  }

  lemma FreeKeepsInv(a: Alloc, b0: Block)
    requires Inv(a) && b0 < N_BLOCKS && a.queue[b0] != []
    ensures |a.queue[b0]| > 1 ==> IsTenant(a.queue[b0][1])
    ensures Inv(DoFree(a, b0))
  {
    FreeAt(a, b0);
    var a' := DoFree(a, b0);
    forall b: nat, i: nat, t: Tenant | At(a', b, i, t)
      ensures IsTenant(t) && a'.waiting[t] == if i > 0 then 1 else 0
    {
      assert At(a, b, if b == b0 then i + 1 else i, t);
      if |a.queue[b0]| > 1 {
        assert At(a, b0, 1, a.queue[b0][1]);
      }
    }
    assert At(a, b0, 0, a.queue[b0][0]);
    forall t: Tenant | t < N_MAX_TENANTS && a'.waiting[t] != 0
      ensures Queued(a', t)
    {
      var b: nat, i: nat :| At(a, b, i, t);
      assert At(a', b, if b == b0 then i - 1 else i, t);
    }
  }

  // ---------------------------------------------------------------- runs

  datatype Step = Get(t: Tenant, start: Time, duration: Time) | Free(b: Block) | Notify(t: Tenant)

  /** Tenants hold at most one block and free the block they head. */
  ghost predicate Enabled(a: Alloc, step: Step) {
    && Shape(a)
    && match step
       case Get(t, start, duration) => IsTenant(t) && !Queued(a, t) && Found(a, start).blk < N_BLOCKS
       case Free(b) => b < N_BLOCKS && a.queue[b] != [] && (|a.queue[b]| > 1 ==> a.queue[b][1] < N_MAX_TENANTS)
       case Notify(t) => t in a.notify
  }

  ghost function Next(a: Alloc, step: Step): Alloc
    requires Enabled(a, step)
  {
    match step
    case Get(t, start, duration) => DoAlloc(a, t, start, duration)
    case Free(b) => DoFree(a, b)
    case Notify(t) => a.(notify := a.notify - {t})
  }

  ghost predicate IsRun(steps: seq<Step>, states: seq<Alloc>) {
    && |states| == |steps| + 1 && states[0] == Init()
    && forall n: nat :: n < |steps| ==> StepAt(steps, states, n)
  }

  ghost predicate StepAt(steps: seq<Step>, states: seq<Alloc>, n: nat) {
    n < |steps| && n + 1 < |states| && Enabled(states[n], steps[n]) && states[n + 1] == Next(states[n], steps[n])
  }

  lemma NextKeepsInv(a: Alloc, step: Step)
    requires Inv(a) && Enabled(a, step)
    ensures Inv(Next(a, step))
  {
    match step
    case Get(t, start, duration) => AllocKeepsInv(a, t, start, duration);
    case Free(b) => FreeKeepsInv(a, b);
    case Notify(t) =>
      assert forall b: nat, i: nat, t': Tenant :: At(Next(a, step), b, i, t') <==> At(a, b, i, t');
      forall t' | Queued(a, t')
        ensures Queued(Next(a, step), t')
      {
        var b: nat, i: nat :| At(a, b, i, t');
        assert At(Next(a, step), b, i, t');
      }
  }

  lemma InitInv()
    ensures Inv(Init())
  {
  }

  /**
    In every such run: one entry per block, each tenant in at most one queue, and `n_waiting` 1 for
    those behind the head of their queue and 0 for everybody else.
   */
  lemma {:induction false} ReachableInv(steps: seq<Step>, states: seq<Alloc>, n: nat)
    requires IsRun(steps, states) && n < |states|
    ensures Inv(states[n])
  {
    if n == 0 {
      InitInv();
    } else {
      ReachableInv(steps, states, n - 1);
      assert StepAt(steps, states, n - 1);
      NextKeepsInv(states[n - 1], steps[n - 1]);
    }
  }

  // ---------------------------------------------------------------- one entry for each block

  lemma {:induction false} RangeSize(n: nat, a: set<nat>)
    requires forall x :: x in a ==> x < n
    ensures |a| <= n && (|a| == n ==> forall x: nat :: x < n ==> x in a)
  {
    if n > 0 {
      var a' := a - {n - 1};
      RangeSize(n - 1, a');
      if n - 1 in a {
        assert a == a' + {n - 1};
      } else {
        assert a == a';
      }
    }
  }

  ghost function BlocksOf(ms: seq<Meta>, n: nat): set<Block>
    requires n <= |ms|
  {
    if n == 0 then {} else BlocksOf(ms, n - 1) + {ms[n - 1].blk}
  }

  lemma {:induction false} BlocksOfSize(ms: seq<Meta>, n: nat)
    requires OnePerBlock(ms) && n <= |ms|
    ensures |BlocksOf(ms, n)| == n
    ensures forall b :: b in BlocksOf(ms, n) ==> b < N_BLOCKS && exists i :: 0 <= i < n && ms[i].blk == b
  {
    if n > 0 {
      BlocksOfSize(ms, n - 1);
    }
  }

  /** Every block has exactly one entry in the ordered set. */
  lemma EveryBlockOnce(a: Alloc, b: Block)
    requires Inv(a) && b < N_BLOCKS
    ensures exists i ::
      && 0 <= i < |a.sorted| && a.sorted[i].blk == b
      && forall j :: 0 <= j < |a.sorted| && j != i ==> a.sorted[j].blk != b
  {
    var n := |a.sorted|;
    BlocksOfSize(a.sorted, n);
    RangeSize(n, BlocksOf(a.sorted, n));
    assert b in BlocksOf(a.sorted, n);
    var i :| 0 <= i < n && a.sorted[i].blk == b;
    assert forall j :: 0 <= j < |a.sorted| && j != i ==> a.sorted[j].blk != b;
  }

  // ---------------------------------------------------------------- who is told

  /** Freeing keeps the promise that only heads are to be told exactly if the one who frees has been told. */
  lemma FreeNotifies(a: Alloc, b0: Block)
    requires Inv(a) && NotifiesHeads(a) && b0 < N_BLOCKS && a.queue[b0] != []
    ensures |a.queue[b0]| > 1 ==> IsTenant(a.queue[b0][1])
    ensures NotifiesHeads(DoFree(a, b0)) <==> a.queue[b0][0] !in a.notify
  {
    FreeAt(a, b0);
    var a', t0 := DoFree(a, b0), a.queue[b0][0];
    assert At(a, b0, 0, t0);
    assert !HeadsBlock(a', t0);
    if t0 !in a.notify {
      forall t | t in a'.notify
        ensures HeadsBlock(a', t)
      {
        if t in a.notify {
          var b: nat :| At(a, b, 0, t);
          assert At(a', b, 0, t);
        } else {
          assert At(a', b0, 0, t);
        }
      }
    }
  }

  lemma AllocNotifies(a: Alloc, t: Tenant, start: Time, duration: Time)
    requires Inv(a) && NotifiesHeads(a) && IsTenant(t) && !Queued(a, t)
    ensures NotifiesHeads(DoAlloc(a, t, start, duration))
  {
    var a', b0 := DoAlloc(a, t, start, duration), Found(a, start).blk;
    AllocAt(a, t, start, duration);
    forall t' | t' in a'.notify
      ensures HeadsBlock(a', t')
    {
      if t' in a.notify {
        var b: nat :| At(a, b, 0, t');
        assert At(a', b, 0, t');
      } else {
        assert At(a', b0, 0, t');
      }
    }
  }

  /** Tenants free a block only after having been told that it is theirs. */
  ghost predicate FreesAfterNotice(steps: seq<Step>, states: seq<Alloc>)
    requires IsRun(steps, states)
  {
    forall n: nat :: n < |steps| ==> !FreesTooEarly(states[n], steps[n])
  }

  /** The tenant that heads the block frees it and is still to be told. */
  predicate FreesTooEarly(a: Alloc, step: Step) {
    step.Free? && step.b < |a.queue| && a.queue[step.b] != [] && a.queue[step.b][0] in a.notify
  }

  lemma {:induction false} OnlyHeadsAreTold(steps: seq<Step>, states: seq<Alloc>, n: nat)
    requires IsRun(steps, states) && FreesAfterNotice(steps, states) && n < |states|
    ensures NotifiesHeads(states[n])
  {
    if n > 0 {
      OnlyHeadsAreTold(steps, states, n - 1);
      ReachableInv(steps, states, n - 1);
      assert StepAt(steps, states, n - 1) && !FreesTooEarly(states[n - 1], steps[n - 1]);
      var a, step := states[n - 1], steps[n - 1];
      match step
      case Get(t, start, duration) => AllocNotifies(a, t, start, duration);
      case Free(b) => FreeNotifies(a, b);
      case Notify(t) =>
        forall t' | t' in states[n].notify
          ensures HeadsBlock(states[n], t')
        {
          var b: nat :| At(a, b, 0, t');
          assert At(states[n], b, 0, t');
        }
    }
  }

  /** In a run only heads are ever to be told if and only if every free follows the notice. */
  lemma OnlyHeadsIff(steps: seq<Step>, states: seq<Alloc>)
    requires IsRun(steps, states)
    ensures (forall n :: 0 <= n < |states| ==> NotifiesHeads(states[n])) <==> FreesAfterNotice(steps, states)
  {
    if FreesAfterNotice(steps, states) {
      forall n | 0 <= n < |states|
        ensures NotifiesHeads(states[n])
      {
        OnlyHeadsAreTold(steps, states, n);
      }
    } else {
      var n: nat :| n < |steps| && FreesTooEarly(states[n], steps[n]);
      ReachableInv(steps, states, n);
      assert StepAt(steps, states, n);
      if NotifiesHeads(states[n]) {
        FreeNotifies(states[n], steps[n].b);
        assert !NotifiesHeads(states[n + 1]);
      }
    }
  }

  /** Any tenant that frees its block before it was told is still to be told, though it heads nothing. */
  lemma EarlyFreeToldTooLate(t: Tenant, start: Time, duration: Time) returns (steps: seq<Step>, states: seq<Alloc>)
    requires IsTenant(t)
    ensures IsRun(steps, states) && |steps| == 2 && t in states[2].notify && !HeadsBlock(states[2], t)
  {
    var a := Init();
    InitInv();
    assert !Queued(a, t);
    var b := Found(a, start).blk;
    var a' := DoAlloc(a, t, start, duration);
    AllocKeepsInv(a, t, start, duration);
    AllocAt(a, t, start, duration);
    assert At(a', b, 0, t);
    var a'' := DoFree(a', b);
    FreeAt(a', b);
    steps, states := [Get(t, start, duration), Free(b)], [a, a', a''];
  }

  // ---------------------------------------------------------------- waiting for one's turn

  ghost function FreesOf(steps: seq<Step>, b: Block, i: nat, j: nat): nat
    requires i <= j <= |steps|
  {
    if i == j then 0 else FreesOf(steps, b, i, j - 1) + (if steps[j - 1] == Free(b) then 1 else 0)
  }

  lemma NextPosition(a: Alloc, step: Step, b: Block, p: nat, t: Tenant)
    requires Inv(a) && Enabled(a, step) && At(a, b, p, t) && (step == Free(b) ==> p > 0)
    ensures At(Next(a, step), b, if step == Free(b) then p - 1 else p, t)
  {
    match step
    case Get(t', start, duration) => AllocAt(a, t', start, duration);
    case Free(b') => FreeAt(a, b');
    case Notify(_) =>
  }

  lemma PositionStep(steps: seq<Step>, states: seq<Alloc>, n: nat, b: Block, p: nat, t: Tenant)
    requires IsRun(steps, states) && n < |steps| && At(states[n], b, p, t) && (steps[n] == Free(b) ==> p > 0)
    ensures At(states[n + 1], b, if steps[n] == Free(b) then p - 1 else p, t)
  {
    ReachableInv(steps, states, n);
    assert StepAt(steps, states, n);
    NextPosition(states[n], steps[n], b, p, t);
  }

  /** One place nearer with every free of the block, and with nothing else. */
  lemma {:induction false} PositionFalls(steps: seq<Step>, states: seq<Alloc>, i: nat, j: nat, b: Block, p: nat,
                                         t: Tenant)
    requires IsRun(steps, states) && i <= j < |states| && At(states[i], b, p, t) && FreesOf(steps, b, i, j) <= p
    ensures At(states[j], b, p - FreesOf(steps, b, i, j), t)
    decreases j
  {
    if i < j {
      PositionFalls(steps, states, i, j - 1, b, p, t);
      PositionStep(steps, states, j - 1, b, p - FreesOf(steps, b, i, j - 1), t);
    }
  }

  /** A tenant at position p heads its block, and is to be told so, after exactly p frees of it. */
  lemma ReadyAfterExactly(steps: seq<Step>, states: seq<Alloc>, i: nat, j: nat, b: Block, p: nat, t: Tenant)
    requires IsRun(steps, states) && i < j < |states| && At(states[i], b, p, t) && steps[j - 1] == Free(b)
    requires 0 < FreesOf(steps, b, i, j) <= p
    ensures HeadsBlock(states[j], t) <==> FreesOf(steps, b, i, j) == p
    ensures FreesOf(steps, b, i, j) == p ==>
      t in states[j].notify && t < |states[j].waiting| && states[j].waiting[t] == 0
  {
    PositionFalls(steps, states, i, j - 1, b, p, t);
    ReachableInv(steps, states, j - 1);
    assert StepAt(steps, states, j - 1);
    HeadAfterFree(states[j - 1], b, p - FreesOf(steps, b, i, j - 1), t);
  }

  /** Who is second on a block when it is freed heads it then and is to be told; nobody further behind does. */
  lemma HeadAfterFree(a: Alloc, b: Block, q: nat, t: Tenant)
    requires Inv(a) && Enabled(a, Free(b)) && At(a, b, q, t) && q > 0
    ensures var a' := DoFree(a, b);
      && (HeadsBlock(a', t) <==> q == 1)
      && (q == 1 ==> t in a'.notify && t < |a'.waiting| && a'.waiting[t] == 0)
  {
    FreeAt(a, b);
    FreeKeepsInv(a, b);
    assert At(DoFree(a, b), b, q - 1, t);
  }

  // ---------------------------------------------------------------- the allocator itself

  lemma AllocReady(a: Alloc, t: Tenant, start: Time)
    requires Inv(a) && IsTenant(t) && !Queued(a, t)
    ensures Shape(a) && Found(a, start).blk < N_BLOCKS && a.waiting[t] == 0
  {
  }

  lemma AllocFacts(a: Alloc, t: Tenant, start: Time, duration: Time)
    requires Inv(a) && IsTenant(t) && !Queued(a, t)
    ensures Shape(a) && Found(a, start).blk < N_BLOCKS && a.waiting[t] == 0 && Inv(DoAlloc(a, t, start, duration))
  {
    AllocReady(a, t, start);
    AllocKeepsInv(a, t, start, duration);
  }

  class Allocator {
    var sorted: seq<Meta>
    var queue: seq<seq<Tenant>>
    var waiting: seq<nat>
    var notify: set<Tenant>

    function Abs(): Alloc
      reads this
    {
      Alloc(sorted, queue, waiting, notify)
    }

    /** `handle_init`. */
    constructor ()
      ensures Abs() == Init() && Inv(Abs())
    {
      sorted := [];
      queue := seq(N_BLOCKS, i => []);
      waiting := seq(N_MAX_TENANTS, i => 0);
      notify := {};
      new;
      for i := 0 to N_BLOCKS
        invariant Abs() == Init().(sorted := seq(i, j requires j >= 0 => Meta(j, 0)))
      {
        AppendLast(sorted, Meta(i, 0));
        sorted := Insert(sorted, Meta(i, 0));
      }
      InitInv();
    }

    /** Takes the best-fitting block out of the order and puts it back with its new estimate. */
    method Reschedule(start: Time, duration: Time) returns (found: Meta)
      requires sorted != []
      modifies this`sorted
      ensures var i := Chosen(old(sorted), start);
        && found == Later(old(sorted)[i], start, duration)
        && sorted == Insert(Without(old(sorted), i), found)
    {
      var it := UpperBound(sorted, Meta(0, start));
      if it != 0 {
        it := it - 1;
      }
      found := sorted[it];
      sorted := Without(sorted, it);
      found := found.(est := start + duration + (if found.est >= start then found.est - start else 0));
      sorted := Insert(sorted, found);
    }

    method Enqueue(t: Tenant, b: Block)
      requires b < |queue| && t < |waiting|
      modifies this`queue, this`waiting, this`notify
      ensures queue == old(queue)[b := old(queue)[b] + [t]]
      ensures waiting == if old(queue)[b] != [] then old(waiting)[t := 1] else old(waiting)
      ensures notify == if old(queue)[b] != [] then old(notify) else old(notify) + {t}
    {
      if queue[b] != [] {
        waiting := waiting[t := 1];
      } else {
        notify := notify + {t};
      }
      queue := queue[b := queue[b] + [t]];
    }

    method Take(t: Tenant, start: Time, duration: Time) returns (b: Block)
      requires Shape(Abs()) && IsTenant(t) && Found(Abs(), start).blk < N_BLOCKS
      modifies this
      ensures Abs() == DoAlloc(old(Abs()), t, start, duration) && b == Found(old(Abs()), start).blk
    {
      var found := Reschedule(start, duration);
      Enqueue(t, found.blk);
      b := found.blk;
    }

    method HandleAlloc(t: Tenant, now: Time, delay: Time, duration: Time) returns (b: Block)
      requires Inv(Abs()) && IsTenant(t) && !Queued(Abs(), t)
      modifies this
      ensures Inv(Abs()) && Abs() == DoAlloc(old(Abs()), t, now + delay, duration)
      ensures b == Found(old(Abs()), now + delay).blk && b < N_BLOCKS
    {
      AllocFacts(Abs(), t, now + delay, duration);
      assert waiting[t] == 0;
      b := Take(t, now + delay, duration);
    }

    method HandleFree(t: Tenant, b: Block)
      requires Inv(Abs()) && b < N_BLOCKS && queue[b] != [] && queue[b][0] == t
      modifies this
      ensures old(Abs()).queue[b] != [] && (|old(Abs()).queue[b]| > 1 ==> old(Abs()).queue[b][1] < N_MAX_TENANTS)
      ensures Inv(Abs()) && Abs() == DoFree(old(Abs()), b)
    {
      FreeAt(Abs(), b);
      FreeKeepsInv(Abs(), b);
      queue := queue[b := queue[b][1..]];
      if |queue[b]| > 0 {
        var next := queue[b][0];
        assert waiting[next] == 1;
        waiting := waiting[next := waiting[next] - 1];
        if waiting[next] == 0 {
          notify := notify + {next};
        }
      }
    }
  }

  lemma {:induction false} AppendLast(ms: seq<Meta>, m: Meta)
    requires forall j :: 0 <= j < |ms| ==> !Less(m, ms[j])
    ensures Insert(ms, m) == ms + [m]
  {
    UpperBoundIs(ms, m);
  }
}
