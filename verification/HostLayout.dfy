/**
  Where a node believes keys to live in the switch: each key, most used first, goes into the least
  loaded register and gets the next index there. The first indices of every register are the ones
  that a scheduled block has room for; which block that is only shifts them.
 */
module HostLayout {
  import opened SwitchModel
  import Layout
  import HotCold

  type Key = nat

  const N_REGISTERS: nat := 72
  const N_SW_LOCKS: nat := 32
  const SLOTS_PER_SCHED_BLOCK: nat := 32
  const NO_BLOCK: nat := 0xFFFF_FFFF
  const UINT16: nat := 0x1_0000
  const SIZE_T: nat := 0x1_0000_0000_0000_0000

  /** `lock` is `None` for `NO_LOCK`. */
  datatype Loc = Loc(reg: nat, idx: nat, freq: nat, lock: Option<nat>)

  datatype Slot = Slot(reg: nat, idx: nat)

  /** `virt` and `rev` are filled by `emplace`, which never replaces. */
  datatype Plan = Plan(weight: seq<nat>, next: seq<nat>, lockWeight: seq<nat>, virt: map<Key, Loc>, rev: map<Slot, Key>)

  predicate Sized(p: Plan) {
    |p.weight| == |p.next| == N_REGISTERS && |p.lockWeight| == N_SW_LOCKS
  }

  function Empty(): (p: Plan)
    ensures Sized(p)
  {
    Plan(seq(N_REGISTERS, i => 0), seq(N_REGISTERS, i => 0), seq(N_SW_LOCKS, i => 0), map[], map[])
  }

  function SlotOf(l: Loc): Slot {
    Slot(l.reg, l.idx)
  }

  /** The index is cut to 16 bits. The first key of a register needs no lock. */
  function NewLoc(p: Plan, k: Layout.KeyCt): Loc
    requires Sized(p)
  {
    var r := Layout.Lowest(p.weight, N_REGISTERS);
    var idx := p.next[r] % UINT16;
    Loc(r, idx, k.ct, if idx != 0 then Some(Layout.Lowest(p.lockWeight, N_SW_LOCKS)) else None)
  }

  function Emplace<K, V>(m: map<K, V>, k: K, v: V): map<K, V> {
    if k in m then m else m[k := v]
  }

  function Put(p: Plan, k: Layout.KeyCt): (p': Plan)
    requires Sized(p)
    ensures Sized(p')
  {
    var l := NewLoc(p, k);
    Plan(p.weight[l.reg := p.weight[l.reg] + k.ct],
         p.next[l.reg := p.next[l.reg] + 1],
         if l.lock.Some? then p.lockWeight[l.lock.value := p.lockWeight[l.lock.value] + k.ct] else p.lockWeight,
         Emplace(p.virt, k.key, l),
         Emplace(p.rev, SlotOf(l), k.key))
  }

  function PutAll(keys: seq<Layout.KeyCt>): (p: Plan)
    ensures Sized(p)
  {
    if keys == [] then Empty() else Put(PutAll(keys[..|keys| - 1]), keys[|keys| - 1])
  }

  // ---------------------------------------------------------------- the two maps

  predicate Distinct(keys: seq<Layout.KeyCt>) {
    forall i, j :: 0 <= i < j < |keys| ==> keys[i].key != keys[j].key
  }

  ghost predicate Inverse(p: Plan) {
    && (forall k :: k in p.virt ==> SlotOf(p.virt[k]) in p.rev && p.rev[SlotOf(p.virt[k])] == k)
    && (forall s :: s in p.rev ==> p.rev[s] in p.virt && SlotOf(p.virt[p.rev[s]]) == s)
  }

  /** No register was given more keys than a 16-bit index can tell apart. */
  ghost predicate Fits(p: Plan)
    requires Sized(p)
  {
    forall r :: 0 <= r < N_REGISTERS ==> p.next[r] <= UINT16
  }

  /** A key whose slot is taken by another key. */
  ghost predicate Shadowed(p: Plan, k: Key) {
    k in p.virt && SlotOf(p.virt[k]) in p.rev && p.rev[SlotOf(p.virt[k])] != k
  }

  /** The slots in use are the first ones of each register, and hold placed keys. */
  ghost predicate Inv(p: Plan) {
    && Sized(p)
    && (forall s: Slot :: s in p.rev <==> s.reg < N_REGISTERS && s.idx < UINT16 && s.idx < p.next[s.reg])
    && (forall s :: s in p.rev ==> p.rev[s] in p.virt)
    && (forall k :: k in p.virt ==> p.virt[k].reg < N_REGISTERS && p.virt[k].idx < UINT16)
    && (forall k :: k in p.virt ==> (p.virt[k].lock.None? <==> p.virt[k].idx == 0))
  }

  lemma PutKeepsInv(p: Plan, k: Layout.KeyCt)
    requires Inv(p) && k.key !in p.virt
    ensures Inv(Put(p, k)) && Put(p, k).virt.Keys == p.virt.Keys + {k.key}
    ensures Fits(Put(p, k)) ==> Fits(p)
  {
    var p' := Put(p, k);
    assert forall r :: 0 <= r < N_REGISTERS ==> p.next[r] <= p'.next[r];
  }

  /** Before a register is full a key finds a free slot. */
  lemma PutKeepsInverse(p: Plan, k: Layout.KeyCt)
    requires Inv(p) && k.key !in p.virt && Inverse(p) && Fits(Put(p, k))
    ensures Inverse(Put(p, k))
  {
    var l := NewLoc(p, k);
    assert Put(p, k).next[l.reg] <= UINT16;
    assert l.idx == p.next[l.reg];
  }

  /** After that it does not, and the key is shadowed by the one that is there. */
  lemma PutShadows(p: Plan, k: Layout.KeyCt)
    requires Inv(p) && k.key !in p.virt && Fits(p) && !Fits(Put(p, k))
    ensures Shadowed(Put(p, k), k.key)
  {
    var l := NewLoc(p, k);
    var r :| 0 <= r < N_REGISTERS && Put(p, k).next[r] > UINT16;
    assert r == l.reg && p.next[r] == UINT16;
    assert l.idx == 0;
  }

  lemma LastKey(keys: seq<Layout.KeyCt>)
    requires Distinct(keys) && keys != []
    ensures var n := |keys| - 1;
      && Distinct(keys[..n]) && keys[n].key !in Layout.KeySet(keys[..n])
      && Layout.KeySet(keys) == Layout.KeySet(keys[..n]) + {keys[n].key}
  {
    var n := |keys| - 1;
    forall k | k in Layout.KeySet(keys)
      ensures k in Layout.KeySet(keys[..n]) + {keys[n].key}
    {
      var i :| 0 <= i < |keys| && keys[i].key == k;
      assert i < n ==> keys[..n][i].key == k;
    }
    forall k | k in Layout.KeySet(keys[..n])
      ensures k in Layout.KeySet(keys) && k != keys[n].key
    {
      var i :| 0 <= i < n && keys[..n][i].key == k;
      assert keys[i].key == k;
    }
  }

  lemma {:induction false} PlanInv(keys: seq<Layout.KeyCt>)
    requires Distinct(keys)
    ensures Inv(PutAll(keys)) && PutAll(keys).virt.Keys == Layout.KeySet(keys)
  {
    if keys != [] {
      var n := |keys| - 1;
      LastKey(keys);
      PlanInv(keys[..n]);
      PutKeepsInv(PutAll(keys[..n]), keys[n]);
    }
  }

  lemma {:induction false} FitsIsInverse(keys: seq<Layout.KeyCt>)
    requires Distinct(keys) && Fits(PutAll(keys))
    ensures Inverse(PutAll(keys))
  {
    if keys != [] {
      var n := |keys| - 1;
      LastKey(keys);
      PlanInv(keys[..n]);
      PutKeepsInv(PutAll(keys[..n]), keys[n]);
      FitsIsInverse(keys[..n]);
      PutKeepsInverse(PutAll(keys[..n]), keys[n]);
    }
  }

  lemma {:induction false} OverfullShadows(keys: seq<Layout.KeyCt>) returns (k: Key)
    requires Distinct(keys) && !Fits(PutAll(keys))
    ensures Shadowed(PutAll(keys), k)
  {
    if keys == [] {
      assert false;
    } else {
      var n := |keys| - 1;
      LastKey(keys);
      PlanInv(keys[..n]);
      if Fits(PutAll(keys[..n])) {
        PutShadows(PutAll(keys[..n]), keys[n]);
        k := keys[n].key;
      } else {
        k := OverfullShadows(keys[..n]);
      }
    }
  }

  /** The two maps undo each other exactly if no register was given more than 65536 keys. */
  lemma InverseIffFits(keys: seq<Layout.KeyCt>)
    requires Distinct(keys)
    ensures Inverse(PutAll(keys)) <==> Fits(PutAll(keys))
  {
    if Fits(PutAll(keys)) {
      FitsIsInverse(keys);
    } else {
      var k := OverfullShadows(keys);
      assert Shadowed(PutAll(keys), k);
    }
  }

  // ---------------------------------------------------------------- looking up in a block

  /** A key that is not in the map is given an entry of zeros. */
  const UNKNOWN: Loc := Loc(0, 0, 0, Some(0))

  function LocOf(virt: map<Key, Loc>, k: Key): Loc {
    if k in virt then virt[k] else UNKNOWN
  }

  /** Hot keys are those with the first indices; the index within the register is cut to 16 bits. */
  function Location(virt: map<Key, Loc>, block: nat, k: Key): HotCold.Place {
    var l := LocOf(virt, k);
    HotCold.Place(l.idx < SLOTS_PER_SCHED_BLOCK, l.reg, (SLOTS_PER_SCHED_BLOCK * block + l.idx) % UINT16)
  }

  /** The subtraction is on 64 bits. */
  function RevLookup(rev: map<Slot, Key>, block: nat, reg: nat, idx: nat): Option<Key> {
    var s := Slot(reg, (idx - SLOTS_PER_SCHED_BLOCK * block) % SIZE_T);
    if s in rev then Some(rev[s]) else None
  }

  /** Blocks whose indices all fit into 16 bits. */
  const N_BLOCKS_16: nat := UINT16 / SLOTS_PER_SCHED_BLOCK

  lemma InBlock(virt: map<Key, Loc>, block: nat, k: Key)
    requires block < N_BLOCKS_16 && Location(virt, block, k).hot
    ensures var x := Location(virt, block, k);
      && x.idx == SLOTS_PER_SCHED_BLOCK * block + LocOf(virt, k).idx
      && SLOTS_PER_SCHED_BLOCK * block <= x.idx < SLOTS_PER_SCHED_BLOCK * (block + 1)
  {
  }

  /** In any block a hot key's location looks up that key, and only a key's own location does. */
  lemma LookupsUndoEachOther(p: Plan, block: nat, k: Key, reg: nat, idx: nat)
    requires Inv(p) && Inverse(p) && block < N_BLOCKS_16
    requires SLOTS_PER_SCHED_BLOCK * block <= idx < SLOTS_PER_SCHED_BLOCK * (block + 1)
    ensures RevLookup(p.rev, block, reg, idx) == Some(k) <==>
      k in p.virt && Location(p.virt, block, k) == HotCold.Place(true, reg, idx)
  {
    var v := idx - SLOTS_PER_SCHED_BLOCK * block;
    assert v % SIZE_T == v;
    if k in p.virt {
      var x := Location(p.virt, block, k);
      if x.hot {
        InBlock(p.virt, block, k);
      }
    }
  }

  /** Two hot keys never share a cell, in any block. */
  lemma HotKeysApart(p: Plan, block: nat, k: Key, k': Key)
    requires Inv(p) && Inverse(p) && block < N_BLOCKS_16 && k in p.virt && k' in p.virt && k != k'
    requires Location(p.virt, block, k).hot && Location(p.virt, block, k').hot
    ensures Location(p.virt, block, k) != Location(p.virt, block, k')
  {
    var x := Location(p.virt, block, k);
    InBlock(p.virt, block, k);
    LookupsUndoEachOther(p, block, k, x.reg, x.idx);
    LookupsUndoEachOther(p, block, k', x.reg, x.idx);
  }

  // ---------------------------------------------------------------- the layout object

  /** The first index with the least weight. */
  method FindLowest(weight: array<nat>) returns (low: nat)
    requires weight.Length > 0
    ensures low == Layout.Lowest(weight[..], weight.Length)
  {
    low := 0;
    for i := 0 to weight.Length
      invariant Layout.IsLowest(weight[..], low, i)
    {
      if weight[low] > weight[i] {
        low := i;
      }
    }
  }

  class DeclusteredLayout {
    var blockNum: nat
    var virt: map<Key, Loc>
    var rev: map<Slot, Key>

    constructor (sorted: seq<Layout.KeyCt>)
      ensures blockNum == NO_BLOCK && virt == PutAll(sorted).virt && rev == PutAll(sorted).rev
    {
      blockNum := NO_BLOCK;
      virt := map[];
      rev := map[];
      new;
      var weight, next := new nat[N_REGISTERS](i => 0), new nat[N_REGISTERS](i => 0);
      var lockWeight := new nat[N_SW_LOCKS](i => 0);
      assert Plan(weight[..], next[..], lockWeight[..], virt, rev) == Empty();
      for n := 0 to |sorted|
        invariant blockNum == NO_BLOCK
        invariant Plan(weight[..], next[..], lockWeight[..], virt, rev) == PutAll(sorted[..n])
      {
        assert sorted[..n + 1][..n] == sorted[..n];
        PlaceKey(weight, next, lockWeight, sorted[n]);
      }
      assert sorted[..|sorted|] == sorted;
    }

    method PlaceKey(weight: array<nat>, next: array<nat>, lockWeight: array<nat>, k: Layout.KeyCt)
      requires weight != next && next != lockWeight && lockWeight != weight
      requires weight.Length == next.Length == N_REGISTERS && lockWeight.Length == N_SW_LOCKS
      modifies this`virt, this`rev, weight, next, lockWeight
      ensures Plan(weight[..], next[..], lockWeight[..], virt, rev)
           == Put(old(Plan(weight[..], next[..], lockWeight[..], virt, rev)), k)
    {
      var low := FindLowest(weight);
      weight[low] := weight[low] + k.ct;
      var l := Loc(low, next[low] % UINT16, k.ct, None);
      next[low] := next[low] + 1;
      if l.idx != 0 {
        var lk := FindLowest(lockWeight);
        lockWeight[lk] := lockWeight[lk] + k.ct;
        l := l.(lock := Some(lk));
      }
      virt := Emplace(virt, k.key, l);
      rev := Emplace(rev, SlotOf(l), k.key);
    }

    /** `get_location`: looking up an unknown key leaves it in the map. */
    method GetLocation(k: Key) returns (x: HotCold.Place)
      modifies this`virt
      ensures x == Location(old(virt), blockNum, k) == Location(virt, blockNum, k)
      ensures virt == old(virt)[k := LocOf(old(virt), k)]
    {
      if k !in virt {
        virt := virt[k := UNKNOWN];
      }
      var l := virt[k];
      x := HotCold.Place(l.idx < SLOTS_PER_SCHED_BLOCK, l.reg, (SLOTS_PER_SCHED_BLOCK * blockNum + l.idx) % UINT16);
    }
  }
}
