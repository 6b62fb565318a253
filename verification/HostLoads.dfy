/**
  Where the node's layout puts keys, told by the finished map: every key is in the register that was used
  least by the keys before it, at the next index there, and has the lock that was used least. So all
  registers are used about equally often, and so are all locks.
 */
module HostLoads {
  import opened SwitchModel
  import opened HostLayout
  import Layout

  type KeyCt = Layout.KeyCt

  /** How often the keys of register `r` are used. */
  function Load(keys: seq<KeyCt>, virt: map<Key, Loc>, r: nat): nat {
    if keys == [] then 0 else
      var k := keys[|keys| - 1];
      Load(keys[..|keys| - 1], virt, r) + if k.key in virt && virt[k.key].reg == r then k.ct else 0
  }

  /** How often the keys with lock `l` are used. */
  function LockLoad(keys: seq<KeyCt>, virt: map<Key, Loc>, l: nat): nat {
    if keys == [] then 0 else
      var k := keys[|keys| - 1];
      LockLoad(keys[..|keys| - 1], virt, l) + if k.key in virt && virt[k.key].lock == Some(l) then k.ct else 0
  }

  /** How many keys register `r` has. */
  function Size(keys: seq<KeyCt>, virt: map<Key, Loc>, r: nat): nat {
    if keys == [] then 0 else
      var k := keys[|keys| - 1];
      Size(keys[..|keys| - 1], virt, r) + if k.key in virt && virt[k.key].reg == r then 1 else 0
  }

  function LargestCt(keys: seq<KeyCt>): nat {
    if keys == [] then 0 else
      var m, ct := LargestCt(keys[..|keys| - 1]), keys[|keys| - 1].ct;
      if ct > m then ct else m
  }

  // ---------------------------------------------------------------- the finished map and the loop's arrays

  ghost predicate SameOn(keys: seq<KeyCt>, virt: map<Key, Loc>, virt': map<Key, Loc>) {
    forall i :: 0 <= i < |keys| ==>
      keys[i].key in virt && keys[i].key in virt' && virt'[keys[i].key] == virt[keys[i].key]
  }

  lemma {:induction false} SameLoads(keys: seq<KeyCt>, virt: map<Key, Loc>, virt': map<Key, Loc>, r: nat)
    requires SameOn(keys, virt, virt')
    ensures Load(keys, virt', r) == Load(keys, virt, r) && Size(keys, virt', r) == Size(keys, virt, r)
    ensures LockLoad(keys, virt', r) == LockLoad(keys, virt, r)
  {
    if keys != [] {
      SameLoads(keys[..|keys| - 1], virt, virt', r);
    }
  }

  /** What is placed stays. */
  lemma PlacedStays(keys: seq<KeyCt>)
    requires Distinct(keys) && keys != []
    ensures var n := |keys| - 1;
      && Distinct(keys[..n]) && SameOn(keys[..n], PutAll(keys[..n]).virt, PutAll(keys).virt)
      && keys[n].key in PutAll(keys).virt && PutAll(keys).virt[keys[n].key] == NewLoc(PutAll(keys[..n]), keys[n])
  {
    var n := |keys| - 1;
    LastKey(keys);
    PlanInv(keys[..n]);
    forall i | 0 <= i < n
      ensures keys[i].key in PutAll(keys[..n]).virt
    {
      assert keys[..n][i].key in Layout.KeySet(keys[..n]);
    }
  }

  /** The arrays that the loop keeps are the loads and sizes of the map it builds. */
  lemma {:induction false} ArraysAreLoads(keys: seq<KeyCt>, r: nat)
    requires Distinct(keys)
    ensures var p := PutAll(keys);
      && (r < N_REGISTERS ==> p.weight[r] == Load(keys, p.virt, r) && p.next[r] == Size(keys, p.virt, r))
      && (r < N_SW_LOCKS ==> p.lockWeight[r] == LockLoad(keys, p.virt, r))
  {
    if keys != [] {
      var n := |keys| - 1;
      PlacedStays(keys);
      ArraysAreLoads(keys[..n], r);
      SameLoads(keys[..n], PutAll(keys[..n]).virt, PutAll(keys).virt, r);
    }
  }

  lemma {:induction false} PrefixStays(keys: seq<KeyCt>, n: nat)
    requires Distinct(keys) && n <= |keys|
    ensures Distinct(keys[..n]) && SameOn(keys[..n], PutAll(keys[..n]).virt, PutAll(keys).virt)
  {
    if n == |keys| {
      assert keys[..n] == keys;
      PlanInv(keys);
      forall i | 0 <= i < |keys|
        ensures keys[i].key in PutAll(keys).virt
      {
        assert keys[i].key in Layout.KeySet(keys);
      }
    } else {
      var rest := keys[..|keys| - 1];
      PlacedStays(keys);
      PrefixStays(rest, n);
      assert rest[..n] == keys[..n];
      assert forall i :: 0 <= i < n ==> rest[i] == keys[i];
    }
  }

  // ---------------------------------------------------------------- where a key goes

  lemma PlacedAs(keys: seq<KeyCt>, i: nat)
    requires Distinct(keys) && i < |keys|
    ensures keys[i].key in PutAll(keys).virt && Distinct(keys[..i])
    ensures PutAll(keys).virt[keys[i].key] == NewLoc(PutAll(keys[..i]), keys[i])
  {
    var upTo := keys[..i + 1];
    PrefixStays(keys, i + 1);
    PlacedStays(upTo);
    assert upTo[..i] == keys[..i] && upTo[i] == keys[i];
  }

  /** The loads before key `i` was placed, in terms of the finished map. */
  lemma LoadsBefore(keys: seq<KeyCt>, i: nat, r: nat)
    requires Distinct(keys) && i < |keys|
    ensures var p, virt := PutAll(keys[..i]), PutAll(keys).virt;
      && (r < N_REGISTERS ==> p.weight[r] == Load(keys[..i], virt, r) && p.next[r] == Size(keys[..i], virt, r))
      && (r < N_SW_LOCKS ==> p.lockWeight[r] == LockLoad(keys[..i], virt, r))
  {
    PrefixStays(keys, i);
    ArraysAreLoads(keys[..i], r);
    SameLoads(keys[..i], PutAll(keys[..i]).virt, PutAll(keys).virt, r);
  }

  /**
    Every key is in the first of the registers least used by the keys before it, at the index that is the
    number of keys there so far, cut to 16 bits, and knows how often it is used.
   */
  lemma PlacedWhereLeastUsed(keys: seq<KeyCt>, i: nat, r: nat)
    requires Distinct(keys) && i < |keys| && r < N_REGISTERS
    ensures keys[i].key in PutAll(keys).virt
    ensures var virt := PutAll(keys).virt; var l := virt[keys[i].key];
      && l.reg < N_REGISTERS && Load(keys[..i], virt, l.reg) <= Load(keys[..i], virt, r)
      && (r < l.reg ==> Load(keys[..i], virt, l.reg) < Load(keys[..i], virt, r))
      && l.idx == Size(keys[..i], virt, l.reg) % UINT16 && l.freq == keys[i].ct
  {
    var p := PutAll(keys[..i]);
    PlacedAs(keys, i);
    var low := Layout.Lowest(p.weight, N_REGISTERS);
    LoadsBefore(keys, i, r);
    LoadsBefore(keys, i, low);
    if r < low {
      Layout.LowestIsFirst(p.weight, N_REGISTERS, r);
    }
  }

  /** And it has the first of the locks least used before it, unless its index is 0. */
  lemma LockedWhereLeastUsed(keys: seq<KeyCt>, i: nat, l: nat)
    requires Distinct(keys) && i < |keys| && l < N_SW_LOCKS
    ensures keys[i].key in PutAll(keys).virt
    ensures var virt := PutAll(keys).virt; var x := virt[keys[i].key];
      && (x.idx == 0 <==> x.lock.None?)
      && (x.lock.Some? ==>
            && x.lock.value < N_SW_LOCKS && LockLoad(keys[..i], virt, x.lock.value) <= LockLoad(keys[..i], virt, l)
            && (l < x.lock.value ==> LockLoad(keys[..i], virt, x.lock.value) < LockLoad(keys[..i], virt, l)))
  {
    var p := PutAll(keys[..i]);
    PlacedAs(keys, i);
    var low := Layout.Lowest(p.lockWeight, N_SW_LOCKS);
    LoadsBefore(keys, i, l);
    LoadsBefore(keys, i, low);
    if l < low {
      Layout.LowestIsFirst(p.lockWeight, N_SW_LOCKS, l);
    }
  }

  // ---------------------------------------------------------------- balance

  lemma {:induction false} ArraysAreClose(keys: seq<KeyCt>, i: nat, j: nat)
    ensures var p := PutAll(keys);
      && (i < N_REGISTERS && j < N_REGISTERS ==> p.weight[i] <= p.weight[j] + LargestCt(keys))
      && (i < N_SW_LOCKS && j < N_SW_LOCKS ==> p.lockWeight[i] <= p.lockWeight[j] + LargestCt(keys))
  {
    if keys != [] {
      ArraysAreClose(keys[..|keys| - 1], i, j);
    }
  }

  /** The loads of any two registers differ by at most the largest count, and so do those of any two locks. */
  lemma LoadsAreBalanced(keys: seq<KeyCt>, i: nat, j: nat)
    requires Distinct(keys)
    ensures var virt := PutAll(keys).virt;
      && (i < N_REGISTERS && j < N_REGISTERS ==> Load(keys, virt, i) <= Load(keys, virt, j) + LargestCt(keys))
      && (i < N_SW_LOCKS && j < N_SW_LOCKS ==> LockLoad(keys, virt, i) <= LockLoad(keys, virt, j) + LargestCt(keys))
  {
    ArraysAreLoads(keys, i);
    ArraysAreLoads(keys, j);
    ArraysAreClose(keys, i, j);
  }
}
