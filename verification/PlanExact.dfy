/**
  What the planner decides, told by the keys of a transaction: where each key is, which transactions are
  accepted, and which locks they check and take.
 */
module PlanExact {
  import opened SwitchModel
  import opened Layout
  import opened PassSplit
  import opened LockPacking

  // ---------------------------------------------------------------- the layout is greedy

  /** What is placed stays. */
  lemma {:induction false} PrefixStays(keys: seq<KeyCt>, n: nat, i: nat)
    requires KeysOk(keys) && i < n <= |keys|
    ensures keys[i].key in PlaceAll(keys[..n]).forward && keys[i].key in PlaceAll(keys).forward
    ensures PlaceAll(keys).forward[keys[i].key] == PlaceAll(keys[..n]).forward[keys[i].key]
  {
    if n == |keys| {
      assert keys[..n] == keys;
      LayoutMaps(keys);
      assert keys[i].key in KeySet(keys);
    } else {
      var m := |keys| - 1;
      LastKey(keys);
      PrefixStays(keys[..m], n, i);
      assert keys[..m][..n] == keys[..n] && keys[..m][i] == keys[i];
    }
  }

  lemma PrefixOk(keys: seq<KeyCt>, n: nat)
    requires KeysOk(keys) && n <= |keys|
    ensures KeysOk(keys[..n])
  {
  }

  ghost predicate SameOn(keys: seq<KeyCt>, f: map<Key, Cell>, f': map<Key, Cell>) {
    forall i :: 0 <= i < |keys| ==> keys[i].key in f && keys[i].key in f' && f'[keys[i].key] == f[keys[i].key]
  }

  lemma PrefixSame(keys: seq<KeyCt>, n: nat)
    requires KeysOk(keys) && n <= |keys|
    ensures SameOn(keys[..n], PlaceAll(keys[..n]).forward, PlaceAll(keys).forward)
  {
    forall i | 0 <= i < n
      ensures keys[i].key in PlaceAll(keys[..n]).forward && keys[i].key in PlaceAll(keys).forward
      ensures PlaceAll(keys).forward[keys[i].key] == PlaceAll(keys[..n]).forward[keys[i].key]
    {
      PrefixStays(keys, n, i);
    }
  }

  lemma {:induction false} SameLoad(keys: seq<KeyCt>, f: map<Key, Cell>, f': map<Key, Cell>, r: Reg)
    requires SameOn(keys, f, f')
    ensures Load(keys, f', r) == Load(keys, f, r)
  {
    if keys != [] {
      SameLoad(keys[..|keys| - 1], f, f', r);
    }
  }

  /** The load of a register before key `i` was placed, in terms of the finished map. */
  lemma LoadBefore(keys: seq<KeyCt>, i: nat, j: nat)
    requires KeysOk(keys) && i < |keys| && j < N_REGS
    ensures PlaceAll(keys[..i]).weight[j] == Load(keys[..i], PlaceAll(keys).forward, RegAt(j))
  {
    PrefixSame(keys, i);
    SameLoad(keys[..i], PlaceAll(keys[..i]).forward, PlaceAll(keys).forward, RegAt(j));
    PrefixOk(keys, i);
    WeightIsLoad(keys[..i], j);
  }

  lemma PlacedAs(keys: seq<KeyCt>, i: nat)
    requires KeysOk(keys) && i < |keys|
    ensures keys[i].key in PlaceAll(keys).forward
    ensures PlaceAll(keys).forward[keys[i].key].r == RegAt(Lowest(PlaceAll(keys[..i]).weight, N_REGS))
  {
    var upTo := keys[..i + 1];
    PrefixStays(keys, i + 1, i);
    assert upTo[..i] == keys[..i] && upTo[i] == keys[i];
  }

  lemma LowestBefore(keys: seq<KeyCt>, i: nat, j: nat)
    requires KeysOk(keys) && i < |keys| && j < N_REGS
    ensures var f, low := PlaceAll(keys).forward, Lowest(PlaceAll(keys[..i]).weight, N_REGS);
      && Load(keys[..i], f, RegAt(low)) <= Load(keys[..i], f, RegAt(j))
      && (j < low ==> Load(keys[..i], f, RegAt(low)) < Load(keys[..i], f, RegAt(j)))
  {
    var weight := PlaceAll(keys[..i]).weight;
    var low := Lowest(weight, N_REGS);
    LoadBefore(keys, i, low);
    LoadBefore(keys, i, j);
    if j < low {
      LowestIsFirst(weight, N_REGS, j);
    }
  }

  /** Every key is in the first of the registers least used by the keys before it. */
  lemma PlacedWhereLeastUsed(keys: seq<KeyCt>, i: nat, r: Reg)
    requires KeysOk(keys) && i < |keys| && RegOk(r)
    ensures keys[i].key in PlaceAll(keys).forward
    ensures var f := PlaceAll(keys).forward; var r0 := f[keys[i].key].r;
      && RegOk(r0) && Load(keys[..i], f, r0) <= Load(keys[..i], f, r)
      && (RegNum(r) < RegNum(r0) ==> Load(keys[..i], f, r0) < Load(keys[..i], f, r))
  {
    PlacedAs(keys, i);
    RegNumAt(Lowest(PlaceAll(keys[..i]).weight, N_REGS));
    RegAtNum(r);
    LowestBefore(keys, i, RegNum(r));
  }

  // ---------------------------------------------------------------- the quantum

  /** The least weight that 32 locks have to carry each so that together they carry everything. */
  lemma QuantumIsLeast(total: nat, q: nat)
    ensures N_LOCKS * q >= total <==> q >= Quantum(total)
  {
  }

  // ---------------------------------------------------------------- acceptance

  /** How many keys of the transaction are in register `r`. */
  function OpsOn(lay: Plan, ops: seq<Key>, r: Reg): nat
    requires forall i :: 0 <= i < |ops| ==> ops[i] in lay.forward
  {
    CountOn(CellsOf(lay, ops), |ops|, r)
  }

  /** The registers that have more than one key of the transaction. */
  function Crowded(lay: Plan, ops: seq<Key>): set<Reg>
    requires forall i :: 0 <= i < |ops| ==> ops[i] in lay.forward
  {
    set i | 0 <= i < |ops| && OpsOn(lay, ops, lay.forward[ops[i]].r) >= 2 :: lay.forward[ops[i]].r
  }

  function CellsIn(s: seq<Cell>, n: nat, r: Reg): set<Cell>
    requires n <= |s|
  {
    set i | 0 <= i < n && s[i].r == r :: s[i]
  }

  lemma {:induction false} CountIsSize(s: seq<Cell>, n: nat, r: Reg)
    requires n <= |s| && Distinct(s)
    ensures CountOn(s, n, r) == |CellsIn(s, n, r)|
  {
    if n > 0 {
      CountIsSize(s, n - 1, r);
      var c := s[n - 1];
      if c.r == r {
        assert CellsIn(s, n, r) == CellsIn(s, n - 1, r) + {c};
      } else {
        assert CellsIn(s, n, r) == CellsIn(s, n - 1, r);
      }
    }
  }

  /** Sorting does not change how many keys a register has. */
  lemma SameCounts(s: seq<Cell>, s': seq<Cell>, r: Reg)
    requires Distinct(s) && Distinct(s') && multiset(s) == multiset(s')
    ensures CountOn(s', |s'|, r) == CountOn(s, |s|, r)
  {
    CountIsSize(s, |s|, r);
    CountIsSize(s', |s'|, r);
    forall c
      ensures c in CellsIn(s, |s|, r) <==> c in CellsIn(s', |s'|, r)
    {
      SameMembers(s, s', c);
    }
    assert CellsIn(s, |s|, r) == CellsIn(s', |s'|, r);
  }

  lemma SameMembers(s: seq<Cell>, s': seq<Cell>, c: Cell)
    requires multiset(s) == multiset(s')
    ensures c in s <==> c in s'
  {
    assert c in s <==> c in multiset(s);
    assert c in s' <==> c in multiset(s');
  }

  /** The second pass uses exactly the registers that have two keys or more. */
  lemma SecondPassIsCrowded(keys: seq<KeyCt>, ops: seq<Key>, x: Prepared, r: Reg)
    requires KeysOk(keys) && Distinct(ops) && IsPrepared(keys, ops, x) && |x.passes| >= 2
    ensures r in x.passes[1] <==> OpsOn(PlaceAll(keys), ops, r) >= 2
  {
    var cells := CellsOf(PlaceAll(keys), ops);
    CellsDistinct(keys, ops);
    SameCounts(cells, x.locs, r);
    if r in x.passes[1] {
      assert FromRank(x.locs, |x.locs|, Cell(r, x.passes[1][r]), 1);
      var i: nat :| i < |x.locs| && Ranked(x.locs, i, Cell(r, x.passes[1][r]), 1);
      CountGrows(x.locs, i + 1, |x.locs|, r);
    }
    if CountOn(x.locs, |x.locs|, r) >= 2 {
      RankBelowCount(x.locs, |x.locs|, r, 1);
      var i: nat :| i < |x.locs| && x.locs[i].r == r && HasRank(x.locs, i, 1);
      assert InItsPass(x.locs, x.passes, i);
    }
  }

  lemma {:induction false} CountedOp(lay: Plan, ops: seq<Key>, n: nat, r: Reg) returns (i: nat)
    requires (forall i :: 0 <= i < |ops| ==> ops[i] in lay.forward) && n <= |ops|
    requires CountOn(CellsOf(lay, ops), n, r) > 0
    ensures i < n && lay.forward[ops[i]].r == r
  {
    if lay.forward[ops[n - 1]].r == r {
      i := n - 1;
    } else {
      i := CountedOp(lay, ops, n - 1, r);
    }
  }

  lemma CrowdedIs(lay: Plan, ops: seq<Key>, r: Reg)
    requires forall i :: 0 <= i < |ops| ==> ops[i] in lay.forward
    ensures r in Crowded(lay, ops) <==> OpsOn(lay, ops, r) >= 2
  {
    if OpsOn(lay, ops, r) >= 2 {
      var i := CountedOp(lay, ops, |ops|, r);
    }
  }

  /** Accepted are exactly the transactions with at most two keys in a register, and two in at most two registers. */
  lemma AcceptedIff(keys: seq<KeyCt>, ops: seq<Key>, x: Prepared)
    requires KeysOk(keys) && Distinct(ops) && IsPrepared(keys, ops, x)
    ensures var lay := PlaceAll(keys);
      Accepted(x) <==> (forall r :: OpsOn(lay, ops, r) <= 2) && |Crowded(lay, ops)| <= PASS2_ACCEL_THR
  {
    var lay := PlaceAll(keys);
    CellsDistinct(keys, ops);
    PassCountIsMax(x.locs, x.passes);
    forall r
      ensures OpsOn(lay, ops, r) == CountOn(x.locs, |x.locs|, r)
    {
      SameCounts(CellsOf(lay, ops), x.locs, r);
    }
    forall r
      ensures r in Crowded(lay, ops) <==> OpsOn(lay, ops, r) >= 2
    {
      CrowdedIs(lay, ops, r);
    }
    if |x.passes| == 2 {
      forall r
        ensures r in x.passes[1] <==> OpsOn(lay, ops, r) >= 2
      {
        SecondPassIsCrowded(keys, ops, x, r);
      }
      assert x.passes[1].Keys == Crowded(lay, ops);
    } else if |x.passes| < 2 {
      assert Crowded(lay, ops) == {};
    } else {
      var r :| CountOn(x.locs, |x.locs|, r) == |x.passes|;
      assert OpsOn(lay, ops, r) > 2;
    }
  }

  // ---------------------------------------------------------------- which keys need a lock, and how often

  /** How many accepted transactions use the key. */
  ghost function UserCount(txns: seq<seq<Key>>, all: seq<Prepared>, k: Key): nat
    requires |all| <= |txns|
  {
    if all == [] then 0 else
      var n := |all| - 1;
      UserCount(txns, all[..n], k) + if Accepted(all[n]) && k in txns[n] then 1 else 0
  }

  lemma {:induction false} UsesInLocs(lay: Plan, locs: seq<Cell>, n: nat, k: Key)
    requires Inverse(lay) && Distinct(locs) && n <= |locs| && k in lay.forward
    requires forall i :: 0 <= i < |locs| ==> locs[i] in lay.backward
    ensures LockableUses(lay, locs, n)[k] == if lay.forward[k].idx != 0 && lay.forward[k] in locs[..n] then 1 else 0
  {
    if n > 0 {
      UsesInLocs(lay, locs, n - 1, k);
      assert locs[..n] == locs[..n - 1] + [locs[n - 1]];
    }
  }

  lemma UsesInTxn(keys: seq<KeyCt>, ops: seq<Key>, x: Prepared, k: Key)
    requires KeysOk(keys) && IsPrepared(keys, ops, x) && k in PlaceAll(keys).forward
    ensures LockableUses(PlaceAll(keys), x.locs, |x.locs|)[k] ==
      if PlaceAll(keys).forward[k].idx != 0 && k in ops then 1 else 0
  {
    var lay := PlaceAll(keys);
    LayoutMaps(keys);
    PassesPlaced(keys, ops, x);
    UsesInLocs(lay, x.locs, |x.locs|, k);
    assert x.locs[..|x.locs|] == x.locs;
    if k in ops {
      var j :| 0 <= j < |ops| && ops[j] == k;
      var i := OpIsCell(keys, ops, x, j);
    }
    if lay.forward[k] in x.locs {
      var i :| 0 <= i < |x.locs| && x.locs[i] == lay.forward[k];
      var j := CellIsOp(keys, ops, x, i);
      assert lay.backward[x.locs[i]] == ops[j] == k;
    }
  }

  /** Only an accepted transaction adds its uses. */
  lemma UsesOfLast(lay: Plan, all: seq<Prepared>, k: Key)
    requires all != []
    ensures var n := |all| - 1;
      UsesOf(lay, Keep(all))[k] ==
        UsesOf(lay, Keep(all[..n]))[k] +
          if Accepted(all[n]) then LockableUses(lay, all[n].locs, |all[n].locs|)[k] else 0
  {
    var n := |all| - 1;
    var kept := Keep(all[..n]);
    if Accepted(all[n]) {
      assert (kept + [all[n]])[..|kept|] == kept;
    } else {
      assert kept + [] == kept;
    }
  }

  /** The uses counted for a key at index `idx`. */
  ghost function UsesAt(txns: seq<seq<Key>>, all: seq<Prepared>, k: Key, idx: nat): nat
    requires |all| <= |txns|
  {
    if idx != 0 then UserCount(txns, all, k) else 0
  }

  /** A key needs a lock unless its index is 0, and is counted once for every accepted transaction that uses it. */
  lemma {:induction false} UsesAre(keys: seq<KeyCt>, txns: seq<seq<Key>>, all: seq<Prepared>, k: Key)
    requires KeysOk(keys) && AllPrepared(keys, txns, all) && k in PlaceAll(keys).forward
    ensures UsesOf(PlaceAll(keys), Keep(all))[k] == UsesAt(txns, all, k, PlaceAll(keys).forward[k].idx)
  {
    if all != [] {
      var n := |all| - 1;
      assert AllPrepared(keys, txns, all[..n]);
      UsesAre(keys, txns, all[..n], k);
      UsesInTxn(keys, txns[n], all[n], k);
      UsesOfLast(PlaceAll(keys), all, k);
    }
  }

  // ---------------------------------------------------------------- masks

  /** The lock of a key; one that has none counts as lock 0. */
  function LockOf(lockIdxs: map<Key, nat>, k: Key): nat {
    if k in lockIdxs then lockIdxs[k] else 0
  }

  /** The key is used in a later pass than the first. */
  ghost predicate IsLater(lay: Plan, x: Prepared, k: Key) {
    k in lay.forward && exists p :: 0 < p < |x.passes| && Touches(x.passes[p], lay.forward[k])
  }

  lemma LockAtKey(keys: seq<KeyCt>, lockIdxs: map<Key, nat>, k: Key)
    requires KeysOk(keys) && k in PlaceAll(keys).forward
    ensures LockAt(PlaceAll(keys), lockIdxs, PlaceAll(keys).forward[k]) == LockOf(lockIdxs, k)
  {
    LayoutMaps(keys);
  }

  lemma CellIsOp(keys: seq<KeyCt>, ops: seq<Key>, x: Prepared, i: nat) returns (j: nat)
    requires IsPrepared(keys, ops, x) && i < |x.locs|
    ensures j < |ops| && PlaceAll(keys).forward[ops[j]] == x.locs[i]
  {
    var cells := CellsOf(PlaceAll(keys), ops);
    SameMembers(x.locs, cells, x.locs[i]);
    j :| 0 <= j < |cells| && cells[j] == x.locs[i];
  }

  lemma OpIsCell(keys: seq<KeyCt>, ops: seq<Key>, x: Prepared, j: nat) returns (i: nat)
    requires IsPrepared(keys, ops, x) && j < |ops|
    ensures i < |x.locs| && x.locs[i] == PlaceAll(keys).forward[ops[j]]
  {
    var cells := CellsOf(PlaceAll(keys), ops);
    assert cells[j] in cells;
    SameMembers(x.locs, cells, cells[j]);
    i :| 0 <= i < |x.locs| && x.locs[i] == cells[j];
  }

  /** A transaction checks exactly the locks of its keys. */
  lemma ChecksExactly(keys: seq<KeyCt>, lockIdxs: map<Key, nat>, ops: seq<Key>, x: Prepared, port: nat, l: nat)
    requires KeysOk(keys) && IsPrepared(keys, ops, x)
    ensures l in Masked(port, PlaceAll(keys), lockIdxs, x).locksCheck <==>
      exists j :: 0 <= j < |ops| && LockOf(lockIdxs, ops[j]) == l
  {
    var lay := PlaceAll(keys);
    if l in LocksOf(lay, lockIdxs, CellSet(x.locs)) {
      var c :| c in CellSet(x.locs) && LockAt(lay, lockIdxs, c) == l;
      var i :| 0 <= i < |x.locs| && x.locs[i] == c;
      var j := CellIsOp(keys, ops, x, i);
      LockAtKey(keys, lockIdxs, ops[j]);
    }
    if j: nat :| j < |ops| && LockOf(lockIdxs, ops[j]) == l {
      LockAtKey(keys, lockIdxs, ops[j]);
      var i := OpIsCell(keys, ops, x, j);
      assert x.locs[i] in CellSet(x.locs);
    }
  }

  lemma LaterIsTouched(keys: seq<KeyCt>, ops: seq<Key>, x: Prepared, i: nat)
    requires KeysOk(keys) && IsPrepared(keys, ops, x) && i < |x.locs|
    ensures x.locs[i] in LaterCells(x.locs) <==> exists p :: 0 < p < |x.passes| && Touches(x.passes[p], x.locs[i])
  {
    LaterIsNotFirst(x.locs, x.locs[i]);
    if x.locs[i] in LaterCells(x.locs) {
      assert InItsPass(x.locs, x.passes, i);
    }
    if p :| 0 < p < |x.passes| && Touches(x.passes[p], x.locs[i]) {
      PassCell(keys, ops, x, p, x.locs[i]);
    }
  }

  /** And takes exactly those of the keys in its later passes. */
  lemma TakesExactly(keys: seq<KeyCt>, lockIdxs: map<Key, nat>, ops: seq<Key>, x: Prepared, port: nat, l: nat)
    requires KeysOk(keys) && IsPrepared(keys, ops, x)
    ensures var lay := PlaceAll(keys);
      l in Masked(port, lay, lockIdxs, x).locksWanted <==>
        exists j :: 0 <= j < |ops| && IsLater(lay, x, ops[j]) && LockOf(lockIdxs, ops[j]) == l
  {
    var lay := PlaceAll(keys);
    if l in LocksOf(lay, lockIdxs, LaterCells(x.locs)) {
      var c :| c in LaterCells(x.locs) && LockAt(lay, lockIdxs, c) == l;
      var i :| 0 <= i < |x.locs| && x.locs[i] == c;
      LaterIsTouched(keys, ops, x, i);
      var j := CellIsOp(keys, ops, x, i);
      LockAtKey(keys, lockIdxs, ops[j]);
      assert IsLater(lay, x, ops[j]);
    }
    if j: nat :| j < |ops| && IsLater(lay, x, ops[j]) && LockOf(lockIdxs, ops[j]) == l {
      LockAtKey(keys, lockIdxs, ops[j]);
      var i := OpIsCell(keys, ops, x, j);
      LaterIsTouched(keys, ops, x, i);
    }
  }
}
