/**
  From transactions to what the switch gets: which are accepted, the packing of keys into the 32
  locks of the lock word, and the lock masks. What comes out is what `Granular` needs, so every run
  of accepted transactions is serializable.
 */
module LockPacking {
  import opened SwitchModel
  import opened Layout
  import opened PassSplit
  import Granular
  import SerialChecker

  const N_LOCKS: nat := 32
  const PASS2_ACCEL_THR: nat := 2

  // ---------------------------------------------------------------- counting uses

  predicate ByFreq(v: seq<KeyCt>) {
    forall i, j :: 0 <= i < j < |v| ==> v[j].ct <= v[i].ct
  }

  /** Each key of the multiset once, with its multiplicity. */
  ghost predicate Lists(v: seq<KeyCt>, uses: multiset<Key>) {
    && (forall i, j :: 0 <= i < j < |v| ==> v[i].key != v[j].key)
    && (forall i :: 0 <= i < |v| ==> v[i].ct == uses[v[i].key] > 0)
    && (forall k :: k in uses ==> k in KeySet(v))
  }

  function Sum(v: seq<KeyCt>): nat {
    if v == [] then 0 else Sum(v[..|v| - 1]) + v[|v| - 1].ct
  }

  lemma ListsRest(v: seq<KeyCt>, uses: multiset<Key>)
    requires Lists(v, uses) && v != []
    ensures Lists(v[..|v| - 1], uses[v[|v| - 1].key := 0])
  {
    var n := |v| - 1;
    var rest := uses[v[n].key := 0];
    forall k | k in rest
      ensures k in KeySet(v[..n])
    {
      assert k in uses && k in KeySet(v);
      var i :| 0 <= i < |v| && v[i].key == k;
      assert v[..n][i].key == k;
    }
  }

  lemma {:induction false} SumIsSize(v: seq<KeyCt>, uses: multiset<Key>)
    requires Lists(v, uses)
    ensures Sum(v) == |uses|
  {
    if v == [] {
      assert uses == multiset{};
    } else {
      ListsRest(v, uses);
      SumIsSize(v[..|v| - 1], uses[v[|v| - 1].key := 0]);
    }
  }

  lemma {:induction false} SumGrows(v: seq<KeyCt>, n: nat)
    requires n <= |v| && forall i :: 0 <= i < |v| ==> v[i].ct > 0
    ensures Sum(v[..n]) <= Sum(v) && (n < |v| ==> Sum(v[..n]) < Sum(v))
  {
    if n < |v| {
      assert v[..|v| - 1][..n] == v[..n];
      SumGrows(v[..|v| - 1], n);
    } else {
      assert v[..n] == v;
    }
  }

  lemma SumNext(v: seq<KeyCt>, n: nat)
    requires n < |v|
    ensures Sum(v[..n + 1]) == Sum(v[..n]) + v[n].ct
  {
    assert v[..n + 1][..n] == v[..n];
  }

  // ---------------------------------------------------------------- the greedy grouping

  function Quantum(total: nat): nat {
    (total + N_LOCKS - 1) / N_LOCKS
  }

  /** All groups so far carry a quantum, or everything is packed and one may carry less. */
  ghost predicate GroupsOk(v: seq<KeyCt>, l2p: nat, lockNum: nat) {
    && l2p <= |v| && lockNum <= N_LOCKS
    && (l2p < |v| ==> lockNum * Quantum(Sum(v)) <= Sum(v[..l2p]))
  }

  lemma RoomForAGroup(v: seq<KeyCt>, l2p: nat, lockNum: nat)
    requires GroupsOk(v, l2p, lockNum) && l2p < |v| && forall i :: 0 <= i < |v| ==> v[i].ct > 0
    ensures lockNum < N_LOCKS
  {
    SumGrows(v, l2p);
    var q := Quantum(Sum(v));
    assert N_LOCKS * q >= Sum(v);
    assert lockNum >= N_LOCKS ==> lockNum * q >= N_LOCKS * q;
  }

  lemma GroupPacked(v: seq<KeyCt>, l2p: nat, l2p': nat, lockNum: nat)
    requires GroupsOk(v, l2p, lockNum) && l2p < l2p' <= |v| && lockNum < N_LOCKS
    requires l2p' < |v| ==> Sum(v[..l2p]) + Quantum(Sum(v)) <= Sum(v[..l2p'])
    ensures GroupsOk(v, l2p', lockNum + 1)
  {
    var q := Quantum(Sum(v));
    assert (lockNum + 1) * q == lockNum * q + q;
  }

  // ---------------------------------------------------------------- what the grouping is

  /** How much of the first `n` keys lock `l` carries, if key `i` has lock `g[i]`. */
  function Carries(v: seq<KeyCt>, g: seq<nat>, n: nat, l: nat): nat
    requires n <= |g| <= |v|
  {
    if n == 0 then 0 else Carries(v, g, n - 1, l) + if g[n - 1] == l then v[n - 1].ct else 0
  }

  /** A key has the lock of the one before it exactly if that lock carries less than a quantum so far. */
  predicate SharesRightly(v: seq<KeyCt>, g: seq<nat>, i: nat, quantum: nat)
    requires |g| <= |v| && i + 1 < |g|
  {
    g[i] == g[i + 1] <==> Carries(v, g, i + 1, g[i]) < quantum
  }

  predicate IsUsed(g: seq<nat>, l: nat) {
    exists i :: 0 <= i < |g| && g[i] == l
  }

  /**
    The locks of the first keys: their numbers never fall, all numbers below `lockNum` and no others are
    used, and neighbours share a lock as long as it carries less than a quantum.
   */
  ghost predicate Grouping(v: seq<KeyCt>, g: seq<nat>, lockNum: nat, quantum: nat) {
    && |g| <= |v|
    && (forall i, j :: 0 <= i < j < |g| ==> g[i] <= g[j])
    && (forall i :: 0 <= i < |g| ==> g[i] < lockNum) && (forall l: nat :: l < lockNum ==> IsUsed(g, l))
    && (forall i: nat :: i + 1 < |g| ==> SharesRightly(v, g, i, quantum))
  }

  lemma {:induction false} CarriesSame(v: seq<KeyCt>, g: seq<nat>, x: nat, n: nat, l: nat)
    requires n <= |g| < |v|
    ensures Carries(v, g + [x], n, l) == Carries(v, g, n, l)
  {
    if n > 0 {
      CarriesSame(v, g, x, n - 1, l);
    }
  }

  lemma {:induction false} CarriesNothing(v: seq<KeyCt>, g: seq<nat>, n: nat, l: nat)
    requires n <= |g| <= |v| && forall i :: 0 <= i < |g| ==> g[i] != l
    ensures Carries(v, g, n, l) == 0
  {
    if n > 0 {
      CarriesNothing(v, g, n - 1, l);
    }
  }

  /** Lock `l` is the last one, if that carries less than a quantum, or else a new one. */
  ghost predicate IsNextLock(v: seq<KeyCt>, g: seq<nat>, lockNum: nat, quantum: nat, l: nat)
    requires |g| <= |v|
  {
    if g == [] then l == lockNum
    else lockNum > 0 && l == if Carries(v, g, |g|, lockNum - 1) < quantum then lockNum - 1 else lockNum
  }

  lemma NextIsUsed(v: seq<KeyCt>, g: seq<nat>, lockNum: nat, quantum: nat, l: nat, m: nat)
    requires Grouping(v, g, lockNum, quantum) && IsNextLock(v, g, lockNum, quantum, l) && m < l + 1
    ensures IsUsed(g + [l], m)
  {
    var g' := g + [l];
    if m == l {
      assert g'[|g|] == l;
    } else {
      assert IsUsed(g, m);
      var i :| 0 <= i < |g| && g[i] == m;
      assert g'[i] == m;
    }
  }

  lemma NextShares(v: seq<KeyCt>, g: seq<nat>, lockNum: nat, quantum: nat, l: nat, i: nat)
    requires Grouping(v, g, lockNum, quantum) && |g| < |v| && IsNextLock(v, g, lockNum, quantum, l) && i < |g|
    ensures SharesRightly(v, g + [l], i, quantum)
  {
    LastIsTop(v, g, lockNum, quantum);
    CarriesSame(v, g, l, i + 1, g[i]);
    if i + 1 < |g| {
      assert SharesRightly(v, g, i, quantum);
    }
  }

  lemma GroupingNext(v: seq<KeyCt>, g: seq<nat>, lockNum: nat, quantum: nat, l: nat)
    requires Grouping(v, g, lockNum, quantum) && |g| < |v| && IsNextLock(v, g, lockNum, quantum, l)
    ensures Grouping(v, g + [l], l + 1, quantum)
    ensures Carries(v, g + [l], |g| + 1, l) == Carries(v, g, |g|, l) + v[|g|].ct
  {
    var g' := g + [l];
    if g != [] {
      LastIsTop(v, g, lockNum, quantum);
    }
    forall i: nat | i + 1 < |g'|
      ensures SharesRightly(v, g', i, quantum)
    {
      NextShares(v, g, lockNum, quantum, l, i);
    }
    CarriesSame(v, g, l, |g|, l);
    forall m: nat | m < l + 1
      ensures IsUsed(g', m)
    {
      NextIsUsed(v, g, lockNum, quantum, l, m);
    }
  }

  lemma LastIsTop(v: seq<KeyCt>, g: seq<nat>, lockNum: nat, quantum: nat)
    requires Grouping(v, g, lockNum, quantum) && g != []
    ensures lockNum > 0 && g[|g| - 1] == lockNum - 1
  {
    assert IsUsed(g, lockNum - 1);
    var i :| 0 <= i < |g| && g[i] == lockNum - 1;
  }

  predicate DistinctKeys(v: seq<KeyCt>) {
    forall i, j :: 0 <= i < j < |v| ==> v[i].key != v[j].key
  }

  /** The map gives the first keys these locks. */
  ghost predicate Gives(v: seq<KeyCt>, idxs: map<Key, nat>, g: seq<nat>) {
    |g| <= |v| && forall i :: 0 <= i < |g| ==> v[i].key in idxs && idxs[v[i].key] == g[i]
  }

  lemma GivesNext(v: seq<KeyCt>, idxs: map<Key, nat>, g: seq<nat>, l: nat)
    requires |g| < |v| && idxs.Keys == KeySet(v[..|g|])
    ensures DistinctKeys(v) && Gives(v, idxs, g) ==>
      v[|g|].key !in idxs && Gives(v, idxs[v[|g|].key := l], g + [l])
  {
  }

  /** `insert` never replaces. */
  function Inserted(idxs: map<Key, nat>, k: Key, l: nat): map<Key, nat> {
    if k in idxs then idxs else idxs[k := l]
  }

  /** The first keys are packed. */
  ghost predicate Packing(v: seq<KeyCt>, idxs: map<Key, nat>, g: seq<nat>, lockNum: nat, quantum: nat) {
    && Grouping(v, g, lockNum, quantum) && (DistinctKeys(v) ==> Gives(v, idxs, g))
    && idxs.Keys == KeySet(v[..|g|]) && forall k :: k in idxs ==> idxs[k] < lockNum
  }

  lemma PackingNext(v: seq<KeyCt>, idxs: map<Key, nat>, g: seq<nat>, lockNum: nat, quantum: nat, l: nat)
    requires Packing(v, idxs, g, lockNum, quantum) && |g| < |v| && IsNextLock(v, g, lockNum, quantum, l)
    ensures Packing(v, Inserted(idxs, v[|g|].key, l), g + [l], l + 1, quantum)
    ensures Carries(v, g + [l], |g| + 1, l) == Carries(v, g, |g|, l) + v[|g|].ct
    ensures Sum(v[..|g| + 1]) == Sum(v[..|g|]) + v[|g|].ct
  {
    var idxs', g' := Inserted(idxs, v[|g|].key, l), g + [l];
    assert Grouping(v, g', l + 1, quantum) && Carries(v, g', |g| + 1, l) == Carries(v, g, |g|, l) + v[|g|].ct by {
      GroupingNext(v, g, lockNum, quantum, l);
    }
    assert DistinctKeys(v) ==> Gives(v, idxs', g') by {
      GivesNext(v, idxs, g, l);
    }
    assert idxs'.Keys == KeySet(v[..|g'|]) && forall k :: k in idxs' ==> idxs'[k] < l + 1 by {
      InsertedKeys(v, idxs, |g|, l, lockNum);
    }
    SumNext(v, |g|);
  }

  lemma InsertedKeys(v: seq<KeyCt>, idxs: map<Key, nat>, n: nat, l: nat, lockNum: nat)
    requires n < |v| && idxs.Keys == KeySet(v[..n]) && lockNum <= l + 1 && forall k :: k in idxs ==> idxs[k] < lockNum
    ensures var idxs' := Inserted(idxs, v[n].key, l);
      idxs'.Keys == KeySet(v[..n + 1]) && forall k :: k in idxs' ==> idxs'[k] < l + 1
  {
    KeySetNext(v, n);
  }

  /** The packing loops: every key gets one lock, no more than `N_LOCKS` are used, and keys share them as described. */
  method PackLocks(v: seq<KeyCt>, total: nat) returns (lockIdxs: map<Key, nat>, lockNum: nat, ghost g: seq<nat>)
    requires total == Sum(v) && forall i :: 0 <= i < |v| ==> v[i].ct > 0
    ensures lockIdxs.Keys == KeySet(v)
    ensures lockNum <= N_LOCKS && forall k :: k in lockIdxs ==> lockIdxs[k] < lockNum
    ensures |g| == |v| && Grouping(v, g, lockNum, Quantum(total)) && (DistinctKeys(v) ==> Gives(v, lockIdxs, g))
  {
    var quantum := Quantum(total);
    lockIdxs, lockNum, g := map[], 0, [];
    var l2p := 0;
    while l2p < |v|
      invariant GroupsOk(v, l2p, lockNum) && |g| == l2p && Packing(v, lockIdxs, g, lockNum, quantum)
      invariant 0 < l2p < |v| ==> lockNum > 0 && Carries(v, g, l2p, lockNum - 1) >= quantum
    {
      RoomForAGroup(v, l2p, lockNum);
      ghost var start := l2p;
      lockIdxs, l2p, g := PackGroup(v, l2p, quantum, lockIdxs, lockNum, g);
      GroupPacked(v, start, l2p, lockNum);
      lockNum := lockNum + 1;
    }
    assert v[..|v|] == v;
  }

  lemma KeySetNext(v: seq<KeyCt>, n: nat)
    requires n < |v|
    ensures KeySet(v[..n + 1]) == KeySet(v[..n]) + {v[n].key}
  {
    forall k | k in KeySet(v[..n + 1])
      ensures k in KeySet(v[..n]) + {v[n].key}
    {
      var i :| 0 <= i < n + 1 && v[..n + 1][i].key == k;
      assert i < n ==> v[..n][i].key == k;
    }
    forall k | k in KeySet(v[..n])
      ensures k in KeySet(v[..n + 1])
    {
      var i :| 0 <= i < n && v[..n][i].key == k;
      assert v[..n + 1][i].key == k;
    }
    assert v[..n + 1][n].key == v[n].key;
  }

  /** Keys from `start` on have the last lock, which carries `fsum`. */
  ghost predicate InGroup(v: seq<KeyCt>, idxs: map<Key, nat>, g: seq<nat>, lockNum: nat, quantum: nat, start: nat,
                          fsum: nat)
  {
    && start < |g| && Packing(v, idxs, g, lockNum + 1, quantum)
    && Carries(v, g, |g|, lockNum) == fsum && Sum(v[..|g|]) == Sum(v[..start]) + fsum
  }

  lemma GroupOpens(v: seq<KeyCt>, idxs: map<Key, nat>, g: seq<nat>, lockNum: nat, quantum: nat)
    requires Packing(v, idxs, g, lockNum, quantum) && |g| < |v|
    requires g != [] ==> lockNum > 0 && Carries(v, g, |g|, lockNum - 1) >= quantum
    ensures InGroup(v, Inserted(idxs, v[|g|].key, lockNum), g + [lockNum], lockNum, quantum, |g|, v[|g|].ct)
  {
    PackingNext(v, idxs, g, lockNum, quantum, lockNum);
    CarriesNothing(v, g, |g|, lockNum);
  }

  lemma GroupGrows(v: seq<KeyCt>, idxs: map<Key, nat>, g: seq<nat>, lockNum: nat, quantum: nat, start: nat, fsum: nat)
    requires InGroup(v, idxs, g, lockNum, quantum, start, fsum) && |g| < |v| && fsum < quantum
    ensures InGroup(v, Inserted(idxs, v[|g|].key, lockNum), g + [lockNum], lockNum, quantum, start, fsum + v[|g|].ct)
  {
    PackingNext(v, idxs, g, lockNum + 1, quantum, lockNum);
  }

  lemma GroupCloses(v: seq<KeyCt>, idxs: map<Key, nat>, g: seq<nat>, lockNum: nat, quantum: nat, start: nat, fsum: nat)
    requires InGroup(v, idxs, g, lockNum, quantum, start, fsum)
    ensures |g| <= |v| && Packing(v, idxs, g, lockNum + 1, quantum) && Carries(v, g, |g|, lockNum) == fsum
    ensures Sum(v[..|g|]) == Sum(v[..start]) + fsum
  {
  }

  /** One lock: keys until they carry a quantum or run out. */
  method PackGroup(v: seq<KeyCt>, start: nat, quantum: nat, idxs: map<Key, nat>, lockNum: nat, ghost g0: seq<nat>)
    returns (lockIdxs: map<Key, nat>, l2p: nat, ghost g: seq<nat>)
    requires |g0| == start < |v| && Packing(v, idxs, g0, lockNum, quantum)
    requires start > 0 ==> lockNum > 0 && Carries(v, g0, start, lockNum - 1) >= quantum
    ensures start < l2p <= |v| && |g| == l2p && Packing(v, lockIdxs, g, lockNum + 1, quantum)
    ensures l2p < |v| ==> Carries(v, g, l2p, lockNum) >= quantum
    ensures l2p < |v| ==> Sum(v[..start]) + quantum <= Sum(v[..l2p])
  {
    var fsum: nat := v[start].ct;
    GroupOpens(v, idxs, g0, lockNum, quantum);
    lockIdxs := Inserted(idxs, v[start].key, lockNum);
    l2p, g := start + 1, g0 + [lockNum];
    while l2p < |v| && fsum < quantum
      invariant l2p <= |v| && |g| == l2p && InGroup(v, lockIdxs, g, lockNum, quantum, start, fsum)
    {
      GroupGrows(v, lockIdxs, g, lockNum, quantum, start, fsum);
      lockIdxs := Inserted(lockIdxs, v[l2p].key, lockNum);
      fsum := fsum + v[l2p].ct;
      l2p, g := l2p + 1, g + [lockNum];
    }
    GroupCloses(v, lockIdxs, g, lockNum, quantum, start, fsum);
  }

  lemma {:induction false} MostUsed(counts: map<Key, nat>, rest: set<Key>)
    requires rest <= counts.Keys && rest != {}
    ensures exists k :: k in rest && forall k' :: k' in rest ==> counts[k'] <= counts[k]
  {
    var x :| x in rest;
    if rest != {x} {
      MostUsed(counts, rest - {x});
      var k :| k in rest - {x} && forall k' :: k' in rest - {x} ==> counts[k'] <= counts[k];
      var best := if counts[x] >= counts[k] then x else k;
      assert best in rest && forall k' :: k' in rest ==> counts[k'] <= counts[best];
    }
  }

  lemma KeySetAppend(v: seq<KeyCt>, x: KeyCt)
    ensures KeySet(v + [x]) == KeySet(v) + {x.key}
  {
    assert (v + [x])[..|v|] == v && (v + [x])[..|v| + 1] == v + [x];
    KeySetNext(v + [x], |v|);
  }

  /** All keys but `rest` are listed, and none of `rest` is used more often than one listed. */
  ghost predicate Listing(v: seq<KeyCt>, counts: map<Key, nat>, rest: set<Key>) {
    && rest <= counts.Keys && KeySet(v) == counts.Keys - rest
    && (forall i :: 0 <= i < |v| ==> v[i].key in counts && v[i].ct == counts[v[i].key])
    && (forall i, k :: 0 <= i < |v| && k in rest ==> counts[k] <= v[i].ct)
    && (forall i, j :: 0 <= i < j < |v| ==> v[i].key != v[j].key && v[j].ct <= v[i].ct)
  }

  lemma ListNext(v: seq<KeyCt>, counts: map<Key, nat>, rest: set<Key>, k: Key)
    requires Listing(v, counts, rest) && k in rest && forall k' :: k' in rest ==> counts[k'] <= counts[k]
    ensures Listing(v + [KeyCt(k, counts[k])], counts, rest - {k})
  {
    var x := KeyCt(k, counts[k]);
    KeySetAppend(v, x);
    forall i | 0 <= i < |v|
      ensures v[i].key != k
    {
      assert v[i].key in KeySet(v);
    }
  }

  lemma ListingDone(v: seq<KeyCt>, counts: map<Key, nat>, uses: multiset<Key>)
    requires Listing(v, counts, {})
    requires forall k :: k in counts <==> k in uses
    requires forall k :: k in counts ==> counts[k] == uses[k]
    ensures ByFreq(v) && Lists(v, uses)
  {
  }

  /** The keys in the order of how often they are used. */
  method ListByFreq(counts: map<Key, nat>, ghost uses: multiset<Key>) returns (v: seq<KeyCt>)
    requires forall k :: k in counts <==> k in uses
    requires forall k :: k in counts ==> counts[k] == uses[k]
    ensures ByFreq(v) && Lists(v, uses) && KeySet(v) == counts.Keys
  {
    v := [];
    var rest := counts.Keys;
    while rest != {}
      invariant Listing(v, counts, rest)
      decreases |rest|
    {
      MostUsed(counts, rest);
      var k :| k in rest && forall k' :: k' in rest ==> counts[k'] <= counts[k];
      ListNext(v, counts, rest, k);
      v := v + [KeyCt(k, counts[k])];
      rest := rest - {k};
    }
    ListingDone(v, counts, uses);
  }

  // ---------------------------------------------------------------- one transaction

  /** A transaction's cells in pipe order and its passes. */
  datatype Prepared = Prepared(locs: seq<Cell>, passes: seq<Grid>)

  function CellsOf(p: Plan, ops: seq<Key>): (cells: seq<Cell>)
    requires forall i :: 0 <= i < |ops| ==> ops[i] in p.forward
    ensures |cells| == |ops|
  {
    seq(|ops|, i requires 0 <= i < |ops| => p.forward[ops[i]])
  }

  /** What the constructor of a switch transaction makes of distinct keys that have a place. */
  ghost predicate IsPrepared(keys: seq<KeyCt>, ops: seq<Key>, x: Prepared) {
    && (forall i :: 0 <= i < |ops| ==> ops[i] in PlaceAll(keys).forward)
    && Sorted(keys, PlaceAll(keys), x.locs) && Distinct(x.locs) && IsSplit(x.locs, x.passes)
    && multiset(x.locs) == multiset(CellsOf(PlaceAll(keys), ops))
  }

  lemma CellsDistinct(keys: seq<KeyCt>, ops: seq<Key>)
    requires KeysOk(keys) && Distinct(ops) && forall i :: 0 <= i < |ops| ==> ops[i] in PlaceAll(keys).forward
    ensures Distinct(CellsOf(PlaceAll(keys), ops))
  {
    var p := PlaceAll(keys);
    LayoutMaps(keys);
    forall i, j | 0 <= i < j < |ops|
      ensures p.forward[ops[i]] != p.forward[ops[j]]
    {
      assert p.backward[p.forward[ops[i]]] == ops[i] && p.backward[p.forward[ops[j]]] == ops[j];
    }
  }

  lemma SortedDistinct(keys: seq<KeyCt>, p: Plan, locs: seq<Cell>)
    requires Sorted(keys, p, locs)
    ensures Distinct(locs)
  {
    forall i, j | 0 <= i < j < |locs|
      ensures locs[i] != locs[j]
    {
      assert Before(keys, p, locs[i], locs[j]);
    }
  }

  method Prepare(keys: seq<KeyCt>, lay: Plan, ops: seq<Key>) returns (x: Prepared)
    requires KeysOk(keys) && lay == PlaceAll(keys) && Distinct(ops)
    requires forall i :: 0 <= i < |ops| ==> ops[i] in lay.forward
    ensures IsPrepared(keys, ops, x)
  {
    var cells := CellsOf(lay, ops);
    CellsDistinct(keys, ops);
    var locs := SortLocs(keys, lay, cells);
    SortLocsArranges(keys, lay, cells);
    SortedDistinct(keys, lay, locs);
    SortedIsGrouped(keys, lay, locs);
    var passes := Split(locs);
    x := Prepared(locs, passes);
  }

  /** At most two passes, and at most two operations in the second. */
  predicate Accepted(x: Prepared) {
    |x.passes| <= 2 && (|x.passes| == 2 ==> |x.passes[1]| <= PASS2_ACCEL_THR)
  }

  // ---------------------------------------------------------------- uses of lockable keys

  ghost predicate Counted(counts: map<Key, nat>, total: nat, uses: multiset<Key>) {
    && (forall k :: k in counts <==> k in uses)
    && (forall k :: k in counts ==> counts[k] == uses[k])
    && total == |uses|
  }

  method CountUse(counts0: map<Key, nat>, total0: nat, k: Key, ghost uses0: multiset<Key>)
    returns (counts: map<Key, nat>, total: nat)
    requires Counted(counts0, total0, uses0)
    ensures Counted(counts, total, uses0 + multiset{k})
  {
    counts := counts0;
    if k !in counts {
      counts := counts[k := 0];
    }
    counts := counts[k := counts[k] + 1];
    total := total0 + 1;
  }

  /** The cell is used, and not as the first of its register. */
  ghost predicate NotFirst(locs: seq<Cell>, n: nat, c: Cell) {
    exists i: nat :: i < n && i < |locs| && locs[i] == c && !HasRank(locs, i, 0)
  }

  ghost predicate SeenRegs(locs: seq<Cell>, n: nat, freqs: seq<nat>) {
    n <= |locs| && |freqs| == N_REGS && forall r :: RegOk(r) ==> (freqs[RegNum(r)] > 0 <==> CountOn(locs, n, r) > 0)
  }

  ghost predicate AllPlaced(keys: seq<KeyCt>, locs: seq<Cell>) {
    forall i :: 0 <= i < |locs| ==> locs[i] in PlaceAll(keys).backward
  }

  /** A cell with a place: its register exists and its key is used. */
  lemma PlacedCell(keys: seq<KeyCt>, c: Cell)
    requires KeysOk(keys) && c in PlaceAll(keys).backward
    ensures RegOk(c.r) && RegNum(c.r) < N_REGS && CtAt(keys, PlaceAll(keys), c) > 0
  {
    LayoutMaps(keys);
    RegAtNum(c.r);
    assert keys != [] && PlaceAll(keys).backward[c] in KeySet(keys);
    CtAtLeastLast(keys, PlaceAll(keys).backward[c]);
  }

  lemma SeenNext(locs: seq<Cell>, n: nat, freqs: seq<nat>, freq: nat)
    requires SeenRegs(locs, n, freqs) && n < |locs| && RegOk(locs[n].r) && RegNum(locs[n].r) < N_REGS && freq > 0
    ensures SeenRegs(locs, n + 1, freqs[RegNum(locs[n].r) := freq])
  {
    forall r | RegOk(r)
      ensures freqs[RegNum(locs[n].r) := freq][RegNum(r)] > 0 <==> CountOn(locs, n + 1, r) > 0
    {
      RegAtNum(r);
      RegAtNum(locs[n].r);
    }
  }

  lemma NotFirstNext(locs: seq<Cell>, n: nat, c: Cell)
    requires n < |locs|
    ensures NotFirst(locs, n + 1, c) <==> NotFirst(locs, n, c) || (locs[n] == c && Rank(locs, n) > 0)
  {
    if NotFirst(locs, n, c) {
      var i: nat :| i < n && i < |locs| && locs[i] == c && !HasRank(locs, i, 0);
      assert i < n + 1 && !HasRank(locs, i, 0);
    }
    if locs[n] == c && Rank(locs, n) > 0 {
      assert !HasRank(locs, n, 0);
    }
  }

  /** The uses of keys that may have to be locked: all but the first of a register. */
  function LockableUses(lay: Plan, locs: seq<Cell>, n: nat): multiset<Key>
    requires n <= |locs|
  {
    if n == 0 then multiset{} else
      var c := locs[n - 1];
      LockableUses(lay, locs, n - 1) + if c.idx != 0 && c in lay.backward then multiset{lay.backward[c]} else multiset{}
  }

  /** These uses were added to `uses0`, and the cells that come second are to be locked. */
  ghost predicate Collected(lay: Plan, locs: seq<Cell>, n: nat, uses0: multiset<Key>, uses: multiset<Key>,
                            toLock: set<Cell>)
  {
    n <= |locs| && uses == uses0 + LockableUses(lay, locs, n) && forall c :: c in toLock <==> NotFirst(locs, n, c)
  }

  lemma CollectedNext(lay: Plan, locs: seq<Cell>, n: nat, uses0: multiset<Key>, uses: multiset<Key>,
                      toLock: set<Cell>, uses': multiset<Key>, toLock': set<Cell>)
    requires Collected(lay, locs, n, uses0, uses, toLock) && n < |locs| && locs[n] in lay.backward
    requires uses' == if locs[n].idx != 0 then uses + multiset{lay.backward[locs[n]]} else uses
    requires toLock' == if Rank(locs, n) > 0 then toLock + {locs[n]} else toLock
    ensures Collected(lay, locs, n + 1, uses0, uses', toLock')
  {
    forall c
      ensures c in toLock' <==> NotFirst(locs, n + 1, c)
    {
      NotFirstNext(locs, n, c);
    }
  }

  lemma SeenMeansLater(locs: seq<Cell>, n: nat, freqs: seq<nat>)
    requires SeenRegs(locs, n, freqs) && n < |locs| && RegOk(locs[n].r) && RegNum(locs[n].r) < N_REGS
    ensures freqs[RegNum(locs[n].r)] > 0 <==> Rank(locs, n) > 0
  {
  }

  method Collect(keys: seq<KeyCt>, lay: Plan, locs: seq<Cell>, counts0: map<Key, nat>, total0: nat,
                 ghost uses0: multiset<Key>)
    returns (counts: map<Key, nat>, total: nat, toLock: set<Cell>, ghost uses: multiset<Key>)
    requires KeysOk(keys) && lay == PlaceAll(keys) && Sorted(keys, lay, locs) && AllPlaced(keys, locs)
    requires Counted(counts0, total0, uses0)
    ensures Counted(counts, total, uses) && Collected(lay, locs, |locs|, uses0, uses, toLock)
  {
    counts, total, uses, toLock := counts0, total0, uses0, {};
    var freqs: seq<nat> := seq(N_REGS, i => 0);
    for i := 0 to |locs|
      invariant Counted(counts, total, uses) && Collected(lay, locs, i, uses0, uses, toLock)
      invariant SeenRegs(locs, i, freqs)
    {
      counts, total, freqs, toLock, uses := CollectOne(keys, lay, locs, i, counts, total, freqs, toLock, uses0, uses);
    }
  }

  method CollectOne(keys: seq<KeyCt>, lay: Plan, locs: seq<Cell>, i: nat, counts0: map<Key, nat>, total0: nat,
                    freqs0: seq<nat>, toLock0: set<Cell>, ghost before: multiset<Key>, ghost uses0: multiset<Key>)
    returns (counts: map<Key, nat>, total: nat, freqs: seq<nat>, toLock: set<Cell>, ghost uses: multiset<Key>)
    requires KeysOk(keys) && lay == PlaceAll(keys) && Sorted(keys, lay, locs) && AllPlaced(keys, locs) && i < |locs|
    requires Counted(counts0, total0, uses0) && Collected(lay, locs, i, before, uses0, toLock0)
    requires SeenRegs(locs, i, freqs0)
    ensures Counted(counts, total, uses) && Collected(lay, locs, i + 1, before, uses, toLock)
    ensures SeenRegs(locs, i + 1, freqs)
  {
    counts, total, freqs, toLock, uses := counts0, total0, freqs0, toLock0, uses0;
    var tl := locs[i];
    PlacedCell(keys, tl);
    SeenMeansLater(locs, i, freqs);
    var k := lay.backward[tl];
    if tl.idx != 0 {
      counts, total := CountUse(counts, total, k, uses);
      uses := uses + multiset{k};
    }
    if freqs[RegNum(tl.r)] > 0 {
      ZeroInFirstPass(keys, locs, i);
      assert tl.idx != 0;
      toLock := toLock + {tl};
    }
    CollectedNext(lay, locs, i, before, uses0, toLock0, uses, toLock);
    SeenNext(locs, i, freqs, CtAt(keys, lay, tl));
    freqs := freqs[RegNum(tl.r) := CtAt(keys, lay, tl)];
  }

  /** All uses of keys in a workload. */
  ghost function AllOps(txns: seq<seq<Key>>): multiset<Key> {
    if txns == [] then multiset{} else AllOps(txns[..|txns| - 1]) + multiset(txns[|txns| - 1])
  }

  lemma {:induction false} OpIsCounted(txns: seq<seq<Key>>, i: nat, j: nat)
    requires i < |txns| && j < |txns[i]|
    ensures txns[i][j] in AllOps(txns)
  {
    var n := |txns| - 1;
    if i < n {
      OpIsCounted(txns[..n], i, j);
    } else {
      assert txns[i][j] in multiset(txns[i]);
    }
  }

  lemma AllOpsNext(txns: seq<seq<Key>>, i: nat)
    requires i < |txns|
    ensures AllOps(txns[..i + 1]) == AllOps(txns[..i]) + multiset(txns[i])
  {
    assert txns[..i + 1][..i] == txns[..i];
  }

  lemma UsesNext(uses: multiset<Key>, ops: seq<Key>, j: nat)
    requires j < |ops|
    ensures uses + multiset(ops[..j + 1]) == uses + multiset(ops[..j]) + multiset{ops[j]}
  {
    assert ops[..j + 1] == ops[..j] + [ops[j]];
  }

  method CountTxn(ops: seq<Key>, counts0: map<Key, nat>, total0: nat, ghost uses0: multiset<Key>)
    returns (counts: map<Key, nat>, total: nat)
    requires Counted(counts0, total0, uses0)
    ensures Counted(counts, total, uses0 + multiset(ops))
  {
    counts, total := counts0, total0;
    for j := 0 to |ops|
      invariant Counted(counts, total, uses0 + multiset(ops[..j]))
    {
      counts, total := CountUse(counts, total, ops[j], uses0 + multiset(ops[..j]));
      UsesNext(uses0, ops, j);
    }
    assert ops[..|ops|] == ops;
  }

  lemma AllListed(txns: seq<seq<Key>>, keys: seq<KeyCt>)
    requires Lists(keys, AllOps(txns))
    ensures forall i, j :: 0 <= i < |txns| && 0 <= j < |txns[i]| ==> txns[i][j] in KeySet(keys)
  {
    forall i, j | 0 <= i < |txns| && 0 <= j < |txns[i]|
      ensures txns[i][j] in KeySet(keys)
    {
      OpIsCounted(txns, i, j);
    }
  }

  /** `get_key_cts`: every key of the workload, once, with the number of its uses, most used first. */
  method KeyCounts(txns: seq<seq<Key>>) returns (keys: seq<KeyCt>)
    ensures KeysOk(keys) && Lists(keys, AllOps(txns))
    ensures forall i, j :: 0 <= i < |txns| && 0 <= j < |txns[i]| ==> txns[i][j] in KeySet(keys)
  {
    var counts, total := map[], 0;
    for i := 0 to |txns|
      invariant Counted(counts, total, AllOps(txns[..i]))
    {
      AllOpsNext(txns, i);
      counts, total := CountTxn(txns[i], counts, total, AllOps(txns[..i]));
    }
    assert txns[..|txns|] == txns;
    keys := ListByFreq(counts, AllOps(txns));
    AllListed(txns, keys);
  }

  // ---------------------------------------------------------------- masks

  /** The lock of the key in a cell; a key without one counts as lock 0. */
  function LockAt(lay: Plan, lockIdxs: map<Key, nat>, c: Cell): nat {
    if c in lay.backward && lay.backward[c] in lockIdxs then lockIdxs[lay.backward[c]] else 0
  }

  function LocksOf(lay: Plan, lockIdxs: map<Key, nat>, cells: set<Cell>): set<nat> {
    set c | c in cells :: LockAt(lay, lockIdxs, c)
  }

  function CellSet(locs: seq<Cell>): set<Cell> {
    set i | 0 <= i < |locs| :: locs[i]
  }

  ghost function LaterCells(locs: seq<Cell>): set<Cell> {
    set c | c in CellSet(locs) && NotFirst(locs, |locs|, c)
  }

  /** The transaction as it is sent: all its locks to check, those of its later passes to take. */
  ghost function Masked(port: nat, lay: Plan, lockIdxs: map<Key, nat>, x: Prepared): Txn {
    Txn(port, 0, 0, 0, true, LocksOf(lay, lockIdxs, CellSet(x.locs)), LocksOf(lay, lockIdxs, LaterCells(x.locs)), {},
      x.passes)
  }

  lemma LaterIsNotFirst(locs: seq<Cell>, c: Cell)
    ensures c in LaterCells(locs) <==> NotFirst(locs, |locs|, c)
  {
    if NotFirst(locs, |locs|, c) {
      var i: nat :| i < |locs| && locs[i] == c && !HasRank(locs, i, 0);
      assert locs[i] in CellSet(locs);
    }
  }

  lemma PassCell(keys: seq<KeyCt>, ops: seq<Key>, x: Prepared, p: nat, c: Cell)
    requires IsPrepared(keys, ops, x) && p < |x.passes| && Touches(x.passes[p], c)
    ensures c in CellSet(x.locs) && (p > 0 ==> c in LaterCells(x.locs) && !Touches(x.passes[0], c))
  {
    assert FromRank(x.locs, |x.locs|, c, p);
    var i: nat :| i < |x.locs| && Ranked(x.locs, i, c, p);
    assert x.locs[i] in CellSet(x.locs);
    if p > 0 {
      InExactlyOnePass(x.locs, x.passes, i, 0);
      assert !HasRank(x.locs, i, 0);
      LaterIsNotFirst(x.locs, c);
    }
  }

  lemma PassesPlaced(keys: seq<KeyCt>, ops: seq<Key>, x: Prepared)
    requires KeysOk(keys) && IsPrepared(keys, ops, x)
    ensures AllPlaced(keys, x.locs) && forall p :: 0 <= p < |x.passes| ==> GridOk(x.passes[p])
  {
    var lay := PlaceAll(keys);
    LayoutMaps(keys);
    forall i | 0 <= i < |x.locs|
      ensures x.locs[i] in lay.backward
    {
      assert x.locs[i] in multiset(x.locs);
      assert x.locs[i] in CellsOf(lay, ops);
    }
    forall p, r | 0 <= p < |x.passes| && r in x.passes[p]
      ensures r.stage < N_STAGES && r.reg < REGS_PER_STAGE
    {
      var c := Cell(r, x.passes[p][r]);
      PassCell(keys, ops, x, p, c);
      var i :| 0 <= i < |x.locs| && x.locs[i] == c;
      PlacedCell(keys, c);
    }
  }

  lemma OnePassNoLater(locs: seq<Cell>, passes: seq<Grid>)
    requires IsSplit(locs, passes) && |passes| == 1
    ensures LaterCells(locs) == {}
  {
    forall i: nat | i < |locs|
      ensures HasRank(locs, i, 0)
    {
      assert InItsPass(locs, passes, i);
    }
  }

  /** What the planner makes of a transaction is what the granular protocol needs. */
  lemma AcceptedIsPlanned(keys: seq<KeyCt>, ops: seq<Key>, x: Prepared, port: nat, lockIdxs: map<Key, nat>)
    requires KeysOk(keys) && IsPrepared(keys, ops, x) && Accepted(x) && x.passes != [] && port < N_PORTS
    ensures var lay := PlaceAll(keys); var t := Masked(port, lay, lockIdxs, x);
      Sendable(t) && Granular.Planned(c => LockAt(lay, lockIdxs, c), t)
  {
    var lay := PlaceAll(keys);
    var t := Masked(port, lay, lockIdxs, x);
    PassesPlaced(keys, ops, x);
    if |x.passes| == 1 {
      OnePassNoLater(x.locs, x.passes);
    }
    forall p, c | 0 <= p < |t.passes| && Touches(t.passes[p], c)
      ensures LockAt(lay, lockIdxs, c) in t.locksCheck
      ensures p > 0 ==> LockAt(lay, lockIdxs, c) in t.locksWanted && !Touches(t.passes[0], c)
    {
      PassCell(keys, ops, x, p, c);
    }
  }

  /** In every run of such transactions the serializability checker has no cycle to find. */
  lemma PlannedRunsSerializable(keys: seq<KeyCt>, lockIdxs: map<Key, nat>, host: Host, steps: seq<Step>,
                                states: seq<State>, k: nat, g: SerialChecker.Graph)
    requires KeysOk(keys) && IsRun(host, SwitchModel.Granular({}), steps, states) && k < |states|
    requires Granular.Represents(g, states[k].deps)
    requires forall t :: host(t) ==> IsPlanOf(keys, lockIdxs, t)
    ensures Granular.InFirstPassOrder(states[k].entered)
    ensures !SerialChecker.HasCycle(g)
  {
    var lockOf := c => LockAt(PlaceAll(keys), lockIdxs, c);
    forall t | host(t)
      ensures Granular.Planned(lockOf, t)
    {
      assert IsPlanOf(keys, lockIdxs, t);
      var ops, x :| Plans(keys, lockIdxs, ops, x, t);
      AcceptedIsPlanned(keys, ops, x, t.port, lockIdxs);
    }
    Granular.GranularSerializable(lockOf, host, steps, states, k, g);
  }

  ghost predicate Plans(keys: seq<KeyCt>, lockIdxs: map<Key, nat>, ops: seq<Key>, x: Prepared, t: Txn) {
    && t.port < N_PORTS && IsPrepared(keys, ops, x) && Accepted(x) && x.passes != []
    && t == Masked(t.port, PlaceAll(keys), lockIdxs, x)
  }

  ghost predicate IsPlanOf(keys: seq<KeyCt>, lockIdxs: map<Key, nat>, t: Txn) {
    exists ops, x :: Plans(keys, lockIdxs, ops, x, t)
  }

  // ---------------------------------------------------------------- all transactions

  function Keep(all: seq<Prepared>): seq<Prepared> {
    if all == [] then [] else Keep(all[..|all| - 1]) + (if Accepted(all[|all| - 1]) then [all[|all| - 1]] else [])
  }

  ghost predicate TxnsOk(lay: Plan, txns: seq<seq<Key>>) {
    forall i :: 0 <= i < |txns| ==> Distinct(txns[i]) && forall j :: 0 <= j < |txns[i]| ==> txns[i][j] in lay.forward
  }

  /** The uses counted for the accepted transactions. */
  ghost function UsesOf(lay: Plan, kept: seq<Prepared>): multiset<Key> {
    if kept == [] then multiset{} else
      var x := kept[|kept| - 1];
      UsesOf(lay, kept[..|kept| - 1]) + LockableUses(lay, x.locs, |x.locs|)
  }

  lemma {:induction false} UseIsCounted(lay: Plan, locs: seq<Cell>, n: nat, i: nat)
    requires i < n <= |locs| && locs[i].idx != 0 && locs[i] in lay.backward
    ensures lay.backward[locs[i]] in LockableUses(lay, locs, n)
  {
    if i < n - 1 {
      UseIsCounted(lay, locs, n - 1, i);
    }
  }

  lemma {:induction false} KeptIsCounted(lay: Plan, kept: seq<Prepared>, n: nat, i: nat)
    requires n < |kept| && i < |kept[n].locs| && kept[n].locs[i].idx != 0 && kept[n].locs[i] in lay.backward
    ensures lay.backward[kept[n].locs[i]] in UsesOf(lay, kept)
  {
    if n < |kept| - 1 {
      KeptIsCounted(lay, kept[..|kept| - 1], n, i);
    } else {
      UseIsCounted(lay, kept[n].locs, |kept[n].locs|, i);
    }
  }

  lemma {:induction false} KeptIsAccepted(keys: seq<KeyCt>, txns: seq<seq<Key>>, all: seq<Prepared>, i: nat)
    returns (j: nat)
    requires AllPrepared(keys, txns, all) && i < |Keep(all)|
    ensures j < |all| && all[j] == Keep(all)[i] && Accepted(all[j])
  {
    var n := |all| - 1;
    if i < |Keep(all[..n])| {
      j := KeptIsAccepted(keys, txns, all[..n], i);
    } else {
      j := n;
    }
  }

  /** Every key that may have to be locked by an accepted transaction is among those counted. */
  ghost predicate NeedsCounted(lay: Plan, x: Prepared, uses: multiset<Key>) {
    forall i :: 0 <= i < |x.locs| && x.locs[i].idx != 0 ==> x.locs[i] in lay.backward && lay.backward[x.locs[i]] in uses
  }

  ghost predicate KeptOk(lay: Plan, kept: seq<Prepared>, toLock: seq<set<Cell>>, uses: multiset<Key>) {
    && uses == UsesOf(lay, kept)
    && |toLock| == |kept| && forall i :: 0 <= i < |kept| ==> toLock[i] == LaterCells(kept[i].locs)
  }

  lemma KeptNext(lay: Plan, kept: seq<Prepared>, toLock: seq<set<Cell>>, uses: multiset<Key>, x: Prepared,
                 t: set<Cell>, uses': multiset<Key>)
    requires KeptOk(lay, kept, toLock, uses) && Collected(lay, x.locs, |x.locs|, uses, uses', t)
    ensures KeptOk(lay, kept + [x], toLock + [t], uses')
  {
    forall c
      ensures c in t <==> c in LaterCells(x.locs)
    {
      LaterIsNotFirst(x.locs, c);
    }
    assert t == LaterCells(x.locs);
    assert (kept + [x])[..|kept|] == kept;
  }

  ghost predicate AllPrepared(keys: seq<KeyCt>, txns: seq<seq<Key>>, all: seq<Prepared>) {
    |all| <= |txns| && forall i :: 0 <= i < |all| ==> IsPrepared(keys, txns[i], all[i])
  }

  lemma PreparedNext(keys: seq<KeyCt>, txns: seq<seq<Key>>, all: seq<Prepared>, x: Prepared)
    requires AllPrepared(keys, txns, all) && |all| < |txns| && IsPrepared(keys, txns[|all|], x)
    ensures AllPrepared(keys, txns, all + [x])
  {
    var all' := all + [x];
    assert all'[|all|] == x && forall i :: 0 <= i < |all| ==> all'[i] == all[i];
  }

  lemma KeepNext(all: seq<Prepared>, x: Prepared)
    ensures Keep(all + [x]) == Keep(all) + (if Accepted(x) then [x] else [])
  {
    assert (all + [x])[..|all|] == all;
  }

  /** Splits all transactions, drops those that are not accepted and counts the uses of lockable keys. */
  method SplitAll(keys: seq<KeyCt>, lay: Plan, txns: seq<seq<Key>>)
    returns (kept: seq<Prepared>, toLock: seq<set<Cell>>, counts: map<Key, nat>, total: nat, ghost uses: multiset<Key>,
      ghost all: seq<Prepared>)
    requires KeysOk(keys) && lay == PlaceAll(keys) && TxnsOk(lay, txns)
    ensures |all| == |txns| && AllPrepared(keys, txns, all)
    ensures kept == Keep(all) && Counted(counts, total, uses) && KeptOk(lay, kept, toLock, uses)
  {
    kept, toLock, counts, total, uses, all := [], [], map[], 0, multiset{}, [];
    for n := 0 to |txns|
      invariant |all| == n && AllPrepared(keys, txns, all)
      invariant kept == Keep(all) && Counted(counts, total, uses) && KeptOk(lay, kept, toLock, uses)
    {
      var x := Prepare(keys, lay, txns[n]);
      PreparedNext(keys, txns, all, x);
      KeepNext(all, x);
      all := all + [x];
      if Accepted(x) {
        kept, toLock, counts, total, uses := Add(keys, lay, txns[n], x, kept, toLock, counts, total, uses);
      }
    }
  }

  method Add(keys: seq<KeyCt>, lay: Plan, ghost ops: seq<Key>, x: Prepared, kept0: seq<Prepared>,
             toLock0: seq<set<Cell>>, counts0: map<Key, nat>, total0: nat, ghost uses0: multiset<Key>)
    returns (kept: seq<Prepared>, toLock: seq<set<Cell>>, counts: map<Key, nat>, total: nat, ghost uses: multiset<Key>)
    requires KeysOk(keys) && lay == PlaceAll(keys) && IsPrepared(keys, ops, x)
    requires Counted(counts0, total0, uses0) && KeptOk(lay, kept0, toLock0, uses0)
    ensures kept == kept0 + [x] && Counted(counts, total, uses) && KeptOk(lay, kept, toLock, uses)
  {
    PassesPlaced(keys, ops, x);
    var t: set<Cell>;
    counts, total, t, uses := Collect(keys, lay, x.locs, counts0, total0, uses0);
    KeptNext(lay, kept0, toLock0, uses0, x, t, uses);
    kept, toLock := kept0 + [x], toLock0 + [t];
  }

  /** The keys that get a lock. */
  ghost function LockableKeys(lay: Plan, kept: seq<Prepared>): set<Key> {
    set k | k in UsesOf(lay, kept)
  }

  lemma LockablesCounted(keys: seq<KeyCt>, txns: seq<seq<Key>>, all: seq<Prepared>, n: nat)
    requires KeysOk(keys) && AllPrepared(keys, txns, all) && n < |Keep(all)|
    ensures NeedsCounted(PlaceAll(keys), Keep(all)[n], UsesOf(PlaceAll(keys), Keep(all)))
  {
    var j := KeptIsAccepted(keys, txns, all, n);
    PassesPlaced(keys, txns[j], all[j]);
    var x := Keep(all)[n];
    forall i | 0 <= i < |x.locs| && x.locs[i].idx != 0
      ensures x.locs[i] in PlaceAll(keys).backward
      ensures PlaceAll(keys).backward[x.locs[i]] in UsesOf(PlaceAll(keys), Keep(all))
    {
      KeptIsCounted(PlaceAll(keys), Keep(all), n, i);
    }
  }

  lemma MaskedIsPlan(keys: seq<KeyCt>, txns: seq<seq<Key>>, all: seq<Prepared>, port: nat, lockIdxs: map<Key, nat>,
                     i: nat)
    requires AllPrepared(keys, txns, all) && i < |Keep(all)| && port < N_PORTS && Keep(all)[i].passes != []
    ensures IsPlanOf(keys, lockIdxs, Masked(port, PlaceAll(keys), lockIdxs, Keep(all)[i]))
  {
    var j := KeptIsAccepted(keys, txns, all, i);
    assert Plans(keys, lockIdxs, txns[j], all[j], Masked(port, PlaceAll(keys), lockIdxs, all[j]));
  }

  /** The used keys, most used first, share the locks in groups of a quantum each. */
  ghost predicate IsPackedAs(v: seq<KeyCt>, g: seq<nat>, lockNum: nat, lockIdxs: map<Key, nat>, uses: multiset<Key>) {
    && ByFreq(v) && Lists(v, uses) && |g| == |v| && lockNum <= N_LOCKS
    && Grouping(v, g, lockNum, Quantum(|uses|)) && Gives(v, lockIdxs, g)
  }

  ghost predicate IsPacked(lockIdxs: map<Key, nat>, uses: multiset<Key>) {
    exists v, g, lockNum :: IsPackedAs(v, g, lockNum, lockIdxs, uses)
  }

  /**
    `prepare_txns_sw`: the accepted transactions in order, with their masks; exactly the keys that
    one of them may have to lock have a lock, one of `N_LOCKS`, and what is taken is also checked.
   */
  method PrepareTxns(port: nat, keys: seq<KeyCt>, lay: Plan, txns: seq<seq<Key>>)
    returns (sw: seq<Txn>, lockIdxs: map<Key, nat>, ghost all: seq<Prepared>)
    requires KeysOk(keys) && lay == PlaceAll(keys) && TxnsOk(lay, txns)
    ensures |all| == |txns| && AllPrepared(keys, txns, all)
    ensures |sw| == |Keep(all)| && forall i :: 0 <= i < |sw| ==> sw[i] == Masked(port, lay, lockIdxs, Keep(all)[i])
    ensures lockIdxs.Keys == LockableKeys(lay, Keep(all)) && forall k :: k in lockIdxs ==> lockIdxs[k] < N_LOCKS
    ensures IsPacked(lockIdxs, UsesOf(lay, Keep(all)))
    ensures forall i :: 0 <= i < |Keep(all)| ==> NeedsCounted(lay, Keep(all)[i], UsesOf(lay, Keep(all)))
    ensures forall i :: 0 <= i < |sw| ==> sw[i].locksWanted <= sw[i].locksCheck
    ensures port < N_PORTS ==> AllPlanned(keys, lockIdxs, sw)
  {
    var kept, toLock, counts, total;
    ghost var uses;
    kept, toLock, counts, total, uses, all := SplitAll(keys, lay, txns);
    var v := ListByFreq(counts, uses);
    SumIsSize(v, uses);
    var lockNum;
    ghost var g;
    lockIdxs, lockNum, g := PackLocks(v, total);
    assert IsPackedAs(v, g, lockNum, lockIdxs, uses);
    sw := MaskAll(port, lay, lockIdxs, kept, toLock);
    PlannedAll(keys, txns, all, port, lockIdxs, sw);
  }

  /** The last loop: the masks of all accepted transactions. */
  method MaskAll(port: nat, lay: Plan, lockIdxs: map<Key, nat>, kept: seq<Prepared>, toLock: seq<set<Cell>>)
    returns (sw: seq<Txn>)
    requires |toLock| == |kept| && forall i :: 0 <= i < |kept| ==> toLock[i] == LaterCells(kept[i].locs)
    ensures |sw| == |kept| && forall i :: 0 <= i < |sw| ==> sw[i] == Masked(port, lay, lockIdxs, kept[i])
  {
    sw := [];
    for n := 0 to |kept|
      invariant |sw| == n && forall i :: 0 <= i < n ==> sw[i] == Masked(port, lay, lockIdxs, kept[i])
    {
      var x := kept[n];
      sw := sw + [Txn(port, 0, 0, 0, true, LocksOf(lay, lockIdxs, CellSet(x.locs)), LocksOf(lay, lockIdxs, toLock[n]),
        {}, x.passes)];
    }
  }

  lemma PlannedAll(keys: seq<KeyCt>, txns: seq<seq<Key>>, all: seq<Prepared>, port: nat, lockIdxs: map<Key, nat>,
                   sw: seq<Txn>)
    requires KeysOk(keys) && AllPrepared(keys, txns, all) && |sw| == |Keep(all)|
    requires forall i :: 0 <= i < |sw| ==> sw[i] == Masked(port, PlaceAll(keys), lockIdxs, Keep(all)[i])
    ensures forall i :: 0 <= i < |Keep(all)| ==>
      NeedsCounted(PlaceAll(keys), Keep(all)[i], UsesOf(PlaceAll(keys), Keep(all)))
    ensures forall i :: 0 <= i < |sw| ==> sw[i].locksWanted <= sw[i].locksCheck
    ensures port < N_PORTS ==> AllPlanned(keys, lockIdxs, sw)
  {
    forall i | 0 <= i < |sw|
      ensures NeedsCounted(PlaceAll(keys), Keep(all)[i], UsesOf(PlaceAll(keys), Keep(all)))
      ensures port < N_PORTS && sw[i].passes != [] ==> IsPlanOf(keys, lockIdxs, sw[i])
    {
      LockablesCounted(keys, txns, all, i);
      if port < N_PORTS && sw[i].passes != [] {
        MaskedIsPlan(keys, txns, all, port, lockIdxs, i);
      }
    }
  }

  /** Every transaction that can be sent at all is planned. */
  ghost predicate AllPlanned(keys: seq<KeyCt>, lockIdxs: map<Key, nat>, sw: seq<Txn>) {
    forall i :: 0 <= i < |sw| && sw[i].passes != [] ==> IsPlanOf(keys, lockIdxs, sw[i])
  }

  /**
    Every run in which the hosts send what `PrepareTxns` returned, in any order and as often as they
    like, is serializable.
   */
  lemma PreparedRunsSerializable(keys: seq<KeyCt>, lockIdxs: map<Key, nat>, sw: seq<Txn>, steps: seq<Step>,
                                 states: seq<State>, k: nat, g: SerialChecker.Graph)
    requires KeysOk(keys) && AllPlanned(keys, lockIdxs, sw)
    requires IsRun(t => t in sw, SwitchModel.Granular({}), steps, states) && k < |states|
    requires Granular.Represents(g, states[k].deps)
    ensures Granular.InFirstPassOrder(states[k].entered)
    ensures !SerialChecker.HasCycle(g)
  {
    var host := t => t in sw && t.passes != [];
    assert IsRun(host, SwitchModel.Granular({}), steps, states);
    PlannedRunsSerializable(keys, lockIdxs, host, steps, states, k, g);
  }
}
