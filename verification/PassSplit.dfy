/**
  How a transaction becomes switch passes: its cells in the order of the pipe, and then the n-th
  cell of each register into the n-th pass.
 */
module PassSplit {
  import opened SwitchModel
  import opened Layout

  // ---------------------------------------------------------------- the order of a transaction's cells

  function CtAt(keys: seq<KeyCt>, p: Plan, c: Cell): nat {
    if c in p.backward then CtOf(keys, p.backward[c]) else 0
  }

  /** By stage, then register, then the more used key, then the index. */
  predicate Before(keys: seq<KeyCt>, p: Plan, a: Cell, b: Cell) {
    if a.r.stage != b.r.stage then a.r.stage < b.r.stage
    else if a.r.reg != b.r.reg then a.r.reg < b.r.reg
    else if CtAt(keys, p, a) == CtAt(keys, p, b) then a.idx < b.idx
    else CtAt(keys, p, b) < CtAt(keys, p, a)
  }

  predicate Sorted(keys: seq<KeyCt>, p: Plan, locs: seq<Cell>) {
    forall i, j :: 0 <= i < j < |locs| ==> Before(keys, p, locs[i], locs[j])
  }

  function InsertLoc(keys: seq<KeyCt>, p: Plan, locs: seq<Cell>, c: Cell): seq<Cell> {
    if locs == [] || Before(keys, p, c, locs[0]) then [c] + locs
    else [locs[0]] + InsertLoc(keys, p, locs[1..], c)
  }

  function SortLocs(keys: seq<KeyCt>, p: Plan, cells: seq<Cell>): seq<Cell> {
    if cells == [] then [] else InsertLoc(keys, p, SortLocs(keys, p, cells[1..]), cells[0])
  }

  lemma {:induction false} InsertLocContents(keys: seq<KeyCt>, p: Plan, locs: seq<Cell>, c: Cell)
    ensures multiset(InsertLoc(keys, p, locs, c)) == multiset(locs) + multiset{c}
  {
    if !(locs == [] || Before(keys, p, c, locs[0])) {
      InsertLocContents(keys, p, locs[1..], c);
      assert locs == [locs[0]] + locs[1..];
    }
  }

  lemma {:induction false} InsertLocSorted(keys: seq<KeyCt>, p: Plan, locs: seq<Cell>, c: Cell)
    requires Sorted(keys, p, locs) && c !in locs
    ensures Sorted(keys, p, InsertLoc(keys, p, locs, c))
  {
    if locs == [] {
    } else if Before(keys, p, c, locs[0]) {
      assert forall j :: 0 <= j < |locs| ==> Before(keys, p, c, locs[j]);
    } else {
      var rest := InsertLoc(keys, p, locs[1..], c);
      InsertLocSorted(keys, p, locs[1..], c);
      InsertLocContents(keys, p, locs[1..], c);
      forall j | 0 <= j < |rest|
        ensures Before(keys, p, locs[0], rest[j])
      {
        assert rest[j] in multiset(rest);
        if rest[j] != c {
          assert rest[j] in locs[1..];
        }
      }
    }
  }

  predicate Distinct<T(==)>(s: seq<T>) {
    forall i, j :: 0 <= i < j < |s| ==> s[i] != s[j]
  }

  /** Sorting arranges the cells of a transaction with distinct keys in strict order, losing none. */
  lemma {:induction false} SortLocsArranges(keys: seq<KeyCt>, p: Plan, cells: seq<Cell>)
    requires Distinct(cells)
    ensures Sorted(keys, p, SortLocs(keys, p, cells)) && multiset(SortLocs(keys, p, cells)) == multiset(cells)
  {
    if cells != [] {
      var rest := SortLocs(keys, p, cells[1..]);
      SortLocsArranges(keys, p, cells[1..]);
      assert cells == [cells[0]] + cells[1..];
      assert cells[0] !in multiset(cells[1..]);
      InsertLocSorted(keys, p, rest, cells[0]);
      InsertLocContents(keys, p, rest, cells[0]);
    }
  }

  // ---------------------------------------------------------------- ranks

  /** How many of the first `n` cells are in register `r`. */
  function CountOn(locs: seq<Cell>, n: nat, r: Reg): nat
    requires n <= |locs|
  {
    if n == 0 then 0 else CountOn(locs, n - 1, r) + (if locs[n - 1].r == r then 1 else 0)
  }

  /** The place of cell `i` among those of its register. */
  function Rank(locs: seq<Cell>, i: nat): nat
    requires i < |locs|
  {
    CountOn(locs, i, locs[i].r)
  }

  /** The cells of a register follow one another. */
  predicate Grouped(locs: seq<Cell>) {
    forall i, j, k :: 0 <= i < j < k < |locs| && locs[i].r == locs[k].r ==> locs[j].r == locs[i].r
  }

  lemma SortedIsGrouped(keys: seq<KeyCt>, p: Plan, locs: seq<Cell>)
    requires Sorted(keys, p, locs)
    ensures Grouped(locs)
  {
    forall i, j, k | 0 <= i < j < k < |locs| && locs[i].r == locs[k].r
      ensures locs[j].r == locs[i].r
    {
      assert Before(keys, p, locs[i], locs[j]) && Before(keys, p, locs[j], locs[k]);
    }
  }

  lemma {:induction false} CountGrows(locs: seq<Cell>, n: nat, m: nat, r: Reg)
    requires n <= m <= |locs|
    ensures CountOn(locs, n, r) <= CountOn(locs, m, r)
  {
    if n < m {
      CountGrows(locs, n, m - 1, r);
    }
  }

  /** Two cells of one register have different ranks. */
  lemma RanksDiffer(locs: seq<Cell>, i: nat, j: nat)
    requires i < j < |locs| && locs[i].r == locs[j].r
    ensures Rank(locs, i) < Rank(locs, j)
  {
    CountGrows(locs, i + 1, j, locs[i].r);
  }

  lemma {:induction false} NoneBefore(locs: seq<Cell>, n: nat, r: Reg)
    requires n <= |locs| && forall j :: 0 <= j < n ==> locs[j].r != r
    ensures CountOn(locs, n, r) == 0
  {
    if n > 0 {
      NoneBefore(locs, n - 1, r);
    }
  }

  lemma {:induction false} RankInGroup(locs: seq<Cell>, start: nat, i: nat, r: Reg)
    requires start <= i <= |locs| && forall j :: 0 <= j < start ==> locs[j].r != r
    requires forall j :: start <= j < i ==> locs[j].r == r
    ensures CountOn(locs, i, r) == i - start
  {
    if start == i {
      NoneBefore(locs, i, r);
    } else {
      RankInGroup(locs, start, i - 1, r);
    }
  }

  // ---------------------------------------------------------------- passes

  /** The passes are exactly the cells, each in the pass of its rank, and there are no more than needed. */
  ghost predicate IsSplit(locs: seq<Cell>, passes: seq<Grid>) {
    && (forall i: nat :: i < |locs| ==> InItsPass(locs, passes, i))
    && (forall p, c :: 0 <= p < |passes| && Touches(passes[p], c) ==> FromRank(locs, |locs|, c, p))
    && (passes != [] ==> exists i: nat :: Attains(locs, i, |passes|))
  }

  predicate InItsPass(locs: seq<Cell>, passes: seq<Grid>, i: nat) {
    i < |locs| && Rank(locs, i) < |passes| && Touches(passes[Rank(locs, i)], locs[i])
  }

  predicate HasRank(locs: seq<Cell>, i: nat, p: nat) {
    i < |locs| && Rank(locs, i) == p
  }

  predicate RankFrom(locs: seq<Cell>, i: nat, start: nat) {
    i < |locs| && Rank(locs, i) + start == i
  }

  /** The last of `n` ranks. */
  predicate Attains(locs: seq<Cell>, i: nat, n: nat) {
    i < |locs| && Rank(locs, i) + 1 == n
  }

  predicate RankBelow(locs: seq<Cell>, i: nat, n: nat) {
    i < |locs| && Rank(locs, i) < n
  }

  predicate Ranked(locs: seq<Cell>, i: nat, c: Cell, p: nat) {
    i < |locs| && locs[i] == c && Rank(locs, i) == p
  }

  ghost predicate FromRank(locs: seq<Cell>, n: nat, c: Cell, p: nat) {
    exists i: nat :: i < n && Ranked(locs, i, c, p)
  }

  /** With distinct cells, each of them is in exactly one pass. */
  lemma InExactlyOnePass(locs: seq<Cell>, passes: seq<Grid>, i: nat, p: nat)
    requires IsSplit(locs, passes) && Distinct(locs) && i < |locs| && p < |passes|
    ensures Touches(passes[p], locs[i]) <==> p == Rank(locs, i)
  {
    assert InItsPass(locs, passes, i);
    if Touches(passes[p], locs[i]) {
      assert FromRank(locs, |locs|, locs[i], p);
      var j: nat :| j < |locs| && Ranked(locs, j, locs[i], p);
      assert j == i;
    }
  }

  lemma {:induction false} RankBelowCount(locs: seq<Cell>, n: nat, r: Reg, p: nat)
    requires n <= |locs| && p < CountOn(locs, n, r)
    ensures exists i: nat :: i < n && locs[i].r == r && HasRank(locs, i, p)
  {
    if locs[n - 1].r == r && p == CountOn(locs, n - 1, r) {
      assert HasRank(locs, n - 1, p);
    } else {
      RankBelowCount(locs, n - 1, r, p);
    }
  }

  /** The number of passes is the largest number of cells in one register. */
  lemma PassCountIsMax(locs: seq<Cell>, passes: seq<Grid>)
    requires IsSplit(locs, passes)
    ensures forall r :: CountOn(locs, |locs|, r) <= |passes|
    ensures passes != [] ==> exists r :: CountOn(locs, |locs|, r) == |passes|
  {
    forall r
      ensures CountOn(locs, |locs|, r) <= |passes|
    {
      if CountOn(locs, |locs|, r) > 0 {
        var last := CountOn(locs, |locs|, r) - 1;
        RankBelowCount(locs, |locs|, r, last);
        var i: nat :| i < |locs| && locs[i].r == r && HasRank(locs, i, last);
        assert InItsPass(locs, passes, i);
      }
    }
    if passes != [] {
      var i: nat :| Attains(locs, i, |passes|);
      CountGrows(locs, i + 1, |locs|, locs[i].r);
      assert CountOn(locs, |locs|, locs[i].r) == |passes|;
    }
  }

  /** Index 0 of a register, its most used key, never lands in a later pass. */
  lemma ZeroInFirstPass(keys: seq<KeyCt>, locs: seq<Cell>, i: nat)
    requires KeysOk(keys) && Sorted(keys, PlaceAll(keys), locs) && i < |locs| && Rank(locs, i) > 0
    requires forall j :: 0 <= j < |locs| ==> locs[j] in PlaceAll(keys).backward
    ensures locs[i].idx != 0
  {
    RankBelowCount(locs, i, locs[i].r, 0);
    var j: nat :| j < i && locs[j].r == locs[i].r && HasRank(locs, j, 0);
    LayoutOrder(keys);
    assert Before(keys, PlaceAll(keys), locs[j], locs[i]);
  }

  // ---------------------------------------------------------------- the two loops

  /** Where a group starts, nothing before is of the same register as anything after. */
  ghost predicate AtGroup(locs: seq<Cell>, i: nat) {
    i <= |locs| && forall j, k :: 0 <= j < i <= k < |locs| ==> locs[j].r != locs[k].r
  }

  /** The end of the group that starts at `start`. */
  method GroupEnd(locs: seq<Cell>, start: nat) returns (i: nat)
    requires Grouped(locs) && start < |locs| && AtGroup(locs, start)
    ensures start < i <= |locs| && AtGroup(locs, i)
    ensures forall j: nat :: start <= j < i ==> RankFrom(locs, j, start)
  {
    i := start + 1;
    while i < |locs| && locs[i].r == locs[start].r
      invariant start < i <= |locs| && forall j :: start <= j < i ==> locs[j].r == locs[start].r
    {
      i := i + 1;
    }
    forall j: nat | start <= j < i
      ensures RankFrom(locs, j, start)
    {
      RankInGroup(locs, start, j, locs[start].r);
    }
    forall j, k | 0 <= j < i <= k < |locs|
      ensures locs[j].r != locs[k].r
    {
      assert k > i && j >= start ==> locs[i].r != locs[start].r == locs[j].r;
    }
  }

  /** The longest group. */
  method CountPasses(locs: seq<Cell>) returns (n: nat)
    requires Grouped(locs)
    ensures forall i: nat :: i < |locs| ==> RankBelow(locs, i, n)
    ensures n > 0 ==> exists i: nat :: Attains(locs, i, n)
  {
    var i := 0;
    n := 0;
    while i < |locs|
      invariant AtGroup(locs, i)
      invariant forall j: nat :: j < i ==> RankBelow(locs, j, n)
      invariant n > 0 ==> exists j: nat :: Attains(locs, j, n)
    {
      var start := i;
      i := GroupEnd(locs, start);
      ghost var n0 := n;
      if i - start > n {
        n := i - start;
        assert RankFrom(locs, i - 1, start) && Attains(locs, i - 1, n);
      }
      forall j: nat | j < i
        ensures RankBelow(locs, j, n)
      {
        assert if j < start then RankBelow(locs, j, n0) else RankFrom(locs, j, start);
      }
    }
  }

  /** The passes hold the first `n` cells, and nothing else. */
  ghost predicate HoldsAll(locs: seq<Cell>, passes: seq<Grid>, n: nat) {
    n <= |locs| && forall i: nat :: i < n ==> InItsPass(locs, passes, i)
  }

  ghost predicate HoldsOnly(locs: seq<Cell>, passes: seq<Grid>, n: nat) {
    forall p, c :: 0 <= p < |passes| && Touches(passes[p], c) ==> FromRank(locs, n, c, p)
  }

  function Put(passes: seq<Grid>, p: nat, c: Cell): seq<Grid>
    requires p < |passes|
  {
    var g: Grid := passes[p][c.r := c.idx];
    passes[p := g]
  }

  lemma PutHoldsAll(locs: seq<Cell>, passes: seq<Grid>, n: nat)
    requires HoldsAll(locs, passes, n) && n < |locs| && Rank(locs, n) < |passes|
    ensures HoldsAll(locs, Put(passes, Rank(locs, n), locs[n]), n + 1)
  {
    var passes' := Put(passes, Rank(locs, n), locs[n]);
    forall i: nat | i < n
      ensures InItsPass(locs, passes', i)
    {
      assert InItsPass(locs, passes, i);
      if locs[i].r == locs[n].r {
        RanksDiffer(locs, i, n);
      }
    }
  }

  lemma PutHoldsOnly(locs: seq<Cell>, passes: seq<Grid>, n: nat, p0: nat)
    requires HoldsOnly(locs, passes, n) && n < |locs| && p0 < |passes| && p0 == Rank(locs, n)
    ensures HoldsOnly(locs, Put(passes, p0, locs[n]), n + 1)
  {
    var passes' := Put(passes, p0, locs[n]);
    assert Ranked(locs, n, locs[n], p0);
    forall p, c | 0 <= p < |passes'| && Touches(passes'[p], c)
      ensures FromRank(locs, n + 1, c, p)
    {
      if p != p0 || c.r != locs[n].r {
        assert FromRank(locs, n, c, p);
        var i: nat :| i < n && Ranked(locs, i, c, p);
        assert i < n + 1 && Ranked(locs, i, c, p);
      }
    }
  }

  /** The constructor's two loops over the ordered cells. */
  method Split(locs: seq<Cell>) returns (passes: seq<Grid>)
    requires Grouped(locs)
    ensures IsSplit(locs, passes)
  {
    var n := CountPasses(locs);
    passes := seq(n, p => map[]);
    var i := 0;
    while i < |locs|
      invariant AtGroup(locs, i) && |passes| == n && HoldsAll(locs, passes, i) && HoldsOnly(locs, passes, i)
    {
      passes, i := PutGroup(locs, passes, i);
    }
  }

  /** One group: its cells go into the first pass, the second and so on. */
  method PutGroup(locs: seq<Cell>, passes0: seq<Grid>, start: nat) returns (passes: seq<Grid>, i: nat)
    requires Grouped(locs) && start < |locs| && AtGroup(locs, start)
    requires forall j: nat :: j < |locs| ==> RankBelow(locs, j, |passes0|)
    requires HoldsAll(locs, passes0, start) && HoldsOnly(locs, passes0, start)
    ensures start < i <= |locs| && AtGroup(locs, i) && |passes| == |passes0|
    ensures HoldsAll(locs, passes, i) && HoldsOnly(locs, passes, i)
  {
    var end := GroupEnd(locs, start);
    i := start;
    passes := passes0;
    while i < end
      invariant start <= i <= end && |passes| == |passes0| && HoldsAll(locs, passes, i) && HoldsOnly(locs, passes, i)
    {
      assert RankFrom(locs, i, start) && RankBelow(locs, i, |passes|);
      PutHoldsAll(locs, passes, i);
      PutHoldsOnly(locs, passes, i, i - start);
      passes := Put(passes, i - start, locs[i]);
      i := i + 1;
    }
  }
}
