/**
  Where keys live in the switch: the greedy layout that puts each key, most used first, into the
  register with the least weight so far.
 */
module Layout {
  import opened SwitchModel

  type Key = nat

  datatype KeyCt = KeyCt(key: Key, ct: nat)

  const N_REGS: nat := N_STAGES * REGS_PER_STAGE

  /** Registers in the order the loops visit them. */
  function RegAt(i: nat): Reg {
    Reg(i / REGS_PER_STAGE, i % REGS_PER_STAGE)
  }

  function RegNum(r: Reg): nat {
    r.stage * REGS_PER_STAGE + r.reg
  }

  lemma RegNumAt(i: nat)
    ensures RegNum(RegAt(i)) == i && RegAt(i).reg < REGS_PER_STAGE
  {
  }

  lemma RegAtNum(r: Reg)
    requires RegOk(r)
    ensures RegNum(r) < N_REGS && RegAt(RegNum(r)) == r
  {
  }

  predicate RegOk(r: Reg) {
    r.stage < N_STAGES && r.reg < REGS_PER_STAGE
  }

  /** Keys as `get_key_cts` returns them: each once, used at least once, most used first. */
  predicate KeysOk(keys: seq<KeyCt>) {
    && (forall i :: 0 <= i < |keys| ==> keys[i].ct > 0)
    && (forall i, j :: 0 <= i < j < |keys| ==> keys[i].key != keys[j].key && keys[j].ct <= keys[i].ct)
  }

  // ---------------------------------------------------------------- the layout, key by key

  /** `weight` and `next` per register; where each key is and which key each cell holds. */
  datatype Plan = Plan(weight: seq<nat>, next: seq<nat>, forward: map<Key, Cell>, backward: map<Cell, Key>)

  predicate Sized(p: Plan) {
    |p.weight| == |p.next| == N_REGS
  }

  function Empty(): Plan {
    Plan(seq(N_REGS, i => 0), seq(N_REGS, i => 0), map[], map[])
  }

  /** The first of the first `n` registers with the least weight. */
  function Lowest(weight: seq<nat>, n: nat): (i: nat)
    requires 0 < n <= |weight|
    ensures i < n && forall j :: 0 <= j < n ==> weight[i] <= weight[j]
  {
    if n == 1 then 0 else
      var i := Lowest(weight, n - 1);
      if weight[i] > weight[n - 1] then n - 1 else i
  }

  lemma {:induction false} LowestIsFirst(weight: seq<nat>, n: nat, j: nat)
    requires 0 < n <= |weight| && j < Lowest(weight, n)
    ensures weight[j] > weight[Lowest(weight, n)]
  {
    if n > 1 && j < Lowest(weight, n - 1) {
      LowestIsFirst(weight, n - 1, j);
    }
  }

  function Place(p: Plan, k: KeyCt): (p': Plan)
    requires Sized(p)
    ensures Sized(p')
  {
    var i := Lowest(p.weight, |p.weight|);
    var c := Cell(RegAt(i), p.next[i]);
    Plan(p.weight[i := p.weight[i] + k.ct], p.next[i := p.next[i] + 1], p.forward[k.key := c], p.backward[c := k.key])
  }

  function PlaceAll(keys: seq<KeyCt>): (p: Plan)
    ensures Sized(p)
  {
    if keys == [] then Empty() else Place(PlaceAll(keys[..|keys| - 1]), keys[|keys| - 1])
  }

  // ---------------------------------------------------------------- the two maps

  ghost predicate Inverse(p: Plan) {
    && (forall k :: k in p.forward ==> p.forward[k] in p.backward && p.backward[p.forward[k]] == k)
    && (forall c :: c in p.backward ==> p.backward[c] in p.forward && p.forward[p.backward[c]] == c)
  }

  /** A register's cells in use are the first ones. */
  ghost predicate Contiguous(p: Plan) {
    && Sized(p)
    && forall c: Cell :: c in p.backward <==> RegOk(c.r) && c.idx < p.next[RegNum(c.r)]
  }

  function KeySet(keys: seq<KeyCt>): set<Key> {
    set i | 0 <= i < |keys| :: keys[i].key
  }

  lemma PlaceKeepsMaps(p: Plan, k: KeyCt)
    requires Inverse(p) && Contiguous(p) && k.key !in p.forward
    ensures Inverse(Place(p, k)) && Contiguous(Place(p, k))
  {
    var i := Lowest(p.weight, |p.weight|);
    RegNumAt(i);
  }

  lemma LastKey(keys: seq<KeyCt>)
    requires KeysOk(keys) && keys != []
    ensures var n := |keys| - 1;
      KeysOk(keys[..n]) && KeySet(keys) == KeySet(keys[..n]) + {keys[n].key} && keys[n].key !in KeySet(keys[..n])
  {
    var n := |keys| - 1;
    forall k | k in KeySet(keys)
      ensures k in KeySet(keys[..n]) + {keys[n].key}
    {
      var i :| 0 <= i < |keys| && keys[i].key == k;
      assert i < n ==> keys[..n][i].key == k;
    }
    forall k | k in KeySet(keys[..n])
      ensures k in KeySet(keys) && k != keys[n].key
    {
      var i :| 0 <= i < n && keys[..n][i].key == k;
      assert keys[i].key == k;
    }
  }

  /** Every key has one cell, every cell in use one key, and the two maps undo each other. */
  lemma {:induction false} LayoutMaps(keys: seq<KeyCt>)
    requires KeysOk(keys)
    ensures var p := PlaceAll(keys); Inverse(p) && Contiguous(p) && p.forward.Keys == KeySet(keys)
  {
    if keys != [] {
      var n := |keys| - 1;
      LastKey(keys);
      LayoutMaps(keys[..n]);
      PlaceKeepsMaps(PlaceAll(keys[..n]), keys[n]);
    }
  }

  // ---------------------------------------------------------------- the loads

  /** How often the keys of register `r` are used. */
  function Load(keys: seq<KeyCt>, forward: map<Key, Cell>, r: Reg): nat {
    if keys == [] then 0 else
      var k := keys[|keys| - 1];
      Load(keys[..|keys| - 1], forward, r) + (if k.key in forward && forward[k.key].r == r then k.ct else 0)
  }

  lemma {:induction false} LoadOfOthers(keys: seq<KeyCt>, forward: map<Key, Cell>, r: Reg, k: Key, c: Cell)
    requires forall i :: 0 <= i < |keys| ==> keys[i].key != k
    ensures Load(keys, forward[k := c], r) == Load(keys, forward, r)
  {
    if keys != [] {
      LoadOfOthers(keys[..|keys| - 1], forward, r, k, c);
    }
  }

  /** A register's weight is its load. */
  lemma {:induction false} WeightIsLoad(keys: seq<KeyCt>, i: nat)
    requires KeysOk(keys) && i < N_REGS
    ensures PlaceAll(keys).weight[i] == Load(keys, PlaceAll(keys).forward, RegAt(i))
  {
    if keys != [] {
      var n := |keys| - 1;
      var p, k := PlaceAll(keys[..n]), keys[n];
      var j := Lowest(p.weight, |p.weight|);
      WeightIsLoad(keys[..n], i);
      LoadOfOthers(keys[..n], p.forward, RegAt(i), k.key, Cell(RegAt(j), p.next[j]));
      RegNumAt(i);
      RegNumAt(j);
    }
  }

  /** No two weights are further apart than the largest count. */
  lemma {:induction false} WeightsAreClose(keys: seq<KeyCt>, i: nat, j: nat)
    requires KeysOk(keys) && keys != [] && i < N_REGS && j < N_REGS
    ensures PlaceAll(keys).weight[i] <= PlaceAll(keys).weight[j] + keys[0].ct
  {
    var n := |keys| - 1;
    var p := PlaceAll(keys[..n]);
    if n > 0 {
      WeightsAreClose(keys[..n], i, j);
      assert keys[n].ct <= keys[0].ct;
    }
    var low := Lowest(p.weight, |p.weight|);
    assert p.weight[low] <= p.weight[j];
  }

  /** The loads of any two registers differ by at most the largest key count. */
  lemma LoadsAreBalanced(keys: seq<KeyCt>, r: Reg, r': Reg)
    requires KeysOk(keys) && keys != [] && RegOk(r) && RegOk(r')
    ensures var f := PlaceAll(keys).forward; Load(keys, f, r) <= Load(keys, f, r') + keys[0].ct
  {
    RegAtNum(r);
    RegAtNum(r');
    WeightIsLoad(keys, RegNum(r));
    WeightIsLoad(keys, RegNum(r'));
    WeightsAreClose(keys, RegNum(r), RegNum(r'));
  }

  // ---------------------------------------------------------------- earlier cells, more used keys

  function CtOf(keys: seq<KeyCt>, k: Key): nat {
    if keys == [] then 0 else if keys[|keys| - 1].key == k then keys[|keys| - 1].ct else CtOf(keys[..|keys| - 1], k)
  }

  lemma {:induction false} CtAtLeastLast(keys: seq<KeyCt>, k: Key)
    requires KeysOk(keys) && keys != [] && k in KeySet(keys)
    ensures CtOf(keys, k) >= keys[|keys| - 1].ct > 0
  {
    var n := |keys| - 1;
    if keys[n].key != k {
      LastKey(keys);
      CtAtLeastLast(keys[..n], k);
      assert keys[n].ct <= keys[n - 1].ct;
    }
  }

  /** Within a register a smaller index means a key that is used at least as often. */
  ghost predicate EarlierIsHotter(p: Plan, keys: seq<KeyCt>) {
    forall c, c' :: c in p.backward && c' in p.backward && c.r == c'.r && c.idx < c'.idx ==>
      CtOf(keys, p.backward[c]) >= CtOf(keys, p.backward[c'])
  }

  lemma PlaceKeepsOrder(p: Plan, keys: seq<KeyCt>)
    requires KeysOk(keys) && keys != [] && Inverse(p) && Contiguous(p) && p.forward.Keys == KeySet(keys[..|keys| - 1])
    requires EarlierIsHotter(p, keys[..|keys| - 1])
    ensures EarlierIsHotter(Place(p, keys[|keys| - 1]), keys)
  {
    var n := |keys| - 1;
    var p' := Place(p, keys[n]);
    LastKey(keys);
    PlaceKeepsMaps(p, keys[n]);
    forall c, c' | c in p'.backward && c' in p'.backward && c.r == c'.r && c.idx < c'.idx
      ensures CtOf(keys, p'.backward[c]) >= CtOf(keys, p'.backward[c'])
    {
      if p'.backward[c'] == keys[n].key {
        CtAtLeastLast(keys, p'.backward[c]);
      } else {
        assert c' in p.backward;
        assert c in p.backward && p'.backward[c] == p.backward[c];
      }
    }
  }

  lemma {:induction false} LayoutOrder(keys: seq<KeyCt>)
    requires KeysOk(keys)
    ensures EarlierIsHotter(PlaceAll(keys), keys)
  {
    if keys != [] {
      var n := |keys| - 1;
      LastKey(keys);
      LayoutMaps(keys[..n]);
      LayoutOrder(keys[..n]);
      PlaceKeepsOrder(PlaceAll(keys[..n]), keys);
    }
  }

  // ---------------------------------------------------------------- the layout object

  predicate IsLowest(weight: seq<nat>, low: nat, n: nat) {
    n <= |weight| && low < |weight| && low == if n == 0 then 0 else Lowest(weight, n)
  }

  class KeyLayout {
    const keys: seq<KeyCt>
    var forward: map<Key, Cell>
    var backward: map<Cell, Key>

    /** The least loaded register, looking through stages and registers in order. */
    static method FindLowest(weight: array<nat>) returns (low: nat)
      requires weight.Length == N_REGS
      ensures low == Lowest(weight[..], weight.Length)
    {
      low := 0;
      ghost var seen := 0;
      for s := 0 to N_STAGES
        invariant seen == s * REGS_PER_STAGE <= weight.Length && IsLowest(weight[..], low, seen)
      {
        for r := 0 to REGS_PER_STAGE
          invariant seen == s * REGS_PER_STAGE + r <= weight.Length && IsLowest(weight[..], low, seen)
        {
          var i := s * REGS_PER_STAGE + r;
          if weight[low] > weight[i] {
            low := i;
          }
          seen := seen + 1;
        }
      }
    }

    constructor (keysSorted: seq<KeyCt>)
      ensures keys == keysSorted && forward == PlaceAll(keys).forward && backward == PlaceAll(keys).backward
    {
      keys := keysSorted;
      forward := map[];
      backward := map[];
      new;
      var weight, next := new nat[N_REGS](i => 0), new nat[N_REGS](i => 0);
      assert weight[..] == Empty().weight && next[..] == Empty().next;
      for n := 0 to |keys|
        invariant Plan(weight[..], next[..], forward, backward) == PlaceAll(keys[..n])
      {
        assert keys[..n + 1][..n] == keys[..n];
        PlaceKey(weight, next, keys[n]);
      }
      assert keys[..|keys|] == keys;
    }

    method PlaceKey(weight: array<nat>, next: array<nat>, k: KeyCt)
      requires weight != next && weight.Length == next.Length == N_REGS
      modifies this`forward, this`backward, weight, next
      ensures Plan(weight[..], next[..], forward, backward) ==
        Place(old(Plan(weight[..], next[..], forward, backward)), k)
    {
      var low := FindLowest(weight);
      var c := Cell(RegAt(low), next[low]);
      next[low] := next[low] + 1;
      weight[low] := weight[low] + k.ct;
      forward := forward[k.key := c];
      backward := backward[c := k.key];
    }

    ghost predicate Valid()
      reads this
    {
      KeysOk(keys) && forward == PlaceAll(keys).forward && backward == PlaceAll(keys).backward
    }

    /** The cell of every key that was placed, and of no other. */
    function Lookup(k: Key): (c: Option<Cell>)
      requires Valid()
      reads this
      ensures c.Some? <==> k in KeySet(keys)
      ensures c.Some? ==> c.value in backward && backward[c.value] == k
    {
      LayoutMaps(keys);
      if k in forward then Some(forward[k]) else None
    }

    /** The key in a cell; the code asserts that there is one. */
    function RevLookup(c: Cell): (k: Key)
      requires Valid() && c in backward
      reads this
      ensures k in KeySet(keys) && Lookup(k) == Some(c)
    {
      LayoutMaps(keys);
      backward[c]
    }
  }
}
