/**
  The serializability checker of the simulator (`serial_checker_t`): it collects "ran after"
  dependencies between transactions and walks them depth first with three colours.
 */
module SerialChecker {

  type TxnId = nat
  type Graph = map<TxnId, seq<TxnId>>

  datatype Color = Unvisited | Visiting | Visited

  function Succ(g: Graph, u: TxnId): seq<TxnId> {
    if u in g then g[u] else []
  }

  // ---------------------------------------------------------------- cycles and topological orders

  ghost predicate IsPath(g: Graph, p: seq<TxnId>) {
    forall i :: 0 <= i < |p| - 1 ==> p[i + 1] in Succ(g, p[i])
  }

  ghost predicate IsCycle(g: Graph, p: seq<TxnId>) {
    |p| >= 2 && IsPath(g, p) && p[0] == p[|p| - 1]
  }

  ghost predicate HasCycle(g: Graph) {
    exists p :: IsCycle(g, p)
  }

  /** Every transaction comes after all that it depends on. */
  ghost predicate IsTopological(g: Graph, order: seq<TxnId>) {
    && (forall i, j :: 0 <= i < j < |order| ==> order[i] != order[j])
    && (forall i, v :: 0 <= i < |order| && v in Succ(g, order[i]) ==> v in order[..i])
  }

  lemma {:induction false} PathGoesBack(g: Graph, order: seq<TxnId>, p: seq<TxnId>, i: nat, j: nat)
    requires IsTopological(g, order) && IsPath(g, p) && |p| >= 2 && i < |order| && j < |order|
    requires p[0] == order[i] && p[|p| - 1] == order[j]
    requires forall k :: 0 <= k < |p| ==> p[k] in order
    ensures j < i
    decreases |p|
  {
    assert p[1] in Succ(g, p[0]);
    var k :| 0 <= k < i && order[..i][k] == p[1];
    if |p| > 2 {
      assert forall m :: 0 <= m < |p[1..]| ==> p[1..][m] == p[m + 1];
      PathGoesBack(g, order, p[1..], k, j);
    }
  }

  /** A topological order of every transaction that depends on another one rules out cycles. */
  lemma TopologicalIsAcyclic(g: Graph, order: seq<TxnId>)
    requires IsTopological(g, order) && forall u :: u in g && g[u] != [] ==> u in order
    ensures !HasCycle(g)
  {
    forall p
      ensures !IsCycle(g, p)
    {
      if IsCycle(g, p) {
        forall k | 0 <= k < |p|
          ensures p[k] in order
        {
          if k < |p| - 1 {
            assert p[k + 1] in Succ(g, p[k]);
          } else {
            assert p[1] in Succ(g, p[0]);
          }
        }
        var i :| 0 <= i < |order| && order[i] == p[0];
        PathGoesBack(g, order, p, i, i);
      }
    }
  }

  // ---------------------------------------------------------------- the checker

  ghost function Ids(n: nat): (ids: set<TxnId>)
    ensures forall i :: i in ids <==> 1 <= i <= n
  {
    if n == 0 then {} else Ids(n - 1) + {n}
  }

  class Checker {
    var deps: Graph
    var colors: map<TxnId, Color>
    var maxTid: nat
    /** The transactions in the order in which they turned VISITED. */
    ghost var order: seq<TxnId>

    constructor ()
      ensures ValidGraph() && deps == map[] && colors == map[] && order == []
    {
      deps, colors, maxTid, order := map[], map[], 0, [];
    }

    /** Transactions are numbered from 1 on, and `maxTid` bounds those that depend on something. */
    ghost predicate ValidGraph()
      reads this
    {
      forall u :: u in deps ==> 1 <= u <= maxTid
    }

    method AddDep(tid: TxnId, prev: TxnId)
      requires ValidGraph() && tid >= 1
      modifies this`deps, this`maxTid
      ensures ValidGraph()
      ensures maxTid == if old(maxTid) < tid then tid else old(maxTid)
      ensures deps == old(deps)[tid := Succ(old(deps), tid) + [prev]]
    {
      if maxTid < tid {
        maxTid := tid;
      }
      if tid !in deps {
        deps := deps[tid := []];
      }
      deps := deps[tid := deps[tid] + [prev]];
    }

    /** Absent ids read as UNVISITED. */
    function ColorOf(v: TxnId): Color
      reads this`colors
    {
      if v in colors then colors[v] else Unvisited
    }

    /** `stack` is the path of the recursion: exactly the VISITING ids. */
    ghost predicate Walking(stack: seq<TxnId>)
      reads this
    {
      && IsPath(deps, stack)
      && (forall v :: ColorOf(v) == Visiting <==> v in stack)
      && (forall v :: ColorOf(v) == Visited <==> v in order)
      && IsTopological(deps, order)
    }

    ghost function UnvisitedIn(nodes: set<TxnId>): set<TxnId>
      reads this`colors
    {
      set v | v in nodes && ColorOf(v) == Unvisited
    }

    ghost predicate Closed(nodes: set<TxnId>)
      reads this`deps
    {
      forall u, v :: u in nodes && v in Succ(deps, u) ==> v in nodes
    }

    method WalkGraph(u: TxnId, ghost stack: seq<TxnId>, ghost nodes: set<TxnId>) returns (ok: bool)
      requires Walking(stack) && ColorOf(u) == Unvisited
      requires stack == [] || u in Succ(deps, stack[|stack| - 1])
      requires u in nodes && Closed(nodes)
      modifies this`colors, this`order
      decreases |UnvisitedIn(nodes)|
      ensures ok ==> Walking(stack) && old(order) <= order && u in order
      ensures ok ==> UnvisitedIn(nodes) <= old(UnvisitedIn(nodes))
      ensures !ok ==> HasCycle(deps)
    {
      var next := Succ(deps, u);
      ghost var stack' := stack + [u];
      ghost var before := UnvisitedIn(nodes);
      colors := colors[u := Visiting];
      assert Walking(stack');
      for i := 0 to |next|
        invariant Walking(stack')
        invariant old(order) <= order
        invariant forall j :: 0 <= j < i ==> next[j] in order
        invariant UnvisitedIn(nodes) <= before - {u}
      {
        var v := next[i];
        if ColorOf(v) == Unvisited {
          assert u in before && UnvisitedIn(nodes) < before;
          SmallerSet(UnvisitedIn(nodes), before);
          var sub := WalkGraph(v, stack', nodes);
          if !sub {
            return false;
          }
        } else if ColorOf(v) == Visiting {
          BackEdge(deps, stack', v);
          return false;
        }
      }
      assert u !in order;
      AppendTopological(deps, order, u);
      colors := colors[u := Visited];
      order := order + [u];
      return true;
    }

    /** Walks from every id; true when the walk meets no cycle. */
    method Check() returns (ok: bool)
      requires ValidGraph() && colors == map[] && order == []
      modifies this`colors, this`order
      ensures ok <==> !HasCycle(deps)
      ensures ok ==> IsTopological(deps, order) && forall i :: 1 <= i <= maxTid ==> i in order
      ensures ok ==> forall v :: ColorOf(v) != Visiting
    {
      ghost var nodes := (set u | u in deps) + (set u, v | u in deps && v in deps[u] :: v) + Ids(maxTid);
      for i := 1 to maxTid + 1
        invariant Walking([])
        invariant forall j :: 1 <= j < i ==> j in order
      {
        if ColorOf(i) == Unvisited {
          var sub := WalkGraph(i, [], nodes);
          if !sub {
            return false;
          }
        }
      }
      TopologicalIsAcyclic(deps, order);
      return true;
    }
  }

  lemma SmallerSet(a: set<TxnId>, b: set<TxnId>)
    requires a < b
    ensures |a| < |b|
  {
    var x :| x in b && x !in a;
    SubsetSize(a, b - {x});
  }

  lemma {:induction false} SubsetSize(a: set<TxnId>, b: set<TxnId>)
    requires a <= b
    ensures |a| <= |b|
  {
    if a != {} {
      var x :| x in a;
      SubsetSize(a - {x}, b - {x});
    }
  }

  /** An edge back into the path of the recursion closes a cycle. */
  lemma BackEdge(g: Graph, stack: seq<TxnId>, v: TxnId)
    requires IsPath(g, stack) && stack != [] && v in stack && v in Succ(g, stack[|stack| - 1])
    ensures HasCycle(g)
  {
    var k :| 0 <= k < |stack| && stack[k] == v;
    var p := stack[k..] + [v];
    assert IsCycle(g, p);
  }

  lemma AppendTopological(g: Graph, order: seq<TxnId>, u: TxnId)
    requires IsTopological(g, order) && u !in order && forall v :: v in Succ(g, u) ==> v in order
    ensures IsTopological(g, order + [u])
  {
    var order' := order + [u];
    forall i, v | 0 <= i < |order'| && v in Succ(g, order'[i])
      ensures v in order'[..i]
    {
      assert order'[..i] == order[..i];
      assert i == |order| ==> order[..i] == order;
    }
  }
}
