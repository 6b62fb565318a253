/**
  The send loop of a hot period: hot transactions go out in windows of one mini-batch, with a node
  barrier for every mini-batch boundary. Proved equal to a schedule that looks at one queue entry
  or one boundary at a time.
 */
module HotPeriod {

  const MAX_IN_FLIGHT: nat := 200

  datatype Event = Send(mb: nat) | Bar

  /** From mini-batch `mb` on: send what belongs to it, then a barrier, then the next one. */
  function Schedule(q: seq<nat>, mb: nat, current: nat): seq<Event>
    decreases if mb < current then current - mb else 0, |q|
  {
    if mb >= current then []
    else if q != [] && q[0] == mb then [Send(mb)] + Schedule(q[1..], mb, current)
    else [Bar] + Schedule(q, mb + 1, current)
  }

  function Bars(n: nat): seq<Event> {
    seq(n, i => Bar)
  }

  function Sends(q: seq<nat>): seq<Event> {
    seq(|q|, i requires 0 <= i < |q| => Send(q[i]))
  }

  /** Mini-batch numbers as the cold phase leaves them: in order, and of this period. */
  predicate QueueOk(q: seq<nat>, past: nat, current: nat) {
    && past <= current
    && (forall i :: 0 <= i < |q| ==> past <= q[i] < current)
    && (forall i, j :: 0 <= i < j < |q| ==> q[i] <= q[j])
  }

  // ---------------------------------------------------------------- the schedule

  lemma {:induction false} BarsToNext(q: seq<nat>, mb: nat, next: nat, current: nat)
    requires mb <= next <= current && (q != [] ==> next <= q[0])
    ensures Schedule(q, mb, current) == Bars(next - mb) + Schedule(q, next, current)
    decreases next - mb
  {
    if mb < next {
      BarsToNext(q, mb + 1, next, current);
      MoreBars(next - mb - 1, Schedule(q, next, current));
    }
  }

  lemma MoreBars(n: nat, rest: seq<Event>)
    ensures [Bar] + (Bars(n) + rest) == Bars(n + 1) + rest
  {
  }

  lemma {:induction false} SendsOfBatch(q: seq<nat>, n: nat, mb: nat, current: nat)
    requires mb < current && n <= |q| && forall i :: 0 <= i < n ==> q[i] == mb
    ensures Schedule(q, mb, current) == Sends(q[..n]) + Schedule(q[n..], mb, current)
  {
    if n > 0 {
      SendsOfBatch(q[1..], n - 1, mb, current);
      assert q[1..][..n - 1] == q[1..n] && q[1..][n - 1..] == q[n..] && [mb] + q[1..n] == q[..n];
      MoreSends(mb, q[1..n], Schedule(q[n..], mb, current));
    } else {
      assert Sends(q[..0]) == [];
    }
  }

  lemma MoreSends(mb: nat, q: seq<nat>, rest: seq<Event>)
    ensures [Send(mb)] + (Sends(q) + rest) == Sends([mb] + q) + rest
  {
  }

  /** The number of barriers among the first `i` events. */
  function Level(events: seq<Event>, i: nat): nat
    requires i <= |events|
  {
    if i == 0 then 0 else Level(events, i - 1) + (if events[i - 1] == Bar then 1 else 0)
  }

  lemma {:induction false} LevelOfRest(a: seq<Event>, b: seq<Event>, i: nat)
    requires i <= |b|
    ensures Level(a + b, |a| + i) == Level(a, |a|) + Level(b, i)
  {
    if i == 0 {
      LevelOfPrefix(a, b, |a|);
    } else {
      LevelOfRest(a, b, i - 1);
    }
  }

  lemma {:induction false} LevelOfPrefix(a: seq<Event>, b: seq<Event>, i: nat)
    requires i <= |a|
    ensures Level(a + b, i) == Level(a, i)
  {
    if i > 0 {
      LevelOfPrefix(a, b, i - 1);
    }
  }

  lemma {:induction false} LevelGrows(events: seq<Event>, i: nat, j: nat)
    requires i <= j <= |events|
    ensures Level(events, i) <= Level(events, j)
    decreases j
  {
    if i < j {
      LevelGrows(events, i, j - 1);
    }
  }

  function SentBy(events: seq<Event>): seq<nat> {
    if events == [] then [] else (if events[0].Send? then [events[0].mb] else []) + SentBy(events[1..])
  }

  lemma QueueRest(q: seq<nat>, past: nat, current: nat)
    requires QueueOk(q, past, current) && past < current
    ensures if q != [] && q[0] == past then QueueOk(q[1..], past, current) else QueueOk(q, past + 1, current)
  {
  }

  /** The first event of a schedule and the rest. */
  lemma FirstEvent(q: seq<nat>, past: nat, current: nat)
    requires QueueOk(q, past, current) && past < current
    ensures var first := q != [] && q[0] == past;
      var rest := if first then Schedule(q[1..], past, current) else Schedule(q, past + 1, current);
      && Schedule(q, past, current) == [if first then Send(past) else Bar] + rest
      && Level(Schedule(q, past, current), 1 + |rest|) == (if first then 0 else 1) + Level(rest, |rest|)
      && forall i :: 0 <= i < |rest| ==>
         Level(Schedule(q, past, current), 1 + i) == (if first then 0 else 1) + Level(rest, i)
  {
    var first := q != [] && q[0] == past;
    var a := [if first then Send(past) else Bar];
    var rest := if first then Schedule(q[1..], past, current) else Schedule(q, past + 1, current);
    OneEvent(a);
    LevelOfRest(a, rest, |rest|);
    forall i | 0 <= i < |rest|
      ensures Level(a + rest, 1 + i) == Level(a, 1) + Level(rest, i)
    {
      LevelOfRest(a, rest, i);
    }
  }

  /** Exactly `current - past` barriers. */
  lemma {:induction false} ScheduleBarriers(q: seq<nat>, past: nat, current: nat)
    requires QueueOk(q, past, current)
    ensures var events := Schedule(q, past, current); Level(events, |events|) == current - past
    decreases current - past, |q|
  {
    if past < current {
      QueueRest(q, past, current);
      FirstEvent(q, past, current);
      if q != [] && q[0] == past {
        ScheduleBarriers(q[1..], past, current);
      } else {
        ScheduleBarriers(q, past + 1, current);
      }
    }
  }

  /** Every queue entry is sent, once and in order. */
  lemma {:induction false} ScheduleSendsAll(q: seq<nat>, past: nat, current: nat)
    requires QueueOk(q, past, current)
    ensures SentBy(Schedule(q, past, current)) == q
    decreases current - past, |q|
  {
    if past < current {
      QueueRest(q, past, current);
      if q != [] && q[0] == past {
        ScheduleSendsAll(q[1..], past, current);
        assert Schedule(q, past, current)[1..] == Schedule(q[1..], past, current);
      } else {
        ScheduleSendsAll(q, past + 1, current);
        assert Schedule(q, past, current)[1..] == Schedule(q, past + 1, current);
      }
    }
  }

  /** Mini-batch `m` is sent after exactly `m - past` barriers. */
  lemma {:induction false} SentAtItsLevel(q: seq<nat>, past: nat, current: nat, i: nat)
    requires QueueOk(q, past, current) && i < |Schedule(q, past, current)| && Schedule(q, past, current)[i].Send?
    ensures var events := Schedule(q, past, current);
      past <= events[i].mb < current && Level(events, i) == events[i].mb - past
    decreases current - past, |q|
  {
    QueueRest(q, past, current);
    FirstEvent(q, past, current);
    if i > 0 {
      if q != [] && q[0] == past {
        SentAtItsLevel(q[1..], past, current, i - 1);
      } else {
        SentAtItsLevel(q, past + 1, current, i - 1);
      }
    }
  }

  lemma OneEvent(a: seq<Event>)
    requires |a| == 1
    ensures Level(a, 1) == if a[0] == Bar then 1 else 0
  {
    assert Level(a, 0) == 0;
  }

  // ---------------------------------------------------------------- the loop

  /** A node barrier for each mini-batch from `from` to before `to`. */
  method WaitNodes(events: seq<Event>, from: nat, to: nat) returns (r: seq<Event>)
    ensures r == events + Bars(if from < to then to - from else 0)
  {
    r := events;
    var i := from;
    while i < to
      invariant from <= i && (i <= to || i == from) && r == events + Bars(i - from)
    {
      r := r + [Bar];
      i := i + 1;
    }
  }

  /** The end of the longest window that starts at `start`. */
  method Window(q: seq<nat>, qSize: nat, start: nat) returns (qp: nat)
    requires start < qSize <= |q|
    ensures start < qp <= qSize && qp - start <= MAX_IN_FLIGHT && forall j :: start <= j < qp ==> q[j] == q[start]
    ensures qp == qSize || q[qp] != q[start] || qp - start == MAX_IN_FLIGHT
  {
    qp := start;
    while qp < qSize && q[start] == q[qp] && qp - start < MAX_IN_FLIGHT
      invariant start <= qp <= qSize && qp - start <= MAX_IN_FLIGHT && forall j :: start <= j < qp ==> q[j] == q[start]
      decreases qSize - qp
    {
      qp := qp + 1;
    }
  }

  /** What is done, with what is left from entry `qp` and mini-batch `mb` on, is the schedule. */
  ghost predicate OnSchedule(events: seq<Event>, queue: seq<nat>, past: nat, current: nat, qp: nat, mb: nat) {
    qp <= |queue| && Schedule(queue, past, current) == events + Schedule(queue[qp..], mb, current)
  }

  lemma WindowSent(events: seq<Event>, queue: seq<nat>, past: nat, current: nat, start: nat, qp: nat)
    requires start < qp <= |queue| && queue[start] < current && forall j :: start <= j < qp ==> queue[j] == queue[start]
    requires OnSchedule(events, queue, past, current, start, queue[start])
    ensures OnSchedule(events + Sends(queue[start..qp]), queue, past, current, qp, queue[start])
  {
    SendsOfBatch(queue[start..], qp - start, queue[start], current);
    assert queue[start..][..qp - start] == queue[start..qp] && queue[start..][qp - start..] == queue[qp..];
    Regroup(events, Sends(queue[start..qp]), Schedule(queue[qp..], queue[start], current));
  }

  lemma BarriersPassed(events: seq<Event>, queue: seq<nat>, past: nat, current: nat, qp: nat, mb: nat, end: nat)
    requires OnSchedule(events, queue, past, current, qp, mb) && mb <= end <= current
    requires qp < |queue| ==> end <= queue[qp]
    ensures OnSchedule(events + Bars(end - mb), queue, past, current, qp, end)
  {
    BarsToNext(queue[qp..], mb, end, current);
    Regroup(events, Bars(end - mb), Schedule(queue[qp..], end, current));
  }

  /**
    `run_hot_period` between its first and last node barrier. `q` is the whole send buffer, of which
    the first `qSize` entries are this period's; the code looks at `q[0]` and at the entry after the
    last whatever `qSize` is.
   */
  method SendLoop(q: seq<nat>, qSize: nat, past: nat, current: nat) returns (events: seq<Event>)
    requires qSize < |q| && QueueOk(q[..qSize], past, current)
    ensures qSize > 0 ==> events == Schedule(q[..qSize], past, current)
    ensures qSize == 0 ==> events == Bars(if q[0] > past then q[0] - past else 0)
  {
    events := [];
    ghost var queue := q[..qSize];
    if qSize > 0 || q[0] > past {
      events := WaitNodes(events, past, q[0]);
    }
    if qSize == 0 {
      return;
    }
    assert queue[0..] == queue;
    BarriersPassed([], queue, past, current, 0, past, q[0]);
    var qp := 0;
    while qp < qSize
      invariant qp <= qSize && OnSchedule(events, queue, past, current, qp, if qp < qSize then q[qp] else current)
    {
      var start := qp;
      qp := Window(q, qSize, start);
      WindowSent(events, queue, past, current, start, qp);
      assert queue[start..qp] == q[start..qp];
      events := events + Sends(q[start..qp]);
      if q[start] < q[qp] || qp == qSize {
        var end := if qp == qSize then current else q[qp];
        BarriersPassed(events, queue, past, current, qp, q[start], end);
        events := WaitNodes(events, q[start], end);
      }
    }
  }

  lemma Regroup(a: seq<Event>, b: seq<Event>, c: seq<Event>)
    ensures a + (b + c) == (a + b) + c
  {
  }

  /** An empty queue leaves the node with the right number of barriers only if the stale entry happens to say so. */
  lemma EmptyQueueAligned(stale: nat, past: nat, current: nat)
    requires past <= current
    ensures var events := Bars(if stale > past then stale - past else 0);
      Level(events, |events|) == current - past <==> stale == current || (stale < past && past == current)
  {
    BarsLevel(if stale > past then stale - past else 0);
  }

  lemma {:induction false} BarsLevel(n: nat)
    ensures Level(Bars(n), n) == n
  {
    if n > 0 {
      BarsLevel(n - 1);
      LevelOfPrefix(Bars(n - 1), [Bar], n - 1);
      assert Bars(n) == Bars(n - 1) + [Bar];
    }
  }
}
