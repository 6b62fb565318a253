/**
  The request loop itself: one pass of it, with the tenant map and the allocator updated in place and
  the messages it sends, against the step that `ControlPlane` reasons about.
 */
module Scheduler {
  import BA = BlockAllocator
  import opened ControlPlane

  datatype Mail = Mail(fd: Fd, msg: Msg)

  /** The messages for one connection, in order. */
  function To(out: seq<Mail>, fd: Fd): seq<Msg> {
    if out == [] then [] else
      To(out[..|out| - 1], fd) + if out[|out| - 1].fd == fd then [out[|out| - 1].msg] else []
  }

  lemma {:induction false} ToAppend(a: seq<Mail>, b: seq<Mail>, fd: Fd)
    ensures To(a + b, fd) == To(a, fd) + To(b, fd)
  {
    if b == [] {
      assert a + b == a;
    } else {
      var n := |b| - 1;
      assert (a + b)[..|a| + n] == a + b[..n];
      ToAppend(a, b[..n], fd);
    }
  }

  lemma ToOne(m: Mail, fd: Fd)
    ensures To([m], fd) == if m.fd == fd then [m.msg] else []
  {
    assert [m][..0] == [];
  }

  /** Connections belong to the tenant that they are listed for. */
  ghost predicate OwnFds(s: State) {
    forall t: Tenant :: InfoOf(s, t).fds <= Members(s, t)
  }

  lemma FdsAreOwn(s: State)
    requires Inv(s)
    ensures OwnFds(s)
  {
    forall t: Tenant
      ensures InfoOf(s, t).fds <= Members(s, t)
    {
      assert UsesInv(s, t);
      HandledIsMember(s, t);
    }
  }

  /** What a connection gets when the tenants in `told` are told to go. */
  function ReadyFor(s: State, told: set<Tenant>, fd: Fd): seq<Msg>
    requires fd < |s.nodes|
  {
    if s.nodes[fd].tenant in told && fd in InfoOf(s, s.nodes[fd].tenant).fds then [Ready] else []
  }

  lemma ReadyNext(s: State, told: set<Tenant>, t: Tenant, out: seq<Mail>, more: seq<Mail>, fd: Fd)
    requires OwnFds(s) && t !in told && fd < |s.nodes|
    requires To(out, fd) == ReadyFor(s, told, fd)
    requires To(more, fd) == if fd in InfoOf(s, t).fds then [Ready] else []
    ensures To(out + more, fd) == ReadyFor(s, told + {t}, fd)
  {
    ToAppend(out, more, fd);
    assert fd in InfoOf(s, t).fds ==> fd in Members(s, t);
  }

  lemma SameMembers(s: State, s': State)
    requires |s'.nodes| == |s.nodes| && forall fd :: 0 <= fd < |s.nodes| ==> s'.nodes[fd].tenant == s.nodes[fd].tenant
    ensures forall t :: Members(s', t) == Members(s, t)
  {
  }

  lemma ReadyKnown(s: State)
    requires Inv(s)
    ensures s.alloc.notify <= s.info.Keys
  {
    forall t | t in s.alloc.notify
      ensures t in s.info
    {
      ReadyIsKnown(s, t);
    }
  }

  /** One ready message on each connection. */
  method SendReady(fds: set<Fd>) returns (out: seq<Mail>)
    ensures forall fd :: To(out, fd) == if fd in fds then [Ready] else []
  {
    out := [];
    var rest := fds;
    while rest != {}
      invariant rest <= fds
      invariant forall fd :: To(out, fd) == if fd in fds - rest then [Ready] else []
      decreases |rest|
    {
      var fd :| fd in rest;
      rest := rest - {fd};
      ghost var before := out;
      out := out + [Mail(fd, Ready)];
      forall fd'
        ensures To(out, fd') == if fd' in fds - rest then [Ready] else []
      {
        ToAppend(before, [Mail(fd, Ready)], fd');
        ToOne(Mail(fd, Ready), fd');
      }
    }
  }

  class Server {
    const alloc: BA.Allocator
    var info: map<Tenant, Info>
    var expected: map<Tenant, nat>

    constructor ()
      ensures fresh(alloc) && alloc.Abs() == BA.Init() && info == map[] && expected == map[]
    {
      alloc := new BA.Allocator();
      info := map[];
      expected := map[];
    }

    ghost predicate Models(s: State)
      reads this, alloc
    {
      alloc.Abs() == s.alloc && info == s.info && Expects(s)
    }

    /** Tenants that are ready were seen before. */
    method Drain(ghost s: State) returns (out: seq<Mail>)
      requires Models(s) && Drainable(s)
      modifies alloc
      ensures Models(Notified(s)) && forall fd :: 0 <= fd < |s.nodes| ==> To(out, fd) == ReadyFor(s, GoesNow(s), fd)
    {
      ghost var told: set<Tenant> := {};
      out := [];
      var rest := alloc.notify;
      while rest != {}
        invariant rest <= s.alloc.notify && alloc.Abs() == s.alloc.(notify := s.alloc.notify - told)
        invariant told == set t | t in s.alloc.notify - rest && Complete(s, t)
        invariant forall fd :: 0 <= fd < |s.nodes| ==> To(out, fd) == ReadyFor(s, told, fd)
        decreases |rest|
      {
        var t :| t in rest;
        rest := rest - {t};
        if |info[t].fds| == expected[t] && info[t].uses == expected[t] {
          var more := SendReady(info[t].fds);
          forall fd | 0 <= fd < |s.nodes|
            ensures To(out + more, fd) == ReadyFor(s, told + {t}, fd)
          {
            ReadyNext(s, told, t, out, more, fd);
          }
          out := out + more;
          told := told + {t};
          alloc.notify := alloc.notify - {t};
        }
      }
      SameMembers(s, Notified(s));
    }

    /** Notes the connection and how many there will be. */
    method Register(fd: Fd, t: Tenant, nNodes: nat, ghost s: State)
      requires Models(s) && nNodes == |Members(s, t)|
      modifies this
      ensures info == Registered(s, t, fd) && Expects(s)
    {
      if t !in info {
        info := info[t := Info(0, 0, 0, {})];
      }
      info := info[t := info[t].(fds := info[t].fds + {fd})];
      expected := expected[t := nNodes];
    }

    ghost predicate Expects(s: State)
      reads this
    {
      info.Keys == expected.Keys && forall t :: t in expected ==> expected[t] == |Members(s, t)|
    }

    /** Frees the old block and allocates a new one. */
    method Renew(fd: Fd, t: Tenant, block: Block, now: Time, delay: Time, duration: Time, ghost s: State)
      returns (blk: Block)
      requires alloc.Abs() == s.alloc && Requests(s, fd, t, block) && Fresh(s, fd) && Renewable(s, fd, now + delay)
      modifies alloc
      ensures alloc.Abs() == Renewed(s, fd, now + delay, duration).alloc
      ensures blk == InfoOf(Renewed(s, fd, now + delay, duration), t).blk
    {
      if block != NO_BLOCK {
        alloc.HandleFree(t, block);
      }
      blk := alloc.HandleAlloc(t, now, delay, duration);
    }

    /** The first request for a batch renews the cached answer. */
    method Refresh(fd: Fd, t: Tenant, batch: nat, block: Block, nNodes: nat, now: Time, delay: Time, duration: Time,
                   ghost s: State)
      requires Models(s) && Requests(s, fd, t, block) && batch == s.nodes[fd].batch && nNodes == |Members(s, t)|
      requires Renewable(s, fd, now + delay)
      modifies this, alloc
      ensures var s1 := Renewed(s, fd, now + delay, duration);
        alloc.Abs() == s1.alloc && info == Registered(s1, t, fd) && Expects(s)
    {
      Register(fd, t, nNodes, s);
      if info[t].batch != batch {
        var blk := Renew(fd, t, block, now, delay, duration, s);
        info := info[t := info[t].(batch := batch, blk := blk, uses := 0)];
      }
    }

    /** The answer, and the ready messages if all the tenant's nodes are connected. */
    method Respond(fd: Fd, t: Tenant, ghost s: State) returns (out: seq<Mail>)
      requires fd < |s.nodes| && t == s.nodes[fd].tenant && Drainable(Answered(s, fd))
      requires alloc.Abs() == s.alloc && info == Registered(s, t, fd) && Expects(s)
      modifies this, alloc
      ensures Models(Responded(s, fd)) && Delivers(s, Responded(s, fd), out)
    {
      out := [Mail(fd, Resp(info[t].batch, info[t].blk))];
      info := info[t := info[t].(uses := info[t].uses + 1)];
      ghost var s2 := Answered(s, fd);
      AnswerDelivers(s, fd);
      SameMembers(s, s2);
      assert info == s2.info;
      if expected[t] == |info[t].fds| {
        var more := Drain(s2);
        ReadyDelivers(s, s2, out, more);
        out := out + more;
      }
    }

    /**
      One request: the tenant map and the allocator end up as in the step, and every connection is
      sent what the step puts into its inbox.
     */
    method Serve(fd: Fd, t: Tenant, batch: nat, block: Block, nNodes: nat, now: Time, delay: Time, duration: Time,
                 ghost s: State)
      returns (out: seq<Mail>)
      requires Models(s) && Requests(s, fd, t, block) && batch == s.nodes[fd].batch && nNodes == |Members(s, t)|
      requires Renewable(s, fd, now + delay) && Drainable(Answered(Renewed(s, fd, now + delay, duration), fd))
      modifies this, alloc
      ensures var s1 := Renewed(s, fd, now + delay, duration);
        Models(Responded(s1, fd)) && Delivers(s, Responded(s1, fd), out)
    {
      Refresh(fd, t, batch, block, nNodes, now, delay, duration, s);
      ghost var s1 := Renewed(s, fd, now + delay, duration);
      SameMembers(s, s1);
      out := Respond(fd, t, s1);
    }
  }

  // ---------------------------------------------------------------- what a pass of the loop needs and sends

  ghost predicate Requests(s: State, fd: Fd, t: Tenant, block: Block) {
    fd < |s.nodes| && t == s.nodes[fd].tenant && block == s.nodes[fd].block
  }

  /** What the two calls of the allocator need. */
  ghost predicate Renewable(s: State, fd: Fd, start: Time) {
    && fd < |s.nodes| && AssertionsHold(s, fd, start)
    && (Fresh(s, fd) ==>
          && BA.Inv(s.alloc) && BA.IsTenant(s.nodes[fd].tenant)
          && !BA.Queued(AfterFree(s, fd), s.nodes[fd].tenant))
  }

  ghost predicate Drainable(s: State) {
    OwnFds(s) && s.alloc.notify <= s.info.Keys
  }

  /** The messages are those by which the inboxes grow. */
  ghost predicate Delivers(s: State, s': State, out: seq<Mail>) {
    && |s'.nodes| == |s.nodes|
    && forall fd :: 0 <= fd < |s.nodes| ==> s'.nodes[fd].inbox == s.nodes[fd].inbox + To(out, fd)
  }

  /** The tenant map once the connection is noted. */
  function Registered(s: State, t: Tenant, fd: Fd): map<Tenant, Info> {
    s.info[t := InfoOf(s, t).(fds := InfoOf(s, t).fds + {fd})]
  }

  /** The step after the cached answer is up to date. */
  function Responded(s: State, fd: Fd): State
    requires fd < |s.nodes|
  {
    var s2, t := Answered(s, fd), s.nodes[fd].tenant;
    if |InfoOf(s2, t).fds| == |Members(s2, t)| then Notified(s2) else s2
  }

  lemma AnswerDelivers(s: State, fd: Fd)
    requires fd < |s.nodes|
    ensures var t := s.nodes[fd].tenant;
      Delivers(s, Answered(s, fd), [Mail(fd, Resp(InfoOf(s, t).batch, InfoOf(s, t).blk))])
  {
    var t := s.nodes[fd].tenant;
    var m := Mail(fd, Resp(InfoOf(s, t).batch, InfoOf(s, t).blk));
    forall fd' | 0 <= fd' < |s.nodes|
      ensures Answered(s, fd).nodes[fd'].inbox == s.nodes[fd'].inbox + To([m], fd')
    {
      ToOne(m, fd');
    }
  }

  lemma ReadyDelivers(s: State, s2: State, out: seq<Mail>, more: seq<Mail>)
    requires Delivers(s, s2, out) && forall fd :: 0 <= fd < |s2.nodes| ==> To(more, fd) == ReadyFor(s2, GoesNow(s2), fd)
    ensures Delivers(s, Notified(s2), out + more)
  {
    forall fd | 0 <= fd < |s.nodes|
      ensures Notified(s2).nodes[fd].inbox == s.nodes[fd].inbox + To(out + more, fd)
    {
      ToAppend(out, more, fd);
      assert Notified(s2).nodes[fd] == Inform(s2, GoesNow(s2), fd);
    }
  }

  lemma RequestIsRenewable(s: State, fd: Fd, start: Time)
    requires Inv(s) && fd < |s.nodes| && s.nodes[fd].phase == Requested
    ensures Renewable(s, fd, start)
  {
    RequestsAreSafe(s, fd, start);
    if Fresh(s, fd) {
      FreshNode(s, fd);
      FreedAlloc(s, fd);
    }
  }

  lemma AnsweredInv(s: State, fd: Fd, start: Time, duration: Time)
    requires Inv(s) && fd < |s.nodes| && s.nodes[fd].phase == Requested && AssertionsHold(s, fd, start)
    ensures var s2 := Answered(Renewed(s, fd, start, duration), fd);
      Drainable(s2)
  {
    RenewedStep(s, fd, start, duration);
    var s1 := Renewed(s, fd, start, duration);
    AnsweredKeepsInv(s1, fd);
    FdsAreOwn(Answered(s1, fd));
    ReadyKnown(Answered(s1, fd));
  }

  /** In every reachable state a request can be served, and serving it is the step. */
  lemma RequestsAreServed(tenants: seq<Tenant>, steps: seq<Step>, states: seq<State>, n: nat, fd: Fd, start: Time,
                          duration: Time)
    requires IsRun(tenants, steps, states) && n < |states|
    requires fd < |states[n].nodes| && states[n].nodes[fd].phase == Requested
    ensures var s := states[n];
      && Renewable(s, fd, start) && Drainable(Answered(Renewed(s, fd, start, duration), fd))
      && Enabled(s, Serve(fd, start, duration))
      && Responded(Renewed(s, fd, start, duration), fd) == Next(s, Serve(fd, start, duration))
  {
    ReachableInv(tenants, steps, states, n);
    RequestIsRenewable(states[n], fd, start);
    AnsweredInv(states[n], fd, start, duration);
  }
}
