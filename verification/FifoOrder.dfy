// First come, first served: requests are decided in the order in which they were written.
module FifoOrder {
  import opened Ranges
  import opened FifoService
  import opened FifoResults

  predicate HasSent(s: State, p: Pid) {
    p in s.clients && s.clients[p].pc != Send
  }

  predicate Decided(s: State, p: Pid) {
    p in s.clients && s.clients[p].fate != Undecided
  }

  predicate Held(s: State, p: Pid) {
    (s.server.TryOpen? || s.server.Write?) && s.server.req.pid == p
  }

  // p's request is in the FIFO, with none of q's in front of it.
  predicate InFront(pipe: seq<Request>, p: Pid, q: Pid) {
    exists i :: 0 <= i < |pipe| && pipe[i].pid == p && forall k :: 0 <= k <= i ==> pipe[k].pid != q
  }

  // What p was granted, it was granted before q.
  predicate GrantedFirst(gs: seq<Grant>, p: Pid, q: Pid) {
    forall a, b :: 0 <= a < |gs| && 0 <= b < |gs| && gs[a].pid == p && gs[b].pid == q ==> a < b
  }

  // p's turn comes before q's.
  predicate Ahead(s: State, p: Pid, q: Pid) {
    && GrantedFirst(s.grants, p, q)
    && (!Decided(s, p) ==> !Decided(s, q) && !Held(s, q) && (Held(s, p) || InFront(s.pipe, p, q)))
  }

  // p has sent its request and q has not.
  lemma FirstIsAhead(s: State, p: Pid, q: Pid)
    requires Inv(s) && HasSent(s, p) && !HasSent(s, q)
    ensures Ahead(s, p, q)
  {
    hide Chained, Sum;
    assert ClientInv(s, p) && (q in s.clients ==> ClientInv(s, q));
    NotInPipe(s, q);
    NoGrantYet(s, q);
    if !Decided(s, p) && !Held(s, p) {
      var i :| 0 <= i < |s.pipe| && s.pipe[i].pid == p;
      assert InFront(s.pipe, p, q);
    }
  }

  lemma NotInPipe(s: State, q: Pid)
    requires PipeInv(s) && !HasSent(s, q)
    ensures !Held(s, q) && forall i :: 0 <= i < |s.pipe| ==> s.pipe[i].pid != q
  {
    forall i | 0 <= i < |s.pipe|
      ensures s.pipe[i].pid != q
    {
      assert RequestInv(s, s.pipe[i]);
    }
  }

  lemma NoGrantYet(s: State, q: Pid)
    requires Inv(s) && !HasSent(s, q)
    ensures !Decided(s, q) && !HasGrant(s.grants, q)
  {
    hide PipeInv;
    assert q in s.clients ==> ClientInv(s, q);
    NoGrant(s, q);
  }

  lemma ClientStaysAhead(s: State, c: Pid, p: Pid, q: Pid)
    requires Inv(s) && Enabled(s, ClientStep(c)) && Ahead(s, p, q) && HasSent(s, p)
    ensures Ahead(AfterClient(s, c), p, q) && HasSent(AfterClient(s, c), p)
  {
    hide Inv, GrantedFirst;
    var t := AfterClient(s, c);
    if !Decided(s, p) && !Held(s, p) {
      var i :| 0 <= i < |s.pipe| && s.pipe[i].pid == p && forall k :: 0 <= k <= i ==> s.pipe[k].pid != q;
      assert t.pipe[i].pid == p && forall k :: 0 <= k <= i ==> t.pipe[k] == s.pipe[k];
    }
  }

  // The server takes the first request.
  lemma ReadStaysAhead(s: State, p: Pid, q: Pid)
    requires s.server == Read && s.pipe != [] && Ahead(s, p, q) && HasSent(s, p)
    ensures Ahead(AfterServer(s), p, q) && HasSent(AfterServer(s), p)
  {
    hide GrantedFirst;
    var t := AfterServer(s);
    if !Decided(s, p) {
      var i :| 0 <= i < |s.pipe| && s.pipe[i].pid == p && forall k :: 0 <= k <= i ==> s.pipe[k].pid != q;
      if i > 0 {
        assert t.pipe[i - 1].pid == p && forall k :: 0 <= k <= i - 1 ==> t.pipe[k] == s.pipe[k + 1];
      }
    }
  }

  lemma DecideStaysAhead(s: State, p: Pid, q: Pid)
    requires Inv(s) && s.server != Read && Ahead(s, p, q) && HasSent(s, p)
    ensures Ahead(AfterServer(s), p, q) && HasSent(AfterServer(s), p)
  {
    hide InFront, Chained, Sum;
    var t := AfterServer(s);
    if s.server.Write? {
      var r := s.server.req.pid;
      assert t.grants == s.grants + [Grant(r, s.seqNum, s.server.req.len)];
      UndecidedHasNoGrant(s, r);
    }
  }

  lemma UndecidedHasNoGrant(s: State, r: Pid)
    requires Inv(s) && s.server.Write? && s.server.req.pid == r
    ensures !Decided(s, r) && !HasGrant(s.grants, r)
  {
    assert RequestInv(s, s.server.req);
    NoGrant(s, r);
  }

  lemma StepStaysAhead(s: State, a: Action, p: Pid, q: Pid)
    requires Inv(s) && Ahead(s, p, q) && HasSent(s, p)
    ensures Ahead(Step(s, a), p, q) && HasSent(Step(s, a), p)
  {
    hide Inv, GrantedFirst, InFront;
    if Enabled(s, a) {
      match a
      case Start(_, _, _) =>
      case ClientStep(c) => ClientStaysAhead(s, c, p, q);
      case ServerStep => if s.server == Read { ReadStaysAhead(s, p, q); } else { DecideStaysAhead(s, p, q); }
    }
  }

  lemma {:induction false} RunStaysAhead(s: State, acts: seq<Action>, p: Pid, q: Pid)
    requires Inv(s) && Ahead(s, p, q) && HasSent(s, p)
    ensures Ahead(Run(s, acts), p, q)
    decreases |acts|
  {
    hide Inv, Ahead, Step;
    if acts != [] {
      StepStaysAhead(s, acts[0], p, q);
      StepKeepsInv(s, acts[0]);
      RunStaysAhead(Step(s, acts[0]), acts[1..], p, q);
    }
  }

  // If p has sent its request and q has not, then ever after q is decided only if p is, and
  // whatever p is granted it is granted before q.
  lemma FirstComeFirstServed(acts: seq<Action>, more: seq<Action>, p: Pid, q: Pid)
    requires HasSent(Reached(acts), p) && !HasSent(Reached(acts), q)
    ensures
      var t := Run(Reached(acts), more);
      (Decided(t, q) ==> Decided(t, p)) && GrantedFirst(t.grants, p, q)
  {
    ReachedInv(acts);
    FirstIsAhead(Reached(acts), p, q);
    RunStaysAhead(Reached(acts), more, p, q);
  }

  lemma {:induction false} RunConcat(s: State, a: seq<Action>, b: seq<Action>)
    ensures Run(s, a + b) == Run(Run(s, a), b)
    decreases |a|
  {
    if a == [] {
      assert a + b == b;
    } else {
      assert (a + b)[1..] == a[1..] + b;
      RunConcat(Step(s, a[0]), a[1..], b);
    }
  }

  // So without negative lengths p's range ends where q's begins or before.
  lemma FirstComeLowerRange(acts: seq<Action>, more: seq<Action>, p: Pid, q: Pid)
    requires HasSent(Reached(acts), p) && !HasSent(Reached(acts), q) && AsksAtLeast(acts + more, 0)
    ensures
      var t := Run(Reached(acts), more);
      p in t.clients && q in t.clients && t.clients[p].fate.Granted? && t.clients[q].fate.Granted? ==>
        t.clients[p].fate.start + t.clients[p].len <= t.clients[q].fate.start
  {
    hide Run;
    var t := Run(Reached(acts), more);
    RunConcat(Init(), acts, more);
    ReachedInv(acts + more);
    FirstComeFirstServed(acts, more, p, q);
    RangesTile(acts + more, 0);
    if p in t.clients && q in t.clients && t.clients[p].fate.Granted? && t.clients[q].fate.Granted? {
      var a := IndexOfGrant(t, p);
      var b := IndexOfGrant(t, q);
    }
  }

  // --- what a client asks for ---------------------------------------------------------

  // p came with this behaviour and this length.
  predicate StartedAs(acts: seq<Action>, p: Pid, good: bool, len: int) {
    exists i :: 0 <= i < |acts| && acts[i] == Start(p, good, len) &&
                forall k :: 0 <= k < i ==> !(acts[k].Start? && acts[k].pid == p)
  }

  lemma {:induction false} RunKeepsAsked(s: State, acts: seq<Action>, p: Pid)
    requires p in s.clients
    ensures
      var t := Run(s, acts);
      p in t.clients && t.clients[p].good == s.clients[p].good && t.clients[p].len == s.clients[p].len
    decreases |acts|
  {
    if acts != [] {
      RunKeepsAsked(Step(s, acts[0]), acts[1..], p);
    }
  }

  lemma {:induction false} RunStarts(s: State, acts: seq<Action>, p: Pid)
    requires p !in s.clients
    ensures
      var t := Run(s, acts);
      p in t.clients ==> StartedAs(acts, p, t.clients[p].good, t.clients[p].len)
    decreases |acts|
  {
    if acts != [] {
      var a := acts[0];
      if a.Start? && a.pid == p {
        RunKeepsAsked(Step(s, a), acts[1..], p);
      } else {
        RunStarts(Step(s, a), acts[1..], p);
        var t := Run(s, acts);
        if p in t.clients {
          var i :| 0 <= i < |acts[1..]| && acts[1..][i] == Start(p, t.clients[p].good, t.clients[p].len) &&
                   forall k :: 0 <= k < i ==> !(acts[1..][k].Start? && acts[1..][k].pid == p);
          assert acts[i + 1] == acts[1..][i];
          assert forall k :: 1 <= k < i + 1 ==> acts[k] == acts[1..][k - 1];
        }
      }
    }
  }

  // A client stays what it came as, and is granted the length it came with.
  lemma ClientsAreAsStarted(acts: seq<Action>, p: Pid)
    ensures
      var s := Reached(acts);
      p in s.clients ==> StartedAs(acts, p, s.clients[p].good, s.clients[p].len)
  {
    RunStarts(Init(), acts, p);
  }
}
