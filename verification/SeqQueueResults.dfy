// What the message queue service guarantees: whose reply a client gets, how the numbers
// are shared out, and how many calls are under way.
module SeqQueueResults {
  import opened Common
  import opened Ranges
  import opened SeqQueue

  function Reached(cap: nat, pids: set<Pid>, acts: seq<Action>): State {
    Run(Init(cap, pids), acts)
  }

  lemma ReachedInv(cap: nat, pids: set<Pid>, acts: seq<Action>)
    requires REQUEST_TYPE !in pids
    ensures Inv(Reached(cap, pids, acts))
    ensures Reached(cap, pids, acts).cap == cap && Reached(cap, pids, acts).pids == pids
  {
    RunKeepsInv(Init(cap, pids), acts);
    KeepsConstants(Init(cap, pids), acts);
  }

  lemma {:induction false} KeepsConstants(s: State, acts: seq<Action>)
    ensures Run(s, acts).cap == s.cap && Run(s, acts).pids == s.pids
    decreases |acts|
  {
    if acts != [] {
      KeepsConstants(Step(s, acts[0]), acts[1..]);
    }
  }

  // --- replies -----------------------------------------------------------------------

  // Every printed number is the start of a range granted to that client in that call.
  ghost predicate RepliesAreOwn(cap: nat, pids: set<Pid>) {
    forall acts, p: Pid ::
      var s := Reached(cap, pids, acts);
      p in s.clients && s.clients[p].pc.Printed? ==> Granted(s, p, s.clients[p].pc.num)
  }

  // The server and the clients never take each other's messages, unless a client has
  // the request type for its pid: that one takes its own request for the reply.
  lemma ReplyBoundary(cap: nat, pids: set<Pid>)
    ensures RepliesAreOwn(cap, pids) <==> REQUEST_TYPE !in pids || cap == 0
  {
    if REQUEST_TYPE !in pids {
      forall acts, p: Pid |
        var s := Reached(cap, pids, acts); p in s.clients && s.clients[p].pc.Printed?
        ensures var s := Reached(cap, pids, acts); Granted(s, p, s.clients[p].pc.num)
      {
        ReachedInv(cap, pids, acts);
      }
    } else if cap == 0 {
      forall acts, p: Pid
        ensures var s := Reached(cap, pids, acts); p in s.clients ==> !s.clients[p].pc.Printed?
      {
        NothingFits(Init(cap, pids), acts);
      }
    } else {
      var one: Pid := REQUEST_TYPE;
      var acts := [Start(one, 5), ClientStep(one), ClientStep(one)];
      var s0 := Init(cap, pids);
      var s1 := Step(s0, acts[0]);
      var s2 := Step(s1, acts[1]);
      assert s2.queue == [Msg(1, 1, 5, false)];
      var s3 := Step(s2, acts[2]);
      RunThree(s0, acts);
      assert s3.clients[one].pc == Printed(1) && s3.grants == [];
      assert Reached(cap, pids, acts) == s3 && !Granted(s3, one, 1);
    }
  }

  lemma {:induction false} NothingFits(s: State, acts: seq<Action>)
    requires s.cap == 0 && s.queue == [] && s.server == Receive && forall p :: p in s.clients ==> s.clients[p].pc == Ask
    ensures forall p :: p in Run(s, acts).clients ==> Run(s, acts).clients[p].pc == Ask
    ensures Run(s, acts).queue == [] && Run(s, acts).server == Receive
    decreases |acts|
  {
    if acts != [] {
      NothingFits(Step(s, acts[0]), acts[1..]);
    }
  }

  lemma RunThree(s: State, acts: seq<Action>)
    requires |acts| == 3
    ensures Run(s, acts) == Step(Step(Step(s, acts[0]), acts[1]), acts[2])
  {
    RunTwo(Step(s, acts[0]), acts[1..]);
  }

  lemma RunTwo(s: State, acts: seq<Action>)
    requires |acts| == 2
    ensures Run(s, acts) == Step(Step(s, acts[0]), acts[1])
  {
    var t := Step(s, acts[0]);
    assert acts[1..][1..] == [];
    assert Run(t, acts[1..]) == Run(Step(t, acts[1]), []);
  }

  // What the server would receive next was sent as a request, by the waiting client it
  // names and with that client's length.
  ghost predicate NextIsRequest(s: State) {
    var i := FirstOf(s.queue, REQUEST_TYPE);
    i < |s.queue| ==> !s.queue[i].reply && Awaits(s, s.queue[i].first) && s.queue[i].second == s.clients[s.queue[i].first].len
  }

  // The call of client 1 up to the point where the server has answered it.
  function Answered1(len: int): seq<Action> {
    [Start(REQUEST_TYPE, len), ClientStep(REQUEST_TYPE), ServerStep] + [ServerStep]
  }

  lemma Answering1(cap: nat, pids: set<Pid>, len: int)
    requires REQUEST_TYPE in pids && cap > 0
    ensures
      var s := Reached(cap, pids, Answered1(len));
      && s.cap == cap && s.pids == pids && s.queue == [Msg(REQUEST_TYPE, 0, 0, true)] && s.server == Receive
      && s.seqNum == len && s.clients.Keys == {REQUEST_TYPE} && s.clients[REQUEST_TYPE].pc == Await
  {
    var s0 := Init(cap, pids);
    var first := [Start(REQUEST_TYPE, len), ClientStep(REQUEST_TYPE), ServerStep];
    var s2 := Step(Step(s0, first[0]), first[1]);
    assert s2.queue == [Msg(REQUEST_TYPE, REQUEST_TYPE, len, false)];
    RunThree(s0, first);
    RunConcat(s0, first, [ServerStep]);
    var s3 := Step(s2, ServerStep);
    assert [ServerStep][1..] == [] && Run(s3, [ServerStep]) == Run(Step(s3, ServerStep), []);
  }

  // The server never takes a reply exactly when no client has the request type for its
  // pid, or nothing fits into the queue.
  lemma ServerTakesRequests(cap: nat, pids: set<Pid>)
    ensures (forall acts :: NextIsRequest(Reached(cap, pids, acts))) <==> REQUEST_TYPE !in pids || cap == 0
  {
    if REQUEST_TYPE !in pids {
      forall acts
        ensures NextIsRequest(Reached(cap, pids, acts))
      {
        ReachedInv(cap, pids, acts);
        var s := Reached(cap, pids, acts);
        if FirstOf(s.queue, REQUEST_TYPE) < |s.queue| {
          OwnRequest(s);
        }
      }
    } else if cap == 0 {
      forall acts
        ensures NextIsRequest(Reached(cap, pids, acts))
      {
        NothingFits(Init(cap, pids), acts);
      }
    } else {
      Answering1(cap, pids, 1);
      var s := Reached(cap, pids, Answered1(1));
      assert FirstOf(s.queue, REQUEST_TYPE) == 0 && !NextIsRequest(s);
    }
  }

  // --- ranges ------------------------------------------------------------------------

  ghost predicate AsksAtLeast(acts: seq<Action>, n: int) {
    forall i :: 0 <= i < |acts| && acts[i].Start? ==> acts[i].len >= n
  }

  // No length anywhere is negative.
  ghost predicate NoneNegative(s: State) {
    && (forall p :: p in s.clients ==> s.clients[p].len >= 0)
    && (forall i :: 0 <= i < |s.queue| ==> s.queue[i].second >= 0)
    && (forall i :: 0 <= i < |s.grants| ==> s.grants[i].len >= 0)
  }

  lemma {:induction false} LengthsGranted(s: State, acts: seq<Action>)
    requires AsksAtLeast(acts, 0) && NoneNegative(s)
    ensures NoneNegative(Run(s, acts))
    decreases |acts|
  {
    if acts != [] {
      assert forall i :: 0 <= i < |acts[1..]| ==> acts[1..][i] == acts[i + 1];
      LengthsGranted(Step(s, acts[0]), acts[1..]);
    }
  }

  // The ranges handed out, and the calls under way, whoever takes whose message.
  ghost predicate Accounted(s: State) {
    && s.clients.Keys <= s.pids
    && |s.queue| + (if s.server.Reply? then 1 else 0) <= |Waiting(s)|
    && Chained(s.grants) && s.seqNum == Sum(s.grants)
  }

  lemma ClientKeepsAccount(s: State, p: Pid)
    requires Accounted(s) && Enabled(s, ClientStep(p))
    ensures Accounted(Step(s, ClientStep(p)))
  {
    hide Chained, Sum, FirstOf;
    var t := Step(s, ClientStep(p));
    if s.clients[p].pc == Ask {
      assert Waiting(t) == Waiting(s) + {p};
    } else {
      assert Waiting(t) == Waiting(s) - {p} && |t.queue| == |s.queue| - 1;
    }
  }

  lemma ServerKeepsAccount(s: State)
    requires Accounted(s) && Enabled(s, ServerStep)
    ensures Accounted(Step(s, ServerStep))
  {
    hide Chained, Sum, FirstOf;
    assert Waiting(Step(s, ServerStep)) == Waiting(s);
    if s.server == Receive {
      var req := s.queue[FirstOf(s.queue, REQUEST_TYPE)];
      ChainedAppend(s.grants, Grant(req.first, s.seqNum, req.second));
    }
  }

  lemma StepKeepsAccount(s: State, a: Action)
    requires Accounted(s)
    ensures Accounted(Step(s, a))
  {
    hide Chained, Sum, FirstOf;
    if Enabled(s, a) {
      match a
      case Start(p, len) => assert Waiting(Step(s, a)) == Waiting(s);
      case ClientStep(p) => ClientKeepsAccount(s, p);
      case ServerStep => ServerKeepsAccount(s);
    }
  }

  lemma {:induction false} RunKeepsAccount(s: State, acts: seq<Action>)
    requires Accounted(s)
    ensures Accounted(Run(s, acts))
    decreases |acts|
  {
    if acts != [] {
      StepKeepsAccount(s, acts[0]);
      RunKeepsAccount(Step(s, acts[0]), acts[1..]);
    }
  }

  lemma ReachedAccount(cap: nat, pids: set<Pid>, acts: seq<Action>)
    ensures Accounted(Reached(cap, pids, acts))
    ensures Reached(cap, pids, acts).cap == cap && Reached(cap, pids, acts).pids == pids
  {
    var s := Init(cap, pids);
    assert Chained(s.grants) && Sum(s.grants) == 0;
    RunKeepsAccount(s, acts);
    KeepsConstants(s, acts);
  }

  // In a run without negative requests the ranges follow one another, and every number
  // below the current one has been granted, once.
  lemma RangesTile(cap: nat, pids: set<Pid>, acts: seq<Action>, x: int)
    requires AsksAtLeast(acts, 0)
    ensures
      var s := Reached(cap, pids, acts);
      && InOrder(s.grants)
      && (0 <= x < s.seqNum <==> exists i :: 0 <= i < |s.grants| && Contains(s.grants[i], x))
      && (forall i, j :: 0 <= i < j < |s.grants| ==> !(Contains(s.grants[i], x) && Contains(s.grants[j], x)))
  {
    ReachedAccount(cap, pids, acts);
    LengthsGranted(Init(cap, pids), acts);
    OrderBoundary(Reached(cap, pids, acts).grants);
    GrantsCover(Reached(cap, pids, acts).grants, x);
  }

  // --- calls under way -----------------------------------------------------------------

  ghost function Waiting(s: State): set<Pid> {
    set p | p in s.clients && s.clients[p].pc == Await
  }

  // The owners of n messages are n clients.
  lemma {:induction false} OwnersCount(q: seq<Msg>, who: set<Pid>)
    requires Apart(q) && forall p: Pid :: p in who ==> Queued(q, p)
    requires forall i :: 0 <= i < |q| ==> Owner(q[i]) > 0 && Owner(q[i]) in who
    ensures |who| == |q|
    decreases |q|
  {
    if q == [] {
      assert who == {};
    } else {
      var rest := q[..|q| - 1];
      var p: Pid := Owner(q[|q| - 1]);
      forall o: Pid | o in who - {p}
        ensures Queued(rest, o)
      {
        var i :| 0 <= i < |q| && Owner(q[i]) == o;
        assert rest[i] == q[i];
      }
      OwnersCount(rest, who - {p});
      assert who == (who - {p}) + {p};
    }
  }

  // As long as nobody takes anybody else's message, the calls in the queue and in the
  // server's hands are exactly those of the waiting clients.
  lemma EveryCallInFlight(s: State)
    requires Inv(s)
    ensures Flying(s) == |Waiting(s)|
  {
    var w := Waiting(s);
    var who := if s.server.Reply? then w - {s.server.pid} else w;
    forall i | 0 <= i < |s.queue|
      ensures Owner(s.queue[i]) > 0 && Owner(s.queue[i]) in who
    {
      assert MsgInv(s, s.queue[i]);
      assert Queued(s.queue, Owner(s.queue[i]));
    }
    assert forall p: Pid :: p in who ==> Awaits(s, p) && HasToken(s, p);
    OwnersCount(s.queue, who);
    if s.server.Reply? {
      assert w == who + {s.server.pid};
    }
  }

  // Calls in the queue and in the server's hands.
  function Flying(s: State): nat {
    |s.queue| + if s.server.Reply? then 1 else 0
  }

  // There are never more calls under way than clients waiting.  In every run there are
  // exactly as many, so that no call is lost, if and only if no client has the request
  // type for its pid, or nothing fits into the queue.
  lemma CallsInFlight(cap: nat, pids: set<Pid>)
    ensures forall acts :: Flying(Reached(cap, pids, acts)) <= |Waiting(Reached(cap, pids, acts))| <= |pids|
    ensures (forall acts :: Flying(Reached(cap, pids, acts)) == |Waiting(Reached(cap, pids, acts))|) <==>
            REQUEST_TYPE !in pids || cap == 0
  {
    forall acts
      ensures Flying(Reached(cap, pids, acts)) <= |Waiting(Reached(cap, pids, acts))| <= |pids|
      ensures REQUEST_TYPE !in pids || cap == 0 ==> Flying(Reached(cap, pids, acts)) == |Waiting(Reached(cap, pids, acts))|
    {
      var s := Reached(cap, pids, acts);
      ReachedAccount(cap, pids, acts);
      SubsetSize(Waiting(s), pids);
      if REQUEST_TYPE !in pids {
        ReachedInv(cap, pids, acts);
        EveryCallInFlight(s);
      } else if cap == 0 {
        NothingFits(Init(cap, pids), acts);
        assert Waiting(s) == {};
      }
    }
    if REQUEST_TYPE in pids && cap > 0 {
      var acts := Answered1(1) + [ServerStep, ServerStep];
      var s4 := Reached(cap, pids, Answered1(1));
      Answering1(cap, pids, 1);
      RunConcat(Init(cap, pids), Answered1(1), [ServerStep, ServerStep]);
      RunTwo(s4, [ServerStep, ServerStep]);
      var s := Reached(cap, pids, acts);
      assert Waiting(s) == {REQUEST_TYPE} && Flying(s) == 0;
    }
  }

  lemma {:induction false} RunConcat(s: State, a: seq<Action>, b: seq<Action>)
    ensures Run(s, a + b) == Run(Run(s, a), b)
    decreases |a|
  {
    if a == [] {
      assert a + b == b;
    } else {
      assert (a + b)[1..] == a[1..] + b;
      RunConcat(Step(s, a[0]), a[1..], b);
    }
  }
}
