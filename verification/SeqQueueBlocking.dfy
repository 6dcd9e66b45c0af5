// When the message queue service comes to a stop, and when that is for good.
module SeqQueueBlocking {
  import opened Common
  import opened SeqQueue
  import opened SeqQueueResults

  predicate Unfinished(s: State) {
    exists p :: p in s.clients && !s.clients[p].pc.Printed?
  }

  // Somebody waits and nobody, client or server, can move.
  ghost predicate Stuck(s: State) {
    Unfinished(s) && !Enabled(s, ServerStep) && forall p: Pid :: !Enabled(s, ClientStep(p))
  }

  // And new calls never change that.
  ghost predicate StuckForGood(s: State) {
    forall acts :: Stuck(Run(s, acts))
  }

  predicate AllAwait(s: State) {
    forall p :: p in s.pids ==> p in s.clients && s.clients[p].pc == Await
  }

  // --- stuck for good ----------------------------------------------------------------

  lemma {:induction false} FullStaysStuck(s: State, acts: seq<Action>)
    requires Stuck(s) && |s.queue| >= s.cap
    ensures Stuck(Run(s, acts))
    decreases |acts|
  {
    if acts != [] {
      var a := acts[0];
      var t := Step(s, a);
      if Enabled(s, a) {
        assert a.Start?;
        forall p: Pid
          ensures !Enabled(t, ClientStep(p))
        {
          assert !Enabled(s, ClientStep(p));
        }
        assert a.pid in t.clients && t.clients[a.pid].pc == Ask;
      }
      FullStaysStuck(t, acts[1..]);
    }
  }

  lemma {:induction false} NobodyLeftToCall(s: State, acts: seq<Action>)
    requires Stuck(s) && AllAwait(s)
    ensures Run(s, acts) == s
    decreases |acts|
  {
    if acts != [] {
      assert !Enabled(s, acts[0]);
      NobodyLeftToCall(s, acts[1..]);
    }
  }

  // A stop is for good exactly when the queue is full or every client is waiting already:
  // otherwise the next call gets things going.
  lemma StuckForever(s: State)
    requires Stuck(s)
    ensures StuckForGood(s) <==> |s.queue| >= s.cap || AllAwait(s)
  {
    if |s.queue| >= s.cap {
      forall acts ensures Stuck(Run(s, acts)) { FullStaysStuck(s, acts); }
    } else if AllAwait(s) {
      forall acts ensures Stuck(Run(s, acts)) { NobodyLeftToCall(s, acts); }
    } else {
      var p :| p in s.pids && !(p in s.clients && s.clients[p].pc == Await);
      assert !Enabled(s, ClientStep(p));
      var start := [Start(p, 1)];
      var t := Step(s, start[0]);
      assert start[1..] == [] && Run(s, start) == Run(t, []);
      assert Enabled(t, ClientStep(p));
    }
  }

  // --- when it does not happen ---------------------------------------------------------

  // A message in the queue can be received unless the server is busy replying.
  lemma MessageMoves(s: State)
    requires Inv(s) && s.queue != [] && s.server == Receive
    ensures !Stuck(s)
  {
    var m := s.queue[0];
    assert MsgInv(s, m);
    var p: Pid := Owner(m);
    assert FirstOf(s.queue, m.mtype) == 0;
    assert Enabled(s, if m.reply then ClientStep(p) else ServerStep);
  }

  // With room in the queue somebody can move.
  lemma RoomMeansMove(s: State)
    requires Inv(s) && Unfinished(s) && |s.queue| < s.cap
    ensures !Stuck(s)
  {
    var p :| p in s.clients && !s.clients[p].pc.Printed?;
    if s.server.Reply? {
      assert Enabled(s, ServerStep);
    } else if s.clients[p].pc == Ask {
      assert Enabled(s, ClientStep(p));
    } else {
      assert Awaits(s, p) && HasToken(s, p);
      MessageMoves(s);
    }
  }

  lemma NeverStuck(cap: nat, pids: set<Pid>, acts: seq<Action>)
    requires REQUEST_TYPE !in pids && |pids| <= cap
    ensures !Stuck(Reached(cap, pids, acts))
  {
    var s := Reached(cap, pids, acts);
    ReachedInv(cap, pids, acts);
    CallsInFlight(cap, pids);
    assert Flying(s) <= |pids|;
    if Unfinished(s) && |s.queue| < cap {
      RoomMeansMove(s);
    } else if Unfinished(s) {
      var p :| p in s.clients && !s.clients[p].pc.Printed?;
      assert pids != {} by { assert p in pids; }
      assert |s.queue| == cap > 0 && s.server == Receive;
      MessageMoves(s);
    }
  }

  // --- more clients than messages ---------------------------------------------------------

  // The server holds one request and only requests are queued, one for every other caller.
  ghost predicate FillingUp(s: State) {
    && s.server.Reply? && s.server.pid > 0 && s.server.pid in s.clients
    && |s.queue| <= s.cap && |s.clients.Keys| == |s.queue| + 1 && s.clients.Keys <= s.pids
    && (forall i :: 0 <= i < |s.queue| ==> s.queue[i].mtype == REQUEST_TYPE && !s.queue[i].reply)
    && (forall p :: p in s.clients ==> s.clients[p].pc == Await)
  }

  // As long as there are more clients than messages fit, one more can ask.
  lemma {:induction false} FillUp(s: State) returns (acts: seq<Action>)
    requires FillingUp(s) && |s.pids| > s.cap
    ensures
      var t := Run(s, acts);
      FillingUp(t) && |t.queue| == s.cap && t.cap == s.cap && t.pids == s.pids
    decreases s.cap - |s.queue|
  {
    if |s.queue| == s.cap {
      acts := [];
    } else {
      assert exists p :: p in s.pids && p !in s.clients.Keys by {
        if s.pids <= s.clients.Keys {
          SubsetSize(s.pids, s.clients.Keys);
        }
      }
      var p :| p in s.pids && p !in s.clients.Keys;
      var ask := [Start(p, 1), ClientStep(p)];
      RunTwo(s, ask);
      var t := Run(s, ask);
      assert t.queue == s.queue + [Msg(REQUEST_TYPE, p, 1, false)];
      assert t.clients.Keys == s.clients.Keys + {p};
      var more := FillUp(t);
      RunConcat(s, ask, more);
      acts := ask + more;
    }
  }

  // A full queue of requests, and the server on its way to put a reply into it.
  lemma FilledIsStuck(s: State)
    requires FillingUp(s) && |s.queue| == s.cap && REQUEST_TYPE !in s.pids
    ensures Stuck(s)
  {
    forall p: Pid
      ensures !Enabled(s, ClientStep(p))
    {
      assert p in s.clients ==> p in s.pids;
    }
  }

  // A first client asks and the server takes its request.
  lemma FirstCall(cap: nat, pids: set<Pid>, p: Pid)
    requires p in pids && cap > 0
    ensures
      var s := Reached(cap, pids, [Start(p, 1), ClientStep(p), ServerStep]);
      FillingUp(s) && s.queue == [] && s.cap == cap && s.pids == pids
  {
    var acts := [Start(p, 1), ClientStep(p), ServerStep];
    var s0 := Init(cap, pids);
    RunThree(s0, acts);
    var s1 := Step(Step(s0, acts[0]), acts[1]);
    assert s1.queue == [Msg(REQUEST_TYPE, p, 1, false)];
    assert FirstOf(s1.queue, REQUEST_TYPE) == 0;
    assert Step(s1, acts[2]).clients.Keys == {p};
  }

  lemma FillingRun(cap: nat, pids: set<Pid>) returns (acts: seq<Action>)
    requires |pids| > cap > 0
    ensures
      var s := Reached(cap, pids, acts);
      FillingUp(s) && |s.queue| == s.cap == cap && s.pids == pids
  {
    var p :| p in pids;
    var first := [Start(p, 1), ClientStep(p), ServerStep];
    FirstCall(cap, pids, p);
    var more := FillUp(Reached(cap, pids, first));
    RunConcat(Init(cap, pids), first, more);
    acts := first + more;
  }

  // The server has a reply that does not fit.
  predicate ServerBlocked(s: State) {
    s.server.Reply? && !Enabled(s, ServerStep)
  }

  // The server can find itself before a full queue exactly when there are more clients
  // than messages fit, and one at all fits.
  lemma ServerBlockedBoundary(cap: nat, pids: set<Pid>)
    ensures (exists acts :: ServerBlocked(Reached(cap, pids, acts))) <==> |pids| > cap > 0
  {
    if |pids| > cap > 0 {
      var acts := FillingRun(cap, pids);
      assert ServerBlocked(Reached(cap, pids, acts));
    } else {
      forall acts
        ensures !ServerBlocked(Reached(cap, pids, acts))
      {
        CallsInFlight(cap, pids);
        ReachedAccount(cap, pids, acts);
        if cap == 0 {
          NothingFits(Init(cap, pids), acts);
        } else {
          assert Flying(Reached(cap, pids, acts)) <= |pids|;
        }
      }
    }
  }

  // --- a client whose pid is 1 -------------------------------------------------------------

  const ONE: Pid := REQUEST_TYPE

  // Everybody but client 1 who has called waits for an answer that will not come.
  ghost predicate Losing(s: State) {
    && s.cap > 0 && ONE in s.pids && s.clients.Keys <= s.pids
    && s.queue == [] && s.server == Receive && s.seqNum == 0
    && (forall p :: p in s.clients && p != ONE ==> s.clients[p].pc == Await)
    && (ONE in s.clients ==> s.clients[ONE].pc.Printed?)
  }

  // Client 1 asks and the server takes the request.
  function OneAsks(s: State): State {
    Step(Step(Step(s, Start(ONE, 0)), ClientStep(ONE)), ServerStep)
  }

  lemma OneAsking(s: State)
    requires Losing(s)
    ensures
      var t := OneAsks(s);
      && t.queue == [] && t.server == Reply(ONE, 0) && t.seqNum == 0 && t.cap == s.cap && t.pids == s.pids
      && t.clients == s.clients[ONE := Client(Await, 0, |s.grants|)]
  {
    var t := Step(Step(s, Start(ONE, 0)), ClientStep(ONE));
    assert t.queue == [Msg(REQUEST_TYPE, ONE, 0, false)];
    assert FirstOf(t.queue, REQUEST_TYPE) == 0;
  }

  // The server replies, takes its own reply for a request of client 0, and drops that.
  function ReplyLost(s: State): State {
    Step(Step(Step(s, ServerStep), ServerStep), ServerStep)
  }

  lemma LosingReply(s: State)
    requires s.queue == [] && s.cap > 0 && s.server == Reply(ONE, 0) && s.seqNum == 0
    ensures
      var t := ReplyLost(s);
      && t.queue == [] && t.server == Receive && t.seqNum == 0 && t.cap == s.cap && t.pids == s.pids
      && t.clients == s.clients
  {
    var t := Step(s, ServerStep);
    assert t.queue == [Msg(REQUEST_TYPE, 0, 0, true)];
    assert FirstOf(t.queue, REQUEST_TYPE) == 0;
  }

  // While the server holds client 1's request, p asks, and client 1 takes p's request for
  // its reply.
  function RequestTaken(s: State, p: Pid): State {
    Step(Step(Step(s, Start(p, 0)), ClientStep(p)), ClientStep(ONE))
  }

  lemma TakingRequest(s: State, p: Pid)
    requires s.queue == [] && s.cap > 0 && p in s.pids && p !in s.clients && p != ONE
    requires ONE in s.clients && s.clients[ONE].pc == Await
    ensures
      var t := RequestTaken(s, p);
      && t.queue == [] && t.server == s.server && t.seqNum == s.seqNum && t.cap == s.cap && t.pids == s.pids
      && t.clients.Keys == s.clients.Keys + {p} && t.clients[p].pc == Await && t.clients[ONE].pc.Printed?
      && (forall q :: q in s.clients && q != ONE ==> t.clients[q] == s.clients[q])
  {
    var t := Step(Step(s, Start(p, 0)), ClientStep(p));
    assert t.queue == [Msg(REQUEST_TYPE, p, 0, false)];
    assert FirstOf(t.queue, ONE) == 0;
  }

  // One after the other the other clients lose their requests to client 1, and in the end
  // client 1 loses its own.
  lemma {:induction false} LoseAll(s: State) returns (acts: seq<Action>)
    requires Losing(s)
    ensures Stuck(Run(s, acts)) && AllAwait(Run(s, acts))
    decreases s.pids - s.clients.Keys - {ONE}
  {
    hide Step, Run;
    var ask := [Start(ONE, 0), ClientStep(ONE), ServerStep];
    var lose := [ServerStep, ServerStep, ServerStep];
    RunThree(s, ask);
    OneAsking(s);
    var s1 := Run(s, ask);
    assert s1 == OneAsks(s);
    if p :| p in s.pids - s.clients.Keys - {ONE} {
      var take := [Start(p, 0), ClientStep(p), ClientStep(ONE)];
      RunThree(s1, take);
      TakingRequest(s1, p);
      var s2 := Run(s1, take);
      RunThree(s2, lose);
      LosingReply(s2);
      var s3 := Run(s2, lose);
      var more := LoseAll(s3);
      RunConcat(s, ask, take);
      RunConcat(s, ask + take, lose);
      RunConcat(s, ask + take + lose, more);
      acts := ask + take + lose + more;
    } else {
      RunThree(s1, lose);
      LosingReply(s1);
      RunConcat(s, ask, lose);
      acts := ask + lose;
      var t := Run(s, acts);
      forall p | p in t.pids
        ensures p in t.clients && t.clients[p].pc == Await
      {
        assert p in s.pids - s.clients.Keys - {ONE} || p in s.clients || p == ONE;
      }
      assert Unfinished(t) by { assert ONE in t.clients; }
    }
  }

  // --- the boundary ------------------------------------------------------------------------

  lemma BlockingRun(cap: nat, pids: set<Pid>) returns (acts: seq<Action>)
    requires |pids| > cap || REQUEST_TYPE in pids
    ensures StuckForGood(Reached(cap, pids, acts))
  {
    var s0 := Init(cap, pids);
    if cap == 0 {
      var p :| p in pids;
      acts := [Start(p, 1)];
      assert acts[1..] == [];
      var s1 := Step(s0, acts[0]);
      assert Run(s0, acts) == s1 && p in s1.clients && s1.clients[p].pc == Ask;
    } else if REQUEST_TYPE in pids {
      acts := LoseAll(s0);
    } else {
      acts := FillingRun(cap, pids);
      FilledIsStuck(Reached(cap, pids, acts));
    }
    StuckForever(Reached(cap, pids, acts));
  }

  ghost predicate CanBlock(cap: nat, pids: set<Pid>) {
    exists acts :: Stuck(Reached(cap, pids, acts))
  }

  ghost predicate CanBlockForGood(cap: nat, pids: set<Pid>) {
    exists acts :: StuckForGood(Reached(cap, pids, acts))
  }

  // The service can come to a stop, and it can do so for good, exactly when there are more
  // clients than messages fit into the queue or some client has the request type for its pid.
  lemma BlockingBoundary(cap: nat, pids: set<Pid>)
    ensures CanBlock(cap, pids) <==> |pids| > cap || REQUEST_TYPE in pids
    ensures CanBlockForGood(cap, pids) <==> |pids| > cap || REQUEST_TYPE in pids
  {
    if |pids| > cap || REQUEST_TYPE in pids {
      var acts := BlockingRun(cap, pids);
      assert Stuck(Run(Reached(cap, pids, acts), []));
    } else {
      forall acts
        ensures !Stuck(Reached(cap, pids, acts)) && !StuckForGood(Reached(cap, pids, acts))
      {
        NeverStuck(cap, pids, acts);
        assert Run(Reached(cap, pids, acts), []) == Reached(cap, pids, acts);
      }
    }
  }
}
