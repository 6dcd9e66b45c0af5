// The sequence-number service of SP_HW8/46_2: one System V message queue carries
// requests and replies, told apart by their type.
module SeqQueue {
  import opened Ranges

  // What getpid returns.
  type Pid = p: int | p > 0 witness 1

  const REQUEST_TYPE := 1

  // A message as the kernel keeps it: its type and two ints.  A request is (pid, seqLen),
  // a reply (seqNum, padding).  Only history says which of them it was sent as.
  datatype Msg = Msg(mtype: int, first: int, second: int, reply: bool)

  datatype ServerPc = Receive | Reply(pid: int, num: int)

  datatype ClientPc = Ask | Await | Printed(num: int)

  // from is history: how many grants there were when the call began.
  datatype Client = Client(pc: ClientPc, len: int, from: nat)

  // cap is how many messages fit; grants is history.
  datatype State = State(
    cap: nat, pids: set<Pid>, queue: seq<Msg>, server: ServerPc, seqNum: int,
    clients: map<Pid, Client>, grants: seq<Grant>)

  datatype Action = Start(pid: Pid, len: int) | ClientStep(who: Pid) | ServerStep

  function Init(cap: nat, pids: set<Pid>): State {
    State(cap, pids, [], Receive, 0, map[], [])
  }

  // --- the queue ------------------------------------------------------------------

  // msgrcv with a positive type takes the first message of that type.
  function FirstOf(q: seq<Msg>, t: int): (i: nat)
    ensures i <= |q| && (i < |q| ==> q[i].mtype == t)
    ensures forall k :: 0 <= k < i ==> q[k].mtype != t
  {
    if q == [] || q[0].mtype == t then 0
    else
      var i := FirstOf(q[1..], t);
      assert forall k :: 1 <= k < |q| ==> q[k] == q[1..][k - 1];
      i + 1
  }

  function Without(q: seq<Msg>, i: nat): seq<Msg>
    requires i < |q|
  {
    q[..i] + q[i + 1..]
  }

  // --- one atomic operation ---------------------------------------------------------

  // A reply to a pid that is no message type is refused at once.
  predicate Enabled(s: State, a: Action) {
    match a
    case Start(p, len) => p in s.pids && (p in s.clients ==> s.clients[p].pc.Printed?)
    case ClientStep(p) =>
      p in s.clients &&
      (match s.clients[p].pc
       case Ask => |s.queue| < s.cap
       case Await => FirstOf(s.queue, p) < |s.queue|
       case Printed(_) => false)
    case ServerStep =>
      (match s.server
       case Receive => FirstOf(s.queue, REQUEST_TYPE) < |s.queue|
       case Reply(p, _) => |s.queue| < s.cap || p <= 0)
  }

  function Step(s: State, a: Action): State {
    if !Enabled(s, a) then s else
    match a
    case Start(p, len) => s.(clients := s.clients[p := Client(Ask, len, |s.grants|)])
    case ClientStep(p) =>
      var c := s.clients[p];
      if c.pc == Ask then
        s.(queue := s.queue + [Msg(REQUEST_TYPE, p, c.len, false)], clients := s.clients[p := c.(pc := Await)])
      else
        var i := FirstOf(s.queue, p);
        s.(queue := Without(s.queue, i), clients := s.clients[p := c.(pc := Printed(s.queue[i].first))])
    case ServerStep =>
      (match s.server
       case Receive =>
         var i := FirstOf(s.queue, REQUEST_TYPE);
         var req := s.queue[i];
         s.(queue := Without(s.queue, i), server := Reply(req.first, s.seqNum),
            seqNum := s.seqNum + req.second,
            grants := s.grants + [Grant(req.first, s.seqNum, req.second)])
       case Reply(p, num) =>
         if p <= 0 then s.(server := Receive)
         else s.(queue := s.queue + [Msg(p, num, 0, true)], server := Receive))
  }

  function Run(s: State, acts: seq<Action>): State
    decreases |acts|
  {
    if acts == [] then s else Run(Step(s, acts[0]), acts[1..])
  }

  // --- the invariant ------------------------------------------------------------------

  predicate Awaits(s: State, p: int) {
    p > 0 && p in s.clients && s.clients[p].pc == Await
  }

  // num is the start of a range granted to p, of the length p asked for, in this call.
  ghost predicate Granted(s: State, p: int, num: int) {
    p > 0 && p in s.clients &&
    exists i :: s.clients[p].from <= i < |s.grants| && s.grants[i] == Grant(p, num, s.clients[p].len)
  }

  // The client a message belongs to.
  function Owner(m: Msg): int {
    if m.reply then m.mtype else m.first
  }

  ghost predicate MsgInv(s: State, m: Msg) {
    Awaits(s, Owner(m)) &&
    if m.reply then Granted(s, m.mtype, m.first)
    else m.mtype == REQUEST_TYPE && m.second == s.clients[m.first].len
  }

  predicate InHand(s: State, p: int) {
    s.server.Reply? && s.server.pid == p
  }

  // Every call under way is in exactly one place: the queue or the server's hands.
  ghost predicate TokensApart(s: State) {
    Apart(s.queue) && (s.server.Reply? ==> !Queued(s.queue, s.server.pid))
  }

  ghost predicate Apart(q: seq<Msg>) {
    forall i, j :: 0 <= i < j < |q| ==> Owner(q[i]) != Owner(q[j])
  }

  ghost predicate Queued(q: seq<Msg>, p: int) {
    exists i :: 0 <= i < |q| && Owner(q[i]) == p
  }

  ghost predicate HasToken(s: State, p: int) {
    InHand(s, p) || Queued(s.queue, p)
  }

  ghost predicate QueueInv(s: State) {
    && |s.queue| <= s.cap
    && (forall i :: 0 <= i < |s.queue| ==> MsgInv(s, s.queue[i]))
    && (s.server.Reply? ==> Awaits(s, s.server.pid) && Granted(s, s.server.pid, s.server.num))
    && TokensApart(s)
    && (forall p :: Awaits(s, p) ==> HasToken(s, p))
  }

  ghost predicate BookInv(s: State) {
    && (forall p :: p in s.clients ==> p in s.pids && s.clients[p].from <= |s.grants|)
    && (forall p :: p in s.clients && s.clients[p].pc.Printed? ==> Granted(s, p, s.clients[p].pc.num))
    && Chained(s.grants) && s.seqNum == Sum(s.grants)
  }

  ghost predicate Inv(s: State) {
    REQUEST_TYPE !in s.pids && QueueInv(s) && BookInv(s)
  }

  // More grants, and other calls, leave a grant what it is.
  lemma GrantedFrame(s: State, t: State, p: int, num: int)
    requires Granted(s, p, num) && s.grants <= t.grants
    requires p > 0 && p in t.clients && t.clients[p].from == s.clients[p].from && t.clients[p].len == s.clients[p].len
    ensures Granted(t, p, num)
  {
    var i :| s.clients[p].from <= i < |s.grants| && s.grants[i] == Grant(p, num, s.clients[p].len);
    assert t.grants[i] == s.grants[i];
  }

  lemma MsgFrame(s: State, t: State, m: Msg)
    requires MsgInv(s, m) && s.grants <= t.grants && Awaits(t, Owner(m)) && t.clients[Owner(m)] == s.clients[Owner(m)]
    ensures MsgInv(t, m)
  {
    if m.reply {
      GrantedFrame(s, t, m.mtype, m.first);
    }
  }

  // What a step that leaves the printed numbers alone does to them.
  lemma PrintedFrame(s: State, t: State)
    requires s.grants <= t.grants && forall q :: q in s.clients && s.clients[q].pc.Printed? ==> Granted(s, q, s.clients[q].pc.num)
    requires forall q :: q in t.clients && t.clients[q].pc.Printed? ==> q in s.clients && s.clients[q] == t.clients[q]
    ensures forall q :: q in t.clients && t.clients[q].pc.Printed? ==> Granted(t, q, t.clients[q].pc.num)
  {
    forall q | q in t.clients && t.clients[q].pc.Printed?
      ensures Granted(t, q, t.clients[q].pc.num)
    {
      GrantedFrame(s, t, q, t.clients[q].pc.num);
    }
  }

  lemma StartKeepsInv(s: State, p: Pid, len: int)
    requires Inv(s) && Enabled(s, Start(p, len))
    ensures Inv(Step(s, Start(p, len)))
  {
    var t := Step(s, Start(p, len));
    forall i | 0 <= i < |t.queue|
      ensures MsgInv(t, t.queue[i])
    {
      assert MsgInv(s, s.queue[i]);
      MsgFrame(s, t, t.queue[i]);
    }
    if s.server.Reply? {
      GrantedFrame(s, t, s.server.pid, s.server.num);
    }
    assert forall q :: Awaits(t, q) ==> Awaits(s, q) && HasToken(s, q);
    PrintedFrame(s, t);
  }

  // Sending puts one more call into the queue.
  lemma Sent(q: seq<Msg>, m: Msg)
    requires Apart(q) && !Queued(q, Owner(m))
    ensures Apart(q + [m]) && forall p :: Queued(q + [m], p) <==> Queued(q, p) || p == Owner(m)
  {
    var q' := q + [m];
    forall p
      ensures Queued(q', p) <==> Queued(q, p) || p == Owner(m)
    {
      assert Owner(q'[|q|]) == Owner(m);
      if i :| 0 <= i < |q| && Owner(q[i]) == p {
        assert Owner(q'[i]) == p;
      }
    }
  }

  // Receiving takes one out.
  lemma Received(q: seq<Msg>, i: nat)
    requires i < |q| && Apart(q)
    ensures Apart(Without(q, i)) && forall p :: Queued(Without(q, i), p) <==> Queued(q, p) && p != Owner(q[i])
    ensures forall m :: m in Without(q, i) ==> m in q && Owner(m) != Owner(q[i])
  {
    var q' := Without(q, i);
    forall k | 0 <= k < |q'|
      ensures q'[k] == q[Was(i, k)] && Owner(q'[k]) != Owner(q[i])
    {
      WithoutAt(q, i, k);
    }
    forall j, k | 0 <= j < k < |q'|
      ensures Owner(q'[j]) != Owner(q'[k])
    {
      assert Was(i, j) < Was(i, k);
    }
    forall p | Queued(q, p) && p != Owner(q[i])
      ensures Queued(q', p)
    {
      var k :| 0 <= k < |q| && Owner(q[k]) == p;
      WithoutAt(q, i, k);
      assert Owner(q'[Goes(i, k)]) == p;
    }
    forall p | Queued(q', p)
      ensures Queued(q, p) && p != Owner(q[i])
    {
      var k :| 0 <= k < |q'| && Owner(q'[k]) == p;
      assert Owner(q[Was(i, k)]) == p;
    }
  }

  // Where position k of Without(q, i) was, and where position k of q goes.
  function Was(i: nat, k: nat): nat {
    if k < i then k else k + 1
  }

  function Goes(i: nat, k: nat): nat
    requires k != i
  {
    if k < i then k else k - 1
  }

  lemma WithoutAt(q: seq<Msg>, i: nat, k: nat)
    requires i < |q| && k < |q|
    ensures |Without(q, i)| == |q| - 1
    ensures k < |q| - 1 ==> Without(q, i)[k] == q[Was(i, k)]
    ensures k != i ==> Without(q, i)[Goes(i, k)] == q[k]
  {
  }

  lemma AskKeepsInv(s: State, p: Pid)
    requires Inv(s) && Enabled(s, ClientStep(p)) && s.clients[p].pc == Ask
    ensures Inv(Step(s, ClientStep(p)))
  {
    var t := Step(s, ClientStep(p));
    var m := Msg(REQUEST_TYPE, p, s.clients[p].len, false);
    NotQueued(s, p);
    Sent(s.queue, m);
    forall i | 0 <= i < |t.queue|
      ensures MsgInv(t, t.queue[i])
    {
      if i < |s.queue| {
        assert MsgInv(s, s.queue[i]) && t.queue[i] == s.queue[i];
        MsgFrame(s, t, t.queue[i]);
      }
    }
    if s.server.Reply? {
      GrantedFrame(s, t, s.server.pid, s.server.num);
    }
    assert forall q :: Awaits(t, q) ==> q == p || (Awaits(s, q) && HasToken(s, q));
    PrintedFrame(s, t);
  }

  // Only awaiting clients have anything in the queue.
  lemma NotQueued(s: State, p: int)
    requires forall i :: 0 <= i < |s.queue| ==> MsgInv(s, s.queue[i])
    requires !Awaits(s, p)
    ensures !Queued(s.queue, p)
  {
    forall i | 0 <= i < |s.queue|
      ensures Owner(s.queue[i]) != p
    {
      assert MsgInv(s, s.queue[i]);
    }
  }

  // What an awaiting client takes is the reply to it.
  lemma OwnReply(s: State, p: Pid)
    requires Inv(s) && p in s.clients && FirstOf(s.queue, p) < |s.queue|
    ensures var m := s.queue[FirstOf(s.queue, p)]; m.reply && Owner(m) == p && Granted(s, p, m.first)
  {
    assert MsgInv(s, s.queue[FirstOf(s.queue, p)]);
  }

  lemma AwaitKeepsQueue(s: State, p: Pid)
    requires Inv(s) && Enabled(s, ClientStep(p)) && s.clients[p].pc == Await
    ensures QueueInv(Step(s, ClientStep(p)))
  {
    var t := Step(s, ClientStep(p));
    var i := FirstOf(s.queue, p);
    OwnReply(s, p);
    Received(s.queue, i);
    WithoutAt(s.queue, i, i);
    forall k | 0 <= k < |t.queue|
      ensures MsgInv(t, t.queue[k])
    {
      TakenFromInv(s, t, i, k);
    }
    assert !InHand(s, p);
    if s.server.Reply? {
      GrantedFrame(s, t, s.server.pid, s.server.num);
    }
    assert forall q :: Awaits(t, q) ==> q != p && Awaits(s, q) && HasToken(s, q);
  }

  lemma AwaitKeepsBook(s: State, p: Pid)
    requires Inv(s) && Enabled(s, ClientStep(p)) && s.clients[p].pc == Await
    ensures BookInv(Step(s, ClientStep(p)))
  {
    var t := Step(s, ClientStep(p));
    OwnReply(s, p);
    forall q | q in t.clients && t.clients[q].pc.Printed?
      ensures Granted(t, q, t.clients[q].pc.num)
    {
      GrantedFrame(s, t, q, t.clients[q].pc.num);
    }
  }

  lemma TakenFromInv(s: State, t: State, i: nat, k: nat)
    requires i < |s.queue| && Apart(s.queue) && t.queue == Without(s.queue, i) && k < |t.queue|
    requires forall j :: 0 <= j < |s.queue| ==> MsgInv(s, s.queue[j])
    requires s.grants <= t.grants
    requires forall q :: Awaits(s, q) && q != Owner(s.queue[i]) ==> Awaits(t, q) && t.clients[q] == s.clients[q]
    ensures MsgInv(t, t.queue[k])
  {
    WithoutAt(s.queue, i, k);
    assert MsgInv(s, s.queue[Was(i, k)]);
    assert Owner(s.queue[Was(i, k)]) != Owner(s.queue[i]);
    MsgFrame(s, t, t.queue[k]);
  }

  // What the server takes is a request.
  lemma OwnRequest(s: State)
    requires Inv(s) && FirstOf(s.queue, REQUEST_TYPE) < |s.queue|
    ensures var m := s.queue[FirstOf(s.queue, REQUEST_TYPE)];
      !m.reply && Awaits(s, m.first) && m.second == s.clients[m.first].len
  {
    assert MsgInv(s, s.queue[FirstOf(s.queue, REQUEST_TYPE)]);
  }

  lemma ReceiveKeepsQueue(s: State)
    requires Inv(s) && Enabled(s, ServerStep) && s.server == Receive
    ensures QueueInv(Step(s, ServerStep))
  {
    var t := Step(s, ServerStep);
    var i := FirstOf(s.queue, REQUEST_TYPE);
    var req := s.queue[i];
    OwnRequest(s);
    Received(s.queue, i);
    WithoutAt(s.queue, i, i);
    assert t.grants[|s.grants|] == Grant(req.first, s.seqNum, req.second);
    assert Granted(t, req.first, s.seqNum);
    forall k | 0 <= k < |t.queue|
      ensures MsgInv(t, t.queue[k])
    {
      TakenFromInv(s, t, i, k);
    }
    assert forall q :: Awaits(t, q) ==> Awaits(s, q) && HasToken(s, q);
  }

  lemma ReceiveKeepsBook(s: State)
    requires Inv(s) && Enabled(s, ServerStep) && s.server == Receive
    ensures BookInv(Step(s, ServerStep))
  {
    var req := s.queue[FirstOf(s.queue, REQUEST_TYPE)];
    ChainedAppend(s.grants, Grant(req.first, s.seqNum, req.second));
    PrintedFrame(s, Step(s, ServerStep));
  }

  lemma ReplyKeepsInv(s: State)
    requires Inv(s) && Enabled(s, ServerStep) && s.server.Reply?
    ensures Inv(Step(s, ServerStep))
  {
    var t := Step(s, ServerStep);
    var p := s.server.pid;
    Sent(s.queue, Msg(p, s.server.num, 0, true));
    forall i | 0 <= i < |t.queue|
      ensures MsgInv(t, t.queue[i])
    {
      if i < |s.queue| {
        assert MsgInv(s, s.queue[i]) && t.queue[i] == s.queue[i];
        MsgFrame(s, t, t.queue[i]);
      } else {
        GrantedFrame(s, t, p, s.server.num);
      }
    }
    assert forall q :: Awaits(t, q) ==> Awaits(s, q) && HasToken(s, q);
    PrintedFrame(s, t);
  }

  lemma StepKeepsInv(s: State, a: Action)
    requires Inv(s)
    ensures Inv(Step(s, a))
  {
    if Enabled(s, a) {
      match a
      case Start(p, len) => StartKeepsInv(s, p, len);
      case ClientStep(p) => if s.clients[p].pc == Ask { AskKeepsInv(s, p); } else { AwaitKeepsQueue(s, p); AwaitKeepsBook(s, p); }
      case ServerStep => if s.server == Receive { ReceiveKeepsQueue(s); ReceiveKeepsBook(s); } else { ReplyKeepsInv(s); }
    }
  }

  lemma {:induction false} RunKeepsInv(s: State, acts: seq<Action>)
    requires Inv(s)
    ensures Inv(Run(s, acts))
    decreases |acts|
  {
    if acts != [] {
      StepKeepsInv(s, acts[0]);
      RunKeepsInv(Step(s, acts[0]), acts[1..]);
    }
  }
}
