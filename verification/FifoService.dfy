// The sequence-number service of SP_HW8/44_6: requests come through one FIFO, each reply
// goes through the client's own, which the server opens without waiting for a reader.
module FifoService {
  import opened Common
  import opened Ranges

  type Pid = p: int | p > 0 witness 1

  datatype Request = Request(pid: Pid, len: int)

  // Read the next request, try to open the client's FIFO, write the response, move on.
  datatype ServerPc = Read | TryOpen(req: Request) | Write(req: Request) | Advance(req: Request)

  // Sent is between writing the request and opening the reply FIFO; Opening holds the
  // read end; Gone has left without opening it.
  datatype ClientPc = Send | Sent | Opening | Printed(num: int) | Gone

  // What became of a request; history.
  datatype Fate = Undecided | Granted(start: int) | Dropped

  datatype Client = Client(good: bool, len: int, pc: ClientPc, inbox: Option<int>, fate: Fate)

  // grants is history.
  datatype State = State(
    pipe: seq<Request>, server: ServerPc, seqNum: int, clients: map<Pid, Client>, grants: seq<Grant>)

  datatype Action = Start(pid: Pid, good: bool, len: int) | ClientStep(who: Pid) | ServerStep

  function Init(): State {
    State([], Read, 0, map[], [])
  }

  // --- one atomic operation -----------------------------------------------------------

  // A pid is used once.  A client that is opening its FIFO goes on when there is
  // something in it.
  predicate Enabled(s: State, a: Action) {
    match a
    case Start(p, good, len) => p !in s.clients
    case ClientStep(p) =>
      p in s.clients &&
      (match s.clients[p].pc
       case Send => true
       case Sent => true
       case Opening => s.clients[p].inbox.Some?
       case _ => false)
    case ServerStep => s.server == Read ==> s.pipe != []
  }

  predicate HasReader(s: State, p: Pid) {
    p in s.clients && s.clients[p].pc == Opening
  }

  function AfterClient(s: State, p: Pid): State
    requires p in s.clients
  {
    var c := s.clients[p];
    match c.pc
    case Send =>
      s.(pipe := s.pipe + [Request(p, c.len)], clients := s.clients[p := c.(pc := if c.good then Sent else Gone)])
    case Sent => s.(clients := s.clients[p := c.(pc := Opening)])
    case Opening =>
      if c.inbox.Some? then s.(clients := s.clients[p := c.(pc := Printed(c.inbox.value), inbox := None)]) else s
    case _ => s
  }

  function SetFate(s: State, p: Pid, f: Fate, inbox: Option<int>): map<Pid, Client> {
    if p in s.clients then s.clients[p := s.clients[p].(fate := f, inbox := inbox)] else s.clients
  }

  function AfterServer(s: State): State {
    match s.server
    case Read => if s.pipe == [] then s else s.(server := TryOpen(s.pipe[0]), pipe := s.pipe[1..])
    case TryOpen(req) =>
      if HasReader(s, req.pid) then s.(server := Write(req))
      else s.(server := Read, clients := SetFate(s, req.pid, Dropped, None))
    case Write(req) =>
      s.(server := Advance(req), clients := SetFate(s, req.pid, Granted(s.seqNum), Some(s.seqNum)),
         grants := s.grants + [Grant(req.pid, s.seqNum, req.len)])
    case Advance(req) => s.(server := Read, seqNum := s.seqNum + req.len)
  }

  function Step(s: State, a: Action): State {
    if !Enabled(s, a) then s else
    match a
    case Start(p, good, len) => s.(clients := s.clients[p := Client(good, len, Send, None, Undecided)])
    case ClientStep(p) => AfterClient(s, p)
    case ServerStep => AfterServer(s)
  }

  function Run(s: State, acts: seq<Action>): State
    decreases |acts|
  {
    if acts == [] then s else Run(Step(s, acts[0]), acts[1..])
  }

  // --- the invariant --------------------------------------------------------------------

  // The request the server is deciding on.
  predicate InHand(s: State, r: Request) {
    s.server == TryOpen(r) || s.server == Write(r)
  }

  predicate Queued(s: State, p: Pid) {
    exists i :: 0 <= i < |s.pipe| && s.pipe[i].pid == p
  }

  // A request under way belongs to a client that has sent it and waits for its fate.
  predicate RequestInv(s: State, r: Request) {
    r.pid in s.clients && s.clients[r.pid].len == r.len && s.clients[r.pid].fate == Undecided && s.clients[r.pid].pc != Send
  }

  predicate ClientInv(s: State, p: Pid)
    requires p in s.clients
  {
    var c := s.clients[p];
    && (c.pc == Sent || c.pc == Opening || c.pc.Printed? ==> c.good)
    && (c.pc == Gone ==> !c.good)
    && (match c.fate
        case Undecided =>
          c.inbox == None && !c.pc.Printed? &&
          (c.pc != Send ==> Queued(s, p) || InHand(s, Request(p, c.len)))
        case Granted(n) => c.good && ((c.pc == Opening && c.inbox == Some(n)) || (c.pc == Printed(n) && c.inbox == None))
        case Dropped => c.inbox == None && c.pc != Send && !c.pc.Printed?)
  }

  ghost predicate PipeInv(s: State) {
    && (forall i :: 0 <= i < |s.pipe| ==> RequestInv(s, s.pipe[i]))
    && (forall i, j :: 0 <= i < j < |s.pipe| ==> s.pipe[i].pid != s.pipe[j].pid)
    && (s.server.TryOpen? || s.server.Write? ==>
          RequestInv(s, s.server.req) && forall i :: 0 <= i < |s.pipe| ==> s.pipe[i].pid != s.server.req.pid)
    && (s.server.Write? ==> HasReader(s, s.server.req.pid))
  }

  predicate GrantedTo(s: State, g: Grant) {
    g.pid > 0 && g.pid in s.clients && s.clients[g.pid].fate == Granted(g.start) && s.clients[g.pid].len == g.len
  }

  predicate HasGrant(gs: seq<Grant>, p: Pid) {
    exists i :: 0 <= i < |gs| && gs[i].pid == p
  }

  predicate OncePerPid(gs: seq<Grant>) {
    forall i, j :: 0 <= i < j < |gs| ==> gs[i].pid != gs[j].pid
  }

  // Every grant went to the client it names, and no client was granted two.
  ghost predicate GrantInv(s: State) {
    && (forall i :: 0 <= i < |s.grants| ==> GrantedTo(s, s.grants[i]))
    && OncePerPid(s.grants)
    && (forall p :: p in s.clients && s.clients[p].fate.Granted? ==> HasGrant(s.grants, p))
    && Chained(s.grants)
    && Sum(s.grants) == s.seqNum + (if s.server.Advance? then s.server.req.len else 0)
  }

  ghost predicate Inv(s: State) {
    PipeInv(s) && GrantInv(s) && forall p :: p in s.clients ==> ClientInv(s, p)
  }

  lemma StartKeepsInv(s: State, p: Pid, good: bool, len: int)
    requires Inv(s) && p !in s.clients
    ensures Inv(Step(s, Start(p, good, len)))
  {
    hide ClientInv, PipeInv, GrantInv;
    var t := Step(s, Start(p, good, len));
    StartKeepsPipe(s, p, good, len);
    FatesFrame(s, t);
    forall q | q in t.clients
      ensures ClientInv(t, q)
    {
      StartKeepsClient(s, p, good, len, q);
    }
  }

  lemma StartKeepsPipe(s: State, p: Pid, good: bool, len: int)
    requires PipeInv(s) && p !in s.clients
    ensures PipeInv(Step(s, Start(p, good, len)))
  {
    forall i | 0 <= i < |s.pipe|
      ensures RequestInv(Step(s, Start(p, good, len)), s.pipe[i])
    {
      assert RequestInv(s, s.pipe[i]);
    }
  }

  lemma StartKeepsClient(s: State, p: Pid, good: bool, len: int, q: Pid)
    requires p !in s.clients && (q in s.clients ==> ClientInv(s, q)) && (q in s.clients || q == p)
    ensures ClientInv(Step(s, Start(p, good, len)), q)
  {
    assert Queued(Step(s, Start(p, good, len)), q) == Queued(s, q);
  }

  // A step that writes nothing, and leaves granted fates alone, keeps the books.
  lemma FatesFrame(s: State, t: State)
    requires GrantInv(s) && t.grants == s.grants
    requires t.seqNum + (if t.server.Advance? then t.server.req.len else 0) ==
             s.seqNum + (if s.server.Advance? then s.server.req.len else 0)
    requires forall p :: p in s.clients ==> p in t.clients && t.clients[p].len == s.clients[p].len
    requires forall p :: p in s.clients && s.clients[p].fate.Granted? ==> t.clients[p].fate == s.clients[p].fate
    requires forall p :: p in t.clients && t.clients[p].fate.Granted? ==> p in s.clients && s.clients[p].fate.Granted?
    ensures GrantInv(t)
  {
    assert forall i :: 0 <= i < |t.grants| ==> GrantedTo(s, s.grants[i]) && GrantedTo(t, t.grants[i]);
  }

  // A client that has not sent its request is undecided, and an undecided one has nothing
  // in its FIFO.
  lemma NotDecidedYet(s: State, p: Pid)
    requires Inv(s) && p in s.clients
    ensures s.clients[p].pc == Send ==> s.clients[p].fate == Undecided
    ensures s.clients[p].fate == Undecided ==> s.clients[p].inbox == None
  {
    assert ClientInv(s, p);
  }

  lemma ClientKeepsPipe(s: State, p: Pid)
    requires Inv(s) && Enabled(s, ClientStep(p))
    ensures PipeInv(AfterClient(s, p))
  {
    hide ClientInv, GrantInv;
    var t := AfterClient(s, p);
    NotDecidedYet(s, p);
    forall i | 0 <= i < |t.pipe|
      ensures RequestInv(t, t.pipe[i])
      ensures i < |s.pipe| && s.clients[p].pc == Send ==> t.pipe[i].pid != p
    {
      if i < |s.pipe| {
        assert RequestInv(s, s.pipe[i]) && t.pipe[i] == s.pipe[i];
      }
    }
  }

  lemma ClientKeepsClients(s: State, p: Pid, q: Pid)
    requires Inv(s) && Enabled(s, ClientStep(p)) && q in s.clients
    ensures ClientInv(AfterClient(s, p), q)
  {
    hide GrantInv, PipeInv;
    assert ClientInv(s, q) && ClientInv(s, p);
    if s.clients[p].pc == Send {
      SendKeepsQueued(s, p, q);
    }
  }

  // Sending a request puts it behind those that are there.
  lemma SendKeepsQueued(s: State, p: Pid, q: Pid)
    requires p in s.clients && s.clients[p].pc == Send
    ensures Queued(AfterClient(s, p), p) && (Queued(s, q) ==> Queued(AfterClient(s, p), q))
  {
    var t := AfterClient(s, p);
    assert t.pipe[|s.pipe|].pid == p;
    if Queued(s, q) {
      var i :| 0 <= i < |s.pipe| && s.pipe[i].pid == q;
      assert t.pipe[i].pid == q;
    }
  }

  lemma ClientKeepsGrants(s: State, p: Pid)
    requires Inv(s) && Enabled(s, ClientStep(p))
    ensures GrantInv(AfterClient(s, p))
  {
    hide GrantInv, PipeInv, ClientInv;
    assert PipeInv(s) && GrantInv(s);
    FatesFrame(s, AfterClient(s, p));
  }

  lemma ServerKeepsPipe(s: State)
    requires PipeInv(s) && Enabled(s, ServerStep)
    ensures PipeInv(AfterServer(s))
  {
    if s.server == Read {
      ReadKeepsPipe(s);
    } else {
      var t := AfterServer(s);
      forall i | 0 <= i < |t.pipe|
        ensures RequestInv(t, t.pipe[i])
      {
        assert RequestInv(s, s.pipe[i]);
      }
    }
  }

  lemma ReadKeepsPipe(s: State)
    requires PipeInv(s) && s.server == Read && s.pipe != []
    ensures PipeInv(AfterServer(s))
  {
    var t := AfterServer(s);
    forall i | 0 <= i < |t.pipe|
      ensures RequestInv(t, t.pipe[i]) && t.pipe[i].pid != s.pipe[0].pid
    {
      assert t.pipe[i] == s.pipe[i + 1];
      assert RequestInv(s, s.pipe[i + 1]);
    }
    assert RequestInv(s, s.pipe[0]);
  }

  lemma ServerKeepsClients(s: State, q: Pid)
    requires Inv(s) && Enabled(s, ServerStep) && q in s.clients
    ensures ClientInv(AfterServer(s), q)
  {
    assert ClientInv(s, q);
    if s.server == Read {
      hide GrantInv;
      ReadKeepsClient(s, q);
    }
  }

  // What the server takes from its FIFO it has in hand.
  lemma ReadKeepsClient(s: State, q: Pid)
    requires PipeInv(s) && s.server == Read && s.pipe != [] && q in s.clients && ClientInv(s, q)
    ensures ClientInv(AfterServer(s), q)
  {
    var t := AfterServer(s);
    if Queued(s, q) {
      var i :| 0 <= i < |s.pipe| && s.pipe[i].pid == q;
      assert RequestInv(s, s.pipe[i]);
      if i > 0 {
        assert t.pipe[i - 1].pid == q;
      }
    }
  }

  lemma WriteKeepsGrants(s: State)
    requires GrantInv(s) && s.server.Write? && RequestInv(s, s.server.req)
    ensures GrantInv(AfterServer(s))
  {
    hide Chained, Sum;
    var t := AfterServer(s);
    var req := s.server.req;
    var n := |s.grants|;
    var g := Grant(req.pid, s.seqNum, req.len);
    ChainedAppend(s.grants, g);
    forall i | 0 <= i <= n
      ensures GrantedTo(t, t.grants[i]) && (i < n ==> t.grants[i].pid != req.pid)
    {
      if i < n {
        assert GrantedTo(s, s.grants[i]);
      }
    }
    forall p | p in t.clients && t.clients[p].fate.Granted?
      ensures HasGrant(t.grants, p)
    {
      if p == req.pid {
        assert t.grants[n].pid == p;
      } else {
        var i :| 0 <= i < n && s.grants[i].pid == p;
        assert t.grants[i].pid == p;
      }
    }
  }

  lemma OtherKeepsGrants(s: State)
    requires GrantInv(s) && !s.server.Write? && (s.server.TryOpen? ==> RequestInv(s, s.server.req))
    ensures GrantInv(AfterServer(s))
  {
    FatesFrame(s, AfterServer(s));
  }

  lemma StepKeepsInv(s: State, a: Action)
    requires Inv(s)
    ensures Inv(Step(s, a))
  {
    if Enabled(s, a) {
      match a
      case Start(p, good, len) => StartKeepsInv(s, p, good, len);
      case ClientStep(p) =>
        ClientKeepsPipe(s, p);
        ClientKeepsGrants(s, p);
        forall q | q in s.clients ensures ClientInv(AfterClient(s, p), q) { ClientKeepsClients(s, p, q); }
      case ServerStep =>
        ServerKeepsPipe(s);
        if s.server.Write? { WriteKeepsGrants(s); } else { OtherKeepsGrants(s); }
        forall q | q in s.clients ensures ClientInv(AfterServer(s), q) { ServerKeepsClients(s, q); }
    }
  }

  lemma {:induction false} RunKeepsInv(s: State, acts: seq<Action>)
    requires Inv(s)
    ensures Inv(Run(s, acts))
    decreases |acts|
  {
    if acts != [] {
      StepKeepsInv(s, acts[0]);
      RunKeepsInv(Step(s, acts[0]), acts[1..]);
    }
  }
}
