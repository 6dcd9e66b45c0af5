// SP_HW9/52_3, the file server above the conflict marker: requests come through one queue,
// each file goes out in zero-padded messages through the client's own queue of four.
module FileTransfer {
  import opened Common

  const MSG_SIZE: nat := 2048
  const MAX_MSG: nat := 4

  type Pid = p: int | p > 0 witness 1

  type Message = seq<byte>

  datatype ServerPc =
    Receive | Open(p: Pid) | Read(p: Pid) | Send(p: Pid) | Clear(p: Pid) | Mark(p: Pid) | Finish(p: Pid)

  datatype ClientPc = Ask | Receiving | Done

  // How far the server is with a client's request; history.
  datatype Stage = NotAsked | Queued | Serving | Served | Failed

  // file is None if it cannot be opened.  chunks, what read returned for this file, sent,
  // the messages put into the queue, and taken, how many of them the client has received,
  // are history.
  datatype Client = Client(
    file: Option<seq<byte>>, pc: ClientPc, queue: seq<Message>, bytes: nat, msgs: nat,
    stage: Stage, chunks: seq<seq<byte>>, sent: seq<Message>, taken: nat)

  datatype State = State(
    requests: seq<Pid>, server: ServerPc, data: Message, pos: nat, clients: map<Pid, Client>)

  // The schedule says how many bytes a read would like to return.
  datatype Action = Start(pid: Pid, file: Option<seq<byte>>) | ClientStep(who: Pid) | ServerStep(k: nat)

  function Init(): State {
    State([], Receive, Zeros(MSG_SIZE), 0, map[])
  }

  function Strlen(m: Message): (n: nat)
    ensures n <= |m| && (forall i :: 0 <= i < n ==> m[i] != 0) && (n < |m| ==> m[n] == 0)
  {
    if m == [] || m[0] == 0 then 0
    else
      var n := Strlen(m[1..]);
      assert forall i :: 1 <= i < |m| ==> m[i] == m[1..][i - 1];
      n + 1
  }

  // --- one atomic operation ---------------------------------------------------------------

  predicate HasRoom(s: State, p: Pid) {
    p in s.clients && |s.clients[p].queue| < MAX_MSG
  }

  predicate Enabled(s: State, a: Action) {
    match a
    case Start(p, _) => p !in s.clients
    case ClientStep(p) =>
      p in s.clients &&
      (match s.clients[p].pc
       case Ask => |s.requests| < MAX_MSG
       case Receiving => s.clients[p].queue != []
       case Done => false)
    case ServerStep(_) =>
      (match s.server
       case Receive => s.requests != []
       case Send(p) => HasRoom(s, p)
       case Finish(p) => HasRoom(s, p)
       case _ => true)
  }

  // A client's turn of its loop with the first message in its queue.
  function Taken(c: Client): Client
    requires c.queue != []
  {
    var m := c.queue[0];
    var c' := c.(queue := c.queue[1..], taken := c.taken + 1);
    if m == [] || m[0] == 0 then c'.(pc := Done)
    else c'.(bytes := c.bytes + Strlen(m), msgs := c.msgs + 1)
  }

  function AfterClient(s: State, p: Pid): State
    requires p in s.clients
  {
    var c := s.clients[p];
    match c.pc
    case Ask => s.(requests := s.requests + [p], clients := s.clients[p := c.(pc := Receiving, stage := Queued)])
    case Receiving =>
      if c.queue == [] then s else s.(clients := s.clients[p := Taken(c)])
    case Done => s
  }

  function Put(c: Client, m: Message): Client {
    c.(queue := c.queue + [m], sent := c.sent + [m])
  }

  // The server's operations that concern one client.
  function AfterServing(s: State, p: Pid, k: nat): State
    requires p in s.clients && s.server != Receive
  {
    var c := s.clients[p];
    match s.server
    case Open(_) =>
      if c.file == None then s.(server := Receive, clients := s.clients[p := c.(stage := Failed)])
      else s.(server := Read(p), pos := 0)
    case Read(_) =>
      var file := if c.file.Some? then c.file.value else [];
      var n := if s.pos <= |file| then ReadSize(|file| - s.pos, MSG_SIZE - 1, k) else 0;
      if n == 0 then s.(server := Mark(p))
      else
        var chunk := file[s.pos..s.pos + n];
        s.(server := Send(p), pos := s.pos + n, data := chunk + (if n <= |s.data| then s.data[n..] else []),
           clients := s.clients[p := c.(chunks := c.chunks + [chunk])])
    case Send(_) => s.(server := Clear(p), clients := s.clients[p := Put(c, s.data)])
    case Clear(_) => s.(server := Read(p), data := Zeros(MSG_SIZE))
    case Mark(_) => s.(server := Finish(p), data := if s.data == [] then [] else s.data[0 := 0])
    case Finish(_) => s.(server := Receive, clients := s.clients[p := Put(c, s.data).(stage := Served)])
  }

  function AfterServer(s: State, k: nat): State {
    if s.server == Receive then
      if s.requests == [] then s
      else
        var p := s.requests[0];
        s.(server := Open(p), requests := s.requests[1..],
           clients := if p in s.clients then s.clients[p := s.clients[p].(stage := Serving)] else s.clients)
    else if s.server.p in s.clients then AfterServing(s, s.server.p, k)
    else s
  }

  function Step(s: State, a: Action): State {
    if !Enabled(s, a) then s else
    match a
    case Start(p, file) => s.(clients := s.clients[p := Client(file, Ask, [], 0, 0, NotAsked, [], [], 0)])
    case ClientStep(p) => AfterClient(s, p)
    case ServerStep(k) => AfterServer(s, k)
  }

  function Run(s: State, acts: seq<Action>): State
    decreases |acts|
  {
    if acts == [] then s else Run(Step(s, acts[0]), acts[1..])
  }

  // --- the invariant ------------------------------------------------------------------------

  function Pad(chunk: seq<byte>): Message {
    if |chunk| <= MSG_SIZE then chunk + Zeros(MSG_SIZE - |chunk|) else chunk
  }

  function Flat(chunks: seq<seq<byte>>): seq<byte> {
    if chunks == [] then [] else Flat(chunks[..|chunks| - 1]) + chunks[|chunks| - 1]
  }

  predicate ChunksOk(chunks: seq<seq<byte>>) {
    forall i :: 0 <= i < |chunks| ==> 1 <= |chunks[i]| < MSG_SIZE
  }

  // The server's program counter and file position, for the client it is serving.
  datatype View = View(pc: ServerPc, pos: nat)

  function ViewOf(s: State, p: Pid): Option<View> {
    if s.server != Receive && s.server.p == p then Some(View(s.server, s.pos)) else None
  }

  predicate At(v: Option<View>, pc: ServerPc) {
    v.Some? && v.value.pc == pc
  }

  // What the server has put into a client's queue: its chunks in order, padded, except one
  // it is about to send, and the end marker once it is through.
  predicate SentInv(c: Client, sending: bool) {
    && ChunksOk(c.chunks)
    && |c.sent| == |c.chunks| + (if c.stage == Served then 1 else 0) - (if sending then 1 else 0)
    && (forall i :: 0 <= i < |c.sent| && i < |c.chunks| ==> c.sent[i] == Pad(c.chunks[i]))
    && (c.stage == Served ==> !sending && c.sent[|c.chunks|] == Zeros(MSG_SIZE))
  }

  // The bytes strlen finds in the first n messages.
  function Counted(sent: seq<Message>, n: nat): nat
    requires n <= |sent|
  {
    if n == 0 then 0 else Counted(sent, n - 1) + Strlen(sent[n - 1])
  }

  predicate StartsNul(m: Message) {
    m == [] || m[0] == 0
  }

  // What the client has made of the messages it has received.
  predicate ReceivedInv(c: Client) {
    && c.taken <= |c.sent| && c.queue == c.sent[c.taken..] && |c.queue| <= MAX_MSG
    && (c.pc != Done ==>
          c.msgs == c.taken && c.bytes == Counted(c.sent, c.taken) &&
          forall i :: 0 <= i < c.taken ==> !StartsNul(c.sent[i]))
    && (c.pc == Done ==>
          c.taken > 0 && c.msgs == c.taken - 1 && c.bytes == Counted(c.sent, c.taken - 1) && StartsNul(c.sent[c.taken - 1]) &&
          forall i :: 0 <= i < c.taken - 1 ==> !StartsNul(c.sent[i]))
  }

  predicate StageInv(c: Client, v: Option<View>, queued: bool) {
    && (c.pc == Ask <==> c.stage == NotAsked)
    && (c.stage == Queued ==> queued)
    && (c.stage == Serving <==> v.Some?)
    && (match c.stage
        case Served => c.file.Some? && Flat(c.chunks) == c.file.value
        case Serving =>
          var pc, pos := v.value.pc, v.value.pos;
          (pc.Open? ==> c.chunks == []) &&
          (!pc.Open? ==> c.file.Some? && pos <= |c.file.value| && Flat(c.chunks) == c.file.value[..pos]) &&
          (pc.Mark? || pc.Finish? ==> pos == |c.file.value|) &&
          (pc.Send? || pc.Clear? ==> c.chunks != [])
        case Failed => c.file == None && c.chunks == []
        case _ => c.chunks == [])
  }

  predicate ClientInv(c: Client, v: Option<View>, queued: bool) {
    SentInv(c, v.Some? && v.value.pc.Send?) && ReceivedInv(c) && StageInv(c, v, queued)
  }

  // The message buffer is all zero whenever a file is about to be read or a marker sent.
  predicate DataInv(s: State) {
    match s.server
    case Send(p) =>
      |s.data| == MSG_SIZE && p in s.clients && s.clients[p].chunks != [] &&
      s.data == Pad(s.clients[p].chunks[|s.clients[p].chunks| - 1])
    case Clear(_) => |s.data| == MSG_SIZE
    case _ => s.data == Zeros(MSG_SIZE)
  }

  predicate RequestsInv(s: State) {
    && |s.requests| <= MAX_MSG
    && (forall i :: 0 <= i < |s.requests| ==> s.requests[i] in s.clients && s.clients[s.requests[i]].stage == Queued)
    && (forall i, j :: 0 <= i < j < |s.requests| ==> s.requests[i] != s.requests[j])
    && (s.server != Receive ==> s.server.p in s.clients)
  }

  predicate Ok(s: State, p: Pid)
    requires p in s.clients
  {
    ClientInv(s.clients[p], ViewOf(s, p), p in s.requests)
  }

  ghost predicate Inv(s: State) {
    DataInv(s) && RequestsInv(s) && forall p :: p in s.clients ==> Ok(s, p)
  }

  // --- what one step does to the client it concerns ------------------------------------------

  lemma FlatAppend(chunks: seq<seq<byte>>, c: seq<byte>)
    ensures Flat(chunks + [c]) == Flat(chunks) + c
  {
    assert (chunks + [c])[..|chunks|] == chunks;
  }

  lemma {:induction false} CountedFrame(a: seq<Message>, b: seq<Message>, n: nat)
    requires n <= |a| && a <= b
    ensures Counted(a, n) == Counted(b, n)
  {
    if n > 0 {
      CountedFrame(a, b, n - 1);
    }
  }

  lemma PutKeepsReceived(c: Client, m: Message)
    requires ReceivedInv(c) && |c.queue| < MAX_MSG
    ensures ReceivedInv(Put(c, m))
  {
    var c' := Put(c, m);
    CountedFrame(c.sent, c'.sent, c.taken);
    if c.taken > 0 {
      CountedFrame(c.sent, c'.sent, c.taken - 1);
    }
    assert c'.queue == c'.sent[c.taken..];
    assert forall i :: 0 <= i < c.taken ==> c'.sent[i] == c.sent[i];
  }

  // The parts of the invariant look only at some of a client's fields.
  lemma ReceivedFrame(c: Client, c': Client)
    requires ReceivedInv(c)
    requires c'.sent == c.sent && c'.taken == c.taken && c'.queue == c.queue
    requires c'.pc == c.pc && c'.bytes == c.bytes && c'.msgs == c.msgs
    ensures ReceivedInv(c')
  {
  }

  lemma SentFrame(c: Client, c': Client, sending: bool)
    requires SentInv(c, sending) && c'.sent == c.sent && c'.chunks == c.chunks && c'.stage == c.stage
    ensures SentInv(c', sending)
  {
  }

  lemma StageFrame(c: Client, c': Client, v: Option<View>, queued: bool)
    requires StageInv(c, v, queued)
    requires c'.stage == c.stage && c'.file == c.file && c'.chunks == c.chunks && (c'.pc == Ask <==> c.pc == Ask)
    ensures StageInv(c', v, queued)
  {
  }

  lemma ReceiveKeeps(c: Client, p: Pid, pos: nat)
    requires ClientInv(c, None, true) && c.stage == Queued
    ensures ClientInv(c.(stage := Serving), Some(View(Open(p), pos)), false)
  {
  }

  lemma AskKeeps(c: Client, v: Option<View>, queued: bool)
    requires ClientInv(c, v, queued) && c.pc == Ask
    ensures ClientInv(c.(pc := Receiving, stage := Queued), v, true)
  {
  }

  lemma TakeKeeps(c: Client, v: Option<View>, queued: bool)
    requires ClientInv(c, v, queued) && c.pc == Receiving && c.queue != []
    ensures ClientInv(Taken(c), v, queued)
  {
    hide StageInv, SentInv, Pad;
    var c' := Taken(c);
    SentFrame(c, c', v.Some? && v.value.pc.Send?);
    assert c.queue[0] == c.sent[c.taken];
    assert c'.queue == c'.sent[c'.taken..];
    StageFrame(c, c', v, queued);
  }

  lemma PadOf(chunk: seq<byte>, data: Message)
    requires 1 <= |chunk| < MSG_SIZE && data == Zeros(MSG_SIZE)
    ensures chunk + data[|chunk|..] == Pad(chunk)
  {
  }

  lemma ReadView(c: Client, p: Pid, pos: nat, queued: bool)
    requires ClientInv(c, Some(View(Read(p), pos)), queued)
    ensures c.file.Some? && pos <= |c.file.value|
  {
  }

  lemma EndKeeps(c: Client, p: Pid, pos: nat, queued: bool)
    requires ClientInv(c, Some(View(Read(p), pos)), queued) && c.file.Some? && pos == |c.file.value|
    ensures ClientInv(c, Some(View(Mark(p), pos)), queued)
  {
  }

  lemma ReadKeepsSent(c: Client, chunk: seq<byte>)
    requires SentInv(c, false) && c.stage != Served && 1 <= |chunk| < MSG_SIZE
    ensures SentInv(c.(chunks := c.chunks + [chunk]), true)
  {
    hide Pad;
  }

  lemma ReadKeepsStage(c: Client, p: Pid, pos: nat, n: nat, queued: bool)
    requires StageInv(c, Some(View(Read(p), pos)), queued) && c.file.Some? && pos + n <= |c.file.value|
    ensures
      var chunk := c.file.value[pos..pos + n];
      StageInv(c.(chunks := c.chunks + [chunk]), Some(View(Send(p), pos + n)), queued)
  {
    var chunk := c.file.value[pos..pos + n];
    FlatAppend(c.chunks, chunk);
    assert c.file.value[..pos + n] == c.file.value[..pos] + chunk;
  }

  lemma ReadKeeps(c: Client, p: Pid, pos: nat, n: nat, queued: bool)
    requires ClientInv(c, Some(View(Read(p), pos)), queued) && c.file.Some? && pos + n <= |c.file.value| && 1 <= n < MSG_SIZE
    ensures
      var chunk := c.file.value[pos..pos + n];
      ClientInv(c.(chunks := c.chunks + [chunk]), Some(View(Send(p), pos + n)), queued)
  {
    hide SentInv, ReceivedInv;
    var chunk := c.file.value[pos..pos + n];
    ReadKeepsSent(c, chunk);
    ReceivedFrame(c, c.(chunks := c.chunks + [chunk]));
    ReadKeepsStage(c, p, pos, n, queued);
  }

  lemma SendKeepsSent(c: Client, m: Message)
    requires SentInv(c, true) && c.chunks != [] && m == Pad(c.chunks[|c.chunks| - 1])
    ensures SentInv(Put(c, m), false)
  {
    hide Pad;
  }

  lemma SendKeeps(c: Client, p: Pid, pos: nat, m: Message, queued: bool)
    requires ClientInv(c, Some(View(Send(p), pos)), queued) && |c.queue| < MAX_MSG
    requires c.chunks != [] && m == Pad(c.chunks[|c.chunks| - 1])
    ensures ClientInv(Put(c, m), Some(View(Clear(p), pos)), queued)
  {
    hide ReceivedInv, SentInv, Pad;
    SendKeepsSent(c, m);
    PutKeepsReceived(c, m);
  }

  lemma FinishKeeps(c: Client, p: Pid, pos: nat, queued: bool)
    requires ClientInv(c, Some(View(Finish(p), pos)), queued) && |c.queue| < MAX_MSG
    ensures ClientInv(Put(c, Zeros(MSG_SIZE)).(stage := Served), None, queued)
  {
    hide ReceivedInv;
    PutKeepsReceived(c, Zeros(MSG_SIZE));
    ReceivedFrame(Put(c, Zeros(MSG_SIZE)), Put(c, Zeros(MSG_SIZE)).(stage := Served));
    assert c.file.value[..pos] == c.file.value;
  }

  // --- the steps -------------------------------------------------------------------------------

  // Whoever is not p is where they were.
  lemma OthersOk(s: State, t: State, p: Pid)
    requires Inv(s) && DataInv(t) && RequestsInv(t)
    requires p in t.clients && Ok(t, p)
    requires forall q :: q in t.clients && q != p ==>
               q in s.clients && t.clients[q] == s.clients[q] && ViewOf(t, q) == ViewOf(s, q) && (q in s.requests <==> q in t.requests)
    ensures Inv(t)
  {
    hide ClientInv, Pad;
    forall q | q in t.clients
      ensures Ok(t, q)
    {
      assert q != p ==> Ok(s, q);
    }
  }

  function NewClient(file: Option<seq<byte>>): (c: Client)
    ensures ClientInv(c, None, false)
  {
    Client(file, Ask, [], 0, 0, NotAsked, [], [], 0)
  }

  lemma StartKeepsBooks(s: State, p: Pid, c: Client)
    requires DataInv(s) && RequestsInv(s) && p !in s.clients
    ensures DataInv(s.(clients := s.clients[p := c])) && RequestsInv(s.(clients := s.clients[p := c]))
  {
  }

  lemma StartKeepsInv(s: State, p: Pid, file: Option<seq<byte>>)
    requires Inv(s) && p !in s.clients
    ensures Inv(Step(s, Start(p, file)))
  {
    hide ClientInv, Pad;
    var t := Step(s, Start(p, file));
    var c := NewClient(file);
    assert t.clients[p] == c && p !in s.requests && ViewOf(t, p) == None;
    StartKeepsBooks(s, p, c);
    OthersOk(s, t, p);
  }

  lemma AskKeepsInv(s: State, p: Pid)
    requires Inv(s) && Enabled(s, ClientStep(p)) && s.clients[p].pc == Ask
    ensures Inv(AfterClient(s, p))
  {
    hide ClientInv, Pad;
    var t := AfterClient(s, p);
    assert Ok(s, p);
    StageIs(s.clients[p], ViewOf(s, p), p in s.requests);
    AskKeeps(s.clients[p], ViewOf(s, p), p in s.requests);
    AskKeepsRequests(s, p);
    OthersOk(s, t, p);
  }

  lemma AskKeepsRequests(s: State, p: Pid)
    requires RequestsInv(s) && p in s.clients && s.clients[p].pc == Ask && s.clients[p].stage == NotAsked && |s.requests| < MAX_MSG
    ensures
      var t := AfterClient(s, p);
      RequestsInv(t) && p in t.requests && p !in s.requests && forall q :: q != p ==> (q in t.requests <==> q in s.requests)
  {
    var t := AfterClient(s, p);
    assert t.requests[|s.requests|] == p;
  }

  lemma TakeKeepsInv(s: State, p: Pid)
    requires Inv(s) && Enabled(s, ClientStep(p)) && s.clients[p].pc == Receiving
    ensures Inv(AfterClient(s, p))
  {
    hide ClientInv, Pad;
    var t := AfterClient(s, p);
    assert Ok(s, p);
    TakeKeeps(s.clients[p], ViewOf(s, p), p in s.requests);
    TakeKeepsBooks(s, p);
    OthersOk(s, t, p);
  }

  lemma TakeKeepsBooks(s: State, p: Pid)
    requires DataInv(s) && RequestsInv(s) && p in s.clients && s.clients[p].pc == Receiving && s.clients[p].queue != []
    ensures DataInv(AfterClient(s, p)) && RequestsInv(AfterClient(s, p))
  {
  }

  lemma ReceiveKeepsInv(s: State, k: nat)
    requires Inv(s) && s.server == Receive && s.requests != []
    ensures Inv(AfterServer(s, k))
  {
    hide ClientInv, Pad;
    var t := AfterServer(s, k);
    var p := s.requests[0];
    assert Ok(s, p);
    ReceiveKeeps(s.clients[p], p, s.pos);
    assert s.requests == [p] + t.requests;
    assert forall i :: 0 <= i < |t.requests| ==> t.requests[i] == s.requests[i + 1];
    OthersOk(s, t, p);
  }

  // What a step for the client being served has to start from.
  ghost predicate ServingInv(s: State, k: nat) {
    DataInv(s) && s.server != Receive && s.server.p in s.clients && Ok(s, s.server.p) && Enabled(s, ServerStep(k))
  }

  // After a read that returned chunk for p.
  function ReadTo(s: State, p: Pid, chunk: seq<byte>): State
    requires p in s.clients && |chunk| <= |s.data|
  {
    var c := s.clients[p];
    s.(server := Send(p), pos := s.pos + |chunk|, data := chunk + s.data[|chunk|..],
       clients := s.clients[p := c.(chunks := c.chunks + [chunk])])
  }

  lemma ReadIs(s: State, k: nat)
    requires s.server.Read? && s.server.p in s.clients && s.clients[s.server.p].file.Some?
    requires s.pos <= |s.clients[s.server.p].file.value| && |s.data| == MSG_SIZE
    ensures
      var file := s.clients[s.server.p].file.value;
      var n := ReadSize(|file| - s.pos, MSG_SIZE - 1, k);
      AfterServer(s, k) ==
        if n == 0 then s.(server := Mark(s.server.p)) else ReadTo(s, s.server.p, file[s.pos..s.pos + n])
  {
  }

  lemma ReadFillsData(s: State, p: Pid, chunk: seq<byte>)
    requires p in s.clients && 1 <= |chunk| < MSG_SIZE && s.data == Zeros(MSG_SIZE)
    ensures DataInv(ReadTo(s, p, chunk))
  {
    PadOf(chunk, s.data);
  }

  lemma ReadKeepsOwn(s: State, k: nat)
    requires ServingInv(s, k) && s.server.Read?
    ensures DataInv(AfterServer(s, k)) && Ok(AfterServer(s, k), s.server.p)
  {
    hide ClientInv, Pad;
    var p := s.server.p;
    var c := s.clients[p];
    ReadView(c, p, s.pos, p in s.requests);
    ReadIs(s, k);
    var n := ReadSize(|c.file.value| - s.pos, MSG_SIZE - 1, k);
    if n == 0 {
      EndKeeps(c, p, s.pos, p in s.requests);
    } else {
      ReadKeeps(c, p, s.pos, n, p in s.requests);
      ReadFillsData(s, p, c.file.value[s.pos..s.pos + n]);
      assert ViewOf(ReadTo(s, p, c.file.value[s.pos..s.pos + n]), p) == Some(View(Send(p), s.pos + n));
    }
  }

  lemma SendKeepsOwn(s: State, k: nat)
    requires ServingInv(s, k) && s.server.Send?
    ensures DataInv(AfterServer(s, k)) && Ok(AfterServer(s, k), s.server.p)
  {
    hide ClientInv, Pad;
    SendKeeps(s.clients[s.server.p], s.server.p, s.pos, s.data, s.server.p in s.requests);
  }

  lemma FinishKeepsOwn(s: State, k: nat)
    requires ServingInv(s, k) && s.server.Finish?
    ensures DataInv(AfterServer(s, k)) && Ok(AfterServer(s, k), s.server.p)
  {
    hide ClientInv, Pad;
    FinishKeeps(s.clients[s.server.p], s.server.p, s.pos, s.server.p in s.requests);
  }

  lemma OtherKeepsOwn(s: State, k: nat)
    requires ServingInv(s, k) && (s.server.Open? || s.server.Clear? || s.server.Mark?)
    ensures DataInv(AfterServer(s, k)) && Ok(AfterServer(s, k), s.server.p)
  {
    var c := s.clients[s.server.p];
    assert s.server.Open? && c.file.Some? ==> c.file.value[..0] == [];
    assert s.server.Mark? ==> s.data[0 := 0] == s.data;
  }

  lemma ServingKeepsRequests(s: State, k: nat)
    requires RequestsInv(s) && s.server != Receive && s.clients[s.server.p].stage == Serving && Enabled(s, ServerStep(k))
    ensures RequestsInv(AfterServer(s, k)) && s.server.p !in s.requests
  {
  }

  lemma StageIs(c: Client, v: Option<View>, queued: bool)
    requires ClientInv(c, v, queued)
    ensures c.stage == Serving <==> v.Some?
    ensures c.stage == NotAsked <==> c.pc == Ask
    ensures c.stage == Queued ==> queued
  {
  }

  lemma ServingKeepsInv(s: State, k: nat)
    requires Inv(s) && Enabled(s, ServerStep(k)) && s.server != Receive
    ensures Inv(AfterServer(s, k))
  {
    hide ClientInv, Pad;
    assert Ok(s, s.server.p);
    StageIs(s.clients[s.server.p], ViewOf(s, s.server.p), s.server.p in s.requests);
    ServingKeepsRequests(s, k);
    if s.server.Read? {
      ReadKeepsOwn(s, k);
    } else if s.server.Send? {
      SendKeepsOwn(s, k);
    } else if s.server.Finish? {
      FinishKeepsOwn(s, k);
    } else {
      OtherKeepsOwn(s, k);
    }
    OthersOk(s, AfterServer(s, k), s.server.p);
  }

  lemma StepKeepsInv(s: State, a: Action)
    requires Inv(s)
    ensures Inv(Step(s, a))
  {
    if Enabled(s, a) {
      match a
      case Start(p, file) => StartKeepsInv(s, p, file);
      case ClientStep(p) => if s.clients[p].pc == Ask { AskKeepsInv(s, p); } else { TakeKeepsInv(s, p); }
      case ServerStep(k) => if s.server == Receive { ReceiveKeepsInv(s, k); } else { ServingKeepsInv(s, k); }
    }
  }

  lemma {:induction false} RunKeepsInv(s: State, acts: seq<Action>)
    requires Inv(s)
    ensures Inv(Run(s, acts))
    decreases |acts|
  {
    if acts != [] {
      StepKeepsInv(s, acts[0]);
      RunKeepsInv(Step(s, acts[0]), acts[1..]);
    }
  }
}
