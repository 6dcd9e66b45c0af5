// The file server and its clients in the form the programs have them: one message buffer
// that is filled, sent and cleared in place, and a client that counts what it receives.
module FileServer {
  import opened Common
  import opened FileTransfer

  // What the server's loop relies on: it knows the clients it works for, and a file it
  // reads is open.
  predicate Ready(s: State) {
    && |s.data| == MSG_SIZE
    && (forall i :: 0 <= i < |s.requests| ==> s.requests[i] in s.clients)
    && (s.server != Receive ==> s.server.p in s.clients)
    && (s.server.Read? ==> s.clients[s.server.p].file.Some? && s.pos <= |s.clients[s.server.p].file.value|)
  }

  lemma InvIsReady(s: State)
    requires Inv(s) && |s.data| == MSG_SIZE
    ensures Ready(s)
  {
    if s.server.Read? {
      assert Ok(s, s.server.p);
      ReadView(s.clients[s.server.p], s.server.p, s.pos, s.server.p in s.requests);
    }
  }

  // What a client process keeps, its queue, and the file behind its path; the rest of
  // Client is history.
  datatype Receiver = Receiver(file: Option<seq<byte>>, pc: ClientPc, queue: seq<Message>, bytes: nat, msgs: nat)

  function ReceiverOf(c: Client): Receiver {
    Receiver(c.file, c.pc, c.queue, c.bytes, c.msgs)
  }

  function ReceiversOf(clients: map<Pid, Client>): map<Pid, Receiver> {
    map p | p in clients :: ReceiverOf(clients[p])
  }

  lemma ReceiverChanges(clients: map<Pid, Client>, p: Pid, c: Client)
    ensures ReceiversOf(clients[p := c]) == ReceiversOf(clients)[p := ReceiverOf(c)]
    ensures ReceiversOf(clients).Keys == clients.Keys
    ensures p in clients ==> ReceiversOf(clients)[p] == ReceiverOf(clients[p])
  {
  }

  class Service {
    const data: array<byte>
    var requests: seq<Pid>
    var server: ServerPc
    var pos: nat
    var receivers: map<Pid, Receiver>
    ghost var clients: map<Pid, Client>

    // The receivers are the clients without their history.
    ghost predicate Together()
      reads this
    {
      data.Length == MSG_SIZE && receivers == ReceiversOf(clients)
    }

    ghost predicate Valid()
      reads this, data
    {
      Together() && Inv(View())
    }

    ghost function View(): State
      reads this, data
    {
      State(requests, server, data[..], pos, clients)
    }

    constructor ()
      ensures fresh(data) && Valid() && View() == Init()
    {
      data := new byte[MSG_SIZE](_ => 0);
      requests, server, pos, receivers, clients := [], Receive, 0, map[], map[];
      new;
      assert data[..] == Zeros(MSG_SIZE);
    }

    // strlen over a received message
    method Length(m: Message) returns (n: nat)
      ensures n == Strlen(m)
    {
      n := 0;
      while n < |m| && m[n] != 0
        invariant n <= |m| && n <= Strlen(m)
      {
        n := n + 1;
      }
    }

    method StartClient(p: Pid, file: Option<seq<byte>>)
      requires Together()
      modifies this`receivers, this`clients
      ensures Together() && View() == Step(old(View()), Start(p, file))
    {
      if p !in receivers {
        SetReceiver(p, Receiver(file, Ask, [], 0, 0), Client(file, Ask, [], 0, 0, NotAsked, [], [], 0));
      }
    }

    method SetReceiver(p: Pid, r: Receiver, ghost c: Client)
      requires Together() && ReceiverOf(c) == r
      modifies this`receivers, this`clients
      ensures Together() && clients == old(clients)[p := c]
    {
      ReceiverChanges(clients, p, c);
      receivers := receivers[p := r];
      clients := clients[p := c];
    }

    // Only what is remembered of p changes.
    ghost method Remember(p: Pid, c: Client)
      requires Together() && p in clients && ReceiverOf(c) == ReceiverOf(clients[p])
      modifies this`clients
      ensures Together() && clients == old(clients)[p := c]
    {
      clients := clients[p := c];
    }

    // client.c:63-80
    method RunClient(p: Pid)
      requires Together()
      modifies this`requests, this`receivers, this`clients
      ensures Together() && View() == Step(old(View()), ClientStep(p))
    {
      if p !in receivers {
        return;
      }
      var r := receivers[p];
      ghost var c := clients[p];
      match r.pc {
        case Ask =>
          if |requests| < MAX_MSG {
            requests := requests + [p];
            SetReceiver(p, r.(pc := Receiving), c.(pc := Receiving, stage := Queued));
          }
        case Receiving =>
          if r.queue != [] {
            var m := r.queue[0];
            r := r.(queue := r.queue[1..]);
            if m == [] || m[0] == 0 {
              r := r.(pc := Done);
            } else {
              var n := Length(m);
              r := r.(bytes := r.bytes + n, msgs := r.msgs + 1);
            }
            SetReceiver(p, r, c.(pc := r.pc, queue := r.queue, bytes := r.bytes, msgs := r.msgs, taken := c.taken + 1));
          }
        case Done =>
      }
    }

    method Fill(chunk: seq<byte>)
      requires |chunk| <= data.Length
      modifies data
      ensures data[..] == chunk + old(data[..])[|chunk|..]
    {
      var i := 0;
      while i < |chunk|
        invariant 0 <= i <= |chunk|
        invariant forall j :: 0 <= j < data.Length ==> data[j] == if j < i then chunk[j] else old(data[..])[j]
      {
        data[i] := chunk[i];
        i := i + 1;
      }
    }

    // memset(&server_res, 0, sizeof(struct response_msg))
    method Wipe()
      requires data.Length == MSG_SIZE
      modifies data
      ensures data[..] == Zeros(MSG_SIZE)
    {
      var i := 0;
      while i < data.Length
        invariant 0 <= i <= data.Length
        invariant forall j :: 0 <= j < i ==> data[j] == 0
      {
        data[i] := 0;
        i := i + 1;
      }
    }

    // mq_send of the message buffer to p's queue.
    method SendData(p: Pid) returns (done: bool)
      requires Together() && p in clients
      modifies this`receivers, this`clients
      ensures Together()
      ensures done == (|old(clients)[p].queue| < MAX_MSG)
      ensures clients == if done then old(clients)[p := Put(old(clients)[p], data[..])] else old(clients)
    {
      var r := receivers[p];
      done := |r.queue| < MAX_MSG;
      if done {
        SetReceiver(p, r.(queue := r.queue + [data[..]]), Put(clients[p], data[..]));
      }
    }

    // What a read that returned a chunk leaves.
    method TakeChunk(p: Pid, chunk: seq<byte>)
      requires Together() && p in clients && |chunk| <= MSG_SIZE
      modifies this, data
      ensures Together() && View() == ReadTo(old(View()), p, chunk)
    {
      hide ReceiversOf;
      Remember(p, clients[p].(chunks := clients[p].chunks + [chunk]));
      Fill(chunk);
      pos, server := pos + |chunk|, Send(p);
    }

    // server.c:72, one read.
    method ReadFile(p: Pid, k: nat)
      requires Together() && Ready(View()) && server == Read(p)
      modifies this, data
      ensures Together() && View() == Step(old(View()), ServerStep(k))
    {
      hide ReceiversOf, AfterServer, ReadTo;
      ReceiverChanges(clients, p, clients[p]);
      ReadIs(View(), k);
      hide Ready;
      var file := receivers[p].file.value;
      var n := ReadSize(|file| - pos, MSG_SIZE - 1, k);
      if n == 0 {
        server := Mark(p);
      } else {
        TakeChunk(p, file[pos..pos + n]);
      }
    }

    // server.c:46-98
    method RunServer(k: nat)
      requires Together() && Ready(View())
      modifies this, data
      ensures Together() && View() == Step(old(View()), ServerStep(k))
    {
      match server {
        case Receive =>
          if requests != [] {
            var p := requests[0];
            server, requests := Open(p), requests[1..];
            Remember(p, clients[p].(stage := Serving));
          }
        case Open(p) =>
          if receivers[p].file == None {
            Remember(p, clients[p].(stage := Failed));
            server := Receive;
          } else {
            server, pos := Read(p), 0;
          }
        case Read(p) =>
          ReadFile(p, k);
        case Send(p) =>
          var done := SendData(p);
          if done {
            server := Clear(p);
          }
        case Clear(p) =>
          Wipe();
          server := Read(p);
        case Mark(p) =>
          data[0] := 0;
          assert data[..] == old(data[..])[0 := 0];
          server := Finish(p);
        case Finish(p) =>
          var done := SendData(p);
          if done {
            Remember(p, clients[p].(stage := Served));
            server := Receive;
          }
      }
    }

    // A whole schedule.
    method RunSchedule(acts: seq<Action>)
      requires Valid()
      modifies this, data
      ensures Valid() && View() == Run(old(View()), acts)
    {
      var i := 0;
      while i < |acts|
        invariant 0 <= i <= |acts| && Valid()
        invariant Run(View(), acts[i..]) == Run(old(View()), acts)
      {
        assert acts[i..][0] == acts[i] && acts[i..][1..] == acts[i + 1..];
        StepKeepsInv(View(), acts[i]);
        InvIsReady(View());
        match acts[i] {
          case Start(p, file) => StartClient(p, file);
          case ClientStep(p) => RunClient(p);
          case ServerStep(k) => RunServer(k);
        }
        i := i + 1;
      }
    }
  }
}
