// The FIFO service in the form the programs have it: the server's endless loop with its
// early continue, and the two kinds of client.
module FifoServer {
  import opened Common
  import opened Ranges
  import opened FifoService

  // What a client process keeps, and the one number in its FIFO; the rest of Client is
  // history.
  datatype Caller = Caller(good: bool, len: int, pc: ClientPc, inbox: Option<int>)

  function CallerOf(c: Client): Caller {
    Caller(c.good, c.len, c.pc, c.inbox)
  }

  class Server {
    var pipe: seq<Request>
    var pc: ServerPc
    var seqNum: int
    var callers: map<Pid, Caller>
    ghost var clients: map<Pid, Client>
    ghost var grants: seq<Grant>

    ghost predicate Valid()
      reads this
    {
      callers == map p | p in clients :: CallerOf(clients[p])
    }

    ghost function View(): State
      reads this
    {
      State(pipe, pc, seqNum, clients, grants)
    }

    constructor ()
      ensures Valid() && View() == Init()
    {
      pipe, pc, seqNum, callers, clients, grants := [], Read, 0, map[], map[], [];
    }

    method StartClient(p: Pid, good: bool, len: int)
      requires Valid()
      modifies this`callers, this`clients
      ensures Valid() && View() == Step(old(View()), Start(p, good, len))
    {
      if p !in callers {
        callers := callers[p := Caller(good, len, Send, None)];
        clients := clients[p := Client(good, len, Send, None, Undecided)];
      }
    }

    // fifo_seqnum_client.c:47-68, fifo_seqnum_bad_client.c:35-57
    method RunClient(p: Pid)
      requires Valid()
      modifies this`pipe, this`callers, this`clients
      ensures Valid() && View() == Step(old(View()), ClientStep(p))
    {
      if p !in callers {
        return;
      }
      var c := callers[p];
      match c.pc {
        case Send =>
          pipe := pipe + [Request(p, c.len)];
          SetPc(p, if c.good then Sent else Gone, c.inbox);
        case Sent =>
          SetPc(p, Opening, c.inbox);
        case Opening =>
          if c.inbox.Some? {
            SetPc(p, Printed(c.inbox.value), None);
          }
        case Printed(_) =>
        case Gone =>
      }
    }

    method SetPc(p: Pid, pc: ClientPc, inbox: Option<int>)
      requires Valid() && p in clients
      modifies this`callers, this`clients
      ensures Valid() && clients == old(clients)[p := old(clients[p]).(pc := pc, inbox := inbox)]
    {
      callers := callers[p := callers[p].(pc := pc, inbox := inbox)];
      clients := clients[p := clients[p].(pc := pc, inbox := inbox)];
    }

    // open with O_WRONLY | O_NONBLOCK: fails when nobody has the FIFO open for reading.
    method OpenForWriting(p: Pid) returns (ok: bool)
      requires Valid()
      ensures ok == HasReader(View(), p)
    {
      ok := p in callers && callers[p].pc == Opening;
    }

    // What the client's FIFO holds from now on, and for history what became of the client.
    method Deliver(p: Pid, inbox: Option<int>, ghost fate: Fate)
      requires Valid()
      modifies this`callers, this`clients
      ensures Valid() && clients == old(SetFate(View(), p, fate, inbox))
    {
      if p in callers {
        callers := callers[p := callers[p].(inbox := inbox)];
        clients := clients[p := clients[p].(fate := fate, inbox := inbox)];
      }
    }

    // fifo_seqnum_server.c:43-70
    method RunServer()
      requires Valid()
      modifies this
      ensures Valid() && View() == Step(old(View()), ServerStep)
    {
      match pc {
        case Read =>
          if pipe != [] {
            pc, pipe := TryOpen(pipe[0]), pipe[1..];
          }
        case TryOpen(req) =>
          var ok := OpenForWriting(req.pid);
          if ok {
            pc := Write(req);
          } else {
            Deliver(req.pid, None, Dropped);
            pc := Read;
          }
        case Write(req) =>
          Deliver(req.pid, Some(seqNum), Granted(seqNum));
          grants := grants + [Grant(req.pid, seqNum, req.len)];
          pc := Advance(req);
        case Advance(req) =>
          seqNum := seqNum + req.len;
          pc := Read;
      }
    }

    // A whole schedule.
    method RunSchedule(acts: seq<Action>)
      requires Valid()
      modifies this
      ensures Valid() && View() == Run(old(View()), acts)
    {
      var k := 0;
      while k < |acts|
        invariant 0 <= k <= |acts| && Valid()
        invariant Run(View(), acts[k..]) == Run(old(View()), acts)
      {
        assert acts[k..][0] == acts[k] && acts[k..][1..] == acts[k + 1..];
        match acts[k] {
          case Start(p, good, len) => StartClient(p, good, len);
          case ClientStep(p) => RunClient(p);
          case ServerStep => RunServer();
        }
        k := k + 1;
      }
    }
  }
}
