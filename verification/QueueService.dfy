// The message queue service in the form the programs have it: msgsnd and msgrcv on one
// queue, and the loops of SP_HW8/46_2 around them.
module QueueService {
  import opened Ranges
  import opened SeqQueue

  datatype Request = Request(mtype: int, pid: int, seqLen: int)
  datatype Response = Response(mtype: int, seqNum: int)

  // What a client process keeps of its call; the rest of Client is history.
  datatype Caller = Caller(pc: ClientPc, len: int)

  function CallerOf(c: Client): Caller {
    Caller(c.pc, c.len)
  }

  class Service {
    const cap: nat
    const pids: set<Pid>
    var queue: seq<Msg>
    var server: ServerPc
    var seqNum: int
    var callers: map<Pid, Caller>
    ghost var clients: map<Pid, Client>
    ghost var grants: seq<Grant>

    ghost predicate Valid()
      reads this
    {
      callers == map p | p in clients :: CallerOf(clients[p])
    }

    ghost function View(): State
      reads this
    {
      State(cap, pids, queue, server, seqNum, clients, grants)
    }

    constructor (cap: nat, pids: set<Pid>)
      ensures Valid() && View() == Init(cap, pids)
    {
      this.cap, this.pids := cap, pids;
      queue, server, seqNum, callers, clients, grants := [], Receive, 0, map[], map[], [];
    }

    // msgsnd: waits for room.
    method Msgsnd(m: Msg) returns (done: bool)
      modifies this`queue
      ensures done == (|old(queue)| < cap)
      ensures queue == if done then old(queue) + [m] else old(queue)
    {
      done := |queue| < cap;
      if done {
        queue := queue + [m];
      }
    }

    // msgrcv with a positive type: waits for a message of that type, takes the first.
    method Msgrcv(mtype: int) returns (done: bool, m: Msg)
      modifies this`queue
      ensures done == (FirstOf(old(queue), mtype) < |old(queue)|)
      ensures done ==> m == old(queue)[FirstOf(old(queue), mtype)] && queue == Without(old(queue), FirstOf(old(queue), mtype))
      ensures !done ==> queue == old(queue)
    {
      var i := 0;
      while i < |queue| && queue[i].mtype != mtype
        invariant 0 <= i <= |queue|
        invariant forall k :: 0 <= k < i ==> queue[k].mtype != mtype
      {
        i := i + 1;
      }
      done := i < |queue|;
      m := Msg(0, 0, 0, false);
      if done {
        m := queue[i];
        queue := queue[..i] + queue[i + 1..];
      }
    }

    method StartClient(p: Pid, len: int)
      requires Valid()
      modifies this`callers, this`clients
      ensures Valid() && View() == Step(old(View()), Start(p, len))
    {
      if p in pids && (p in callers ==> callers[p].pc.Printed?) {
        callers := callers[p := Caller(Ask, len)];
        clients := clients[p := Client(Ask, len, |grants|)];
      }
    }

    // client.c:23-37
    method RunClient(p: Pid)
      requires Valid()
      modifies this`queue, this`callers, this`clients
      ensures Valid() && View() == Step(old(View()), ClientStep(p))
    {
      if p !in callers {
        return;
      }
      var c := callers[p];
      match c.pc {
        case Ask =>
          var req := Request(REQUEST_TYPE, p, c.len);
          var done := Msgsnd(Msg(req.mtype, req.pid, req.seqLen, false));
          if done {
            SetPc(p, Await);
          }
        case Await =>
          var done, m := Msgrcv(p);
          if done {
            SetPc(p, Printed(m.first));
          }
        case Printed(_) =>
      }
    }

    method SetPc(p: Pid, pc: ClientPc)
      requires Valid() && p in clients
      modifies this`callers, this`clients
      ensures Valid() && clients == old(clients)[p := old(clients[p]).(pc := pc)]
    {
      callers := callers[p := callers[p].(pc := pc)];
      clients := clients[p := clients[p].(pc := pc)];
    }

    // server.c:25-39
    method RunServer()
      requires Valid()
      modifies this`queue, this`server, this`seqNum, this`grants
      ensures Valid() && View() == Step(old(View()), ServerStep)
    {
      match server {
        case Receive =>
          var done, m := Msgrcv(REQUEST_TYPE);
          if done {
            var req := Request(m.mtype, m.first, m.second);
            var resp := Response(req.pid, seqNum);
            grants := grants + [Grant(req.pid, seqNum, req.seqLen)];
            seqNum := seqNum + req.seqLen;
            server := Reply(resp.mtype, resp.seqNum);
          }
        case Reply(to, num) =>
          if to <= 0 {
            server := Receive;
          } else {
            var done := Msgsnd(Msg(to, num, 0, true));
            if done {
              server := Receive;
            }
          }
      }
    }

    // A whole schedule.
    method RunSchedule(acts: seq<Action>)
      requires Valid()
      modifies this
      ensures Valid() && View() == Run(old(View()), acts)
    {
      var k := 0;
      while k < |acts|
        invariant 0 <= k <= |acts| && Valid()
        invariant Run(View(), acts[k..]) == Run(old(View()), acts)
      {
        assert acts[k..][0] == acts[k] && acts[k..][1..] == acts[k + 1..];
        match acts[k] {
          case Start(p, len) => StartClient(p, len);
          case ClientStep(p) => RunClient(p);
          case ServerStep => RunServer();
        }
        k := k + 1;
      }
    }
  }
}
