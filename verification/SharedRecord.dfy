// The same protocol in the form the programs have it: semaphores and one record
// changed in place by the client's lookup (lookup6.c) and the server's loop (shm_server.c).
module SharedRecord {
  import opened Rendezvous

  // struct sembuf without its flags: which semaphore, and by how much.
  datatype Sembuf = Sembuf(num: nat, op: int)

  const GRAB := Sembuf(0, -1)
  const RELEASE := Sembuf(0, 1)
  const ALERT := Sembuf(1, 2)
  const AWAIT := Sembuf(1, 0)
  const WAIT := Sembuf(1, -1)

  // What a client process keeps of its call; the rest of Client is history.
  datatype Caller = Caller(pc: ClientPc, word: string, outcome: Outcome)

  function CallerOf(r: Client): Caller {
    Caller(r.pc, r.word, r.outcome)
  }

  function CallersOf(clients: map<nat, Client>): map<nat, Caller> {
    map c | c in clients :: CallerOf(clients[c])
  }

  lemma CallerChanges(clients: map<nat, Client>, c: nat, r: Client)
    ensures CallersOf(clients[c := r]) == CallersOf(clients)[c := CallerOf(r)]
  {
  }

  class Machine {
    const order: Order
    const db: map<string, string>
    var sem: array<int>
    var word: string
    var text: string
    var server: ServerPc
    var callers: map<nat, Caller>
    ghost var clients: map<nat, Client>
    ghost var answers: seq<string>
    ghost var log: seq<Entry>

    ghost predicate Valid()
      reads this
    {
      sem.Length == 2 && callers == CallersOf(clients)
    }

    ghost function View(): State
      reads this, sem
      requires Valid()
    {
      State(order, db, sem[0], sem[1], word, text, server, clients, answers, log)
    }

    constructor (order: Order, db: map<string, string>, word: string, text: string)
      ensures Valid() && fresh(sem) && View() == Init(order, db, word, text)
    {
      this.order, this.db := order, db;
      this.sem := new int[2];
      this.word, this.text := word, text;
      this.server, this.callers, this.clients, this.answers, this.log := Wait, map[], map[], [], [];
      new;
      this.sem[0], this.sem[1] := 1, 0;
    }

    // semop with one operation: a zero waits for zero, a negative waits until it can
    // be taken off, a positive never waits.  A blocked operation changes nothing.
    method Semop(b: Sembuf) returns (done: bool)
      requires Valid() && b.num < 2
      modifies sem
      ensures done == if b.op == 0 then old(sem[b.num]) == 0 else b.op > 0 || old(sem[b.num]) + b.op >= 0
      ensures sem[..] == if done then old(sem[..])[b.num := old(sem[b.num]) + b.op] else old(sem[..])
    {
      if b.op == 0 {
        done := sem[b.num] == 0;
      } else if b.op > 0 || sem[b.num] + b.op >= 0 {
        sem[b.num] := sem[b.num] + b.op;
        done := true;
      } else {
        done := false;
      }
    }

    method Lookup(c: nat, w: string)
      requires Valid()
      modifies this
      ensures Valid() && sem == old(sem) && View() == Step(old(View()), Call(c, w))
    {
      if c !in callers || callers[c].pc == Returned {
        SetCaller(c, Caller(Grab, w, Unset), NewClient(w, if c in clients then clients[c].calls + 1 else 1));
      }
    }

    // One operation of the body of lookup, lookup6.c:36-58.
    method RunClient(c: nat)
      requires Valid()
      modifies this, sem
      ensures Valid() && sem == old(sem) && View() == Step(old(View()), ClientStep(c))
    {
      if c !in callers {
        return;
      }
      assert CallerOf(clients[c]) == callers[c];
      hide CallersOf;
      var r := callers[c];
      ghost var past := clients[c];
      var next := r.pc;
      match r.pc {
        case Grab =>
          var done := Semop(GRAB);
          if done { next := Write; }
        case Write =>
          word := r.word;
          next := Alert;
        case Alert =>
          var _ := Semop(ALERT);
          next := Await;
          past := past.(alertedAt := |answers|);
        case Await =>
          var done := Semop(AWAIT);
          if done {
            next := if order == ReleaseThenRead then Release else Compare;
            past := past.(answeredAt := |answers|, loggedAt := |log|);
            log := log + [Entry(c, r.word, text)];
          }
        case Release =>
          var _ := Semop(RELEASE);
          next := if order == ReleaseThenRead then Compare else Returned;
        case Compare =>
          past := past.(comparedAt := |answers|, copiedAt := |answers|);
          if text != NOT_FOUND_TEXT {
            next := Copy;
          } else {
            r := r.(outcome := NotFound);
            next := PcWithOutcome(order);
          }
        case Copy =>
          past := past.(copiedAt := |answers|);
          r := r.(outcome := Found(text));
          next := PcWithOutcome(order);
        case Returned =>
      }
      SetCaller(c, r.(pc := next), past.(pc := next, outcome := r.outcome));
    }

    method SetCaller(c: nat, r: Caller, ghost past: Client)
      requires Valid() && CallerOf(past) == r
      modifies this`callers, this`clients
      ensures Valid() && clients == old(clients)[c := past]
    {
      CallerChanges(clients, c, past);
      callers := callers[c := r];
      clients := clients[c := past];
    }

    // One operation of the server's loop, shm_server.c:61-80.
    method RunServer()
      requires Valid()
      modifies this, sem
      ensures Valid() && sem == old(sem) && View() == Step(old(View()), ServerStep)
    {
      match server {
        case Wait =>
          var done := Semop(WAIT);
          if done { server := Search; }
        case Search =>
          if word in db {
            text := db[word];
            answers := answers + [text];
            server := Notify;
          } else {
            server := Mark;
          }
        case Mark =>
          text := NOT_FOUND_TEXT;
          answers := answers + [text];
          server := Notify;
        case Notify =>
          var done := Semop(WAIT);
          if done { server := Wait; }
      }
    }

    // A whole schedule.
    method RunSchedule(acts: seq<Action>)
      requires Valid()
      modifies this, sem
      ensures Valid() && sem == old(sem) && View() == Run(old(View()), acts)
    {
      var i := 0;
      while i < |acts|
        invariant 0 <= i <= |acts| && Valid() && sem == old(sem)
        invariant Run(View(), acts[i..]) == Run(old(View()), acts)
      {
        assert acts[i..][0] == acts[i] && acts[i..][1..] == acts[i + 1..];
        match acts[i] {
          case Call(c, w) => Lookup(c, w);
          case ClientStep(c) => RunClient(c);
          case ServerStep => RunServer();
        }
        i := i + 1;
      }
    }
  }
}
