// The order in the shared queue: messages of one type come out as they went in, and the
// requests are granted as they were asked.
module SeqQueueOrder {
  import opened Ranges
  import opened SeqQueue
  import opened SeqQueueResults

  // --- one queue, many types ----------------------------------------------------------

  function OfType(q: seq<Msg>, t: int): seq<Msg> {
    if q == [] then [] else (if q[0].mtype == t then [q[0]] else []) + OfType(q[1..], t)
  }

  lemma {:induction false} OfTypeConcat(a: seq<Msg>, b: seq<Msg>, t: int)
    ensures OfType(a + b, t) == OfType(a, t) + OfType(b, t)
  {
    if a == [] {
      assert a + b == b;
    } else {
      assert (a + b)[1..] == a[1..] + b;
      OfTypeConcat(a[1..], b, t);
    }
  }

  lemma OfTypeOne(m: Msg, t: int)
    ensures OfType([m], t) == if m.mtype == t then [m] else []
  {
    assert [m][1..] == [];
  }

  // Taking the first message of its type takes the first of them, and none of the others.
  lemma FirstIsTaken(q: seq<Msg>, u: int, t: int)
    requires FirstOf(q, u) < |q|
    ensures
      var i := FirstOf(q, u);
      OfType(q, t) == (if t == u then [q[i]] else []) + OfType(Without(q, i), t)
  {
    var i := FirstOf(q, u);
    assert q == q[..i] + ([q[i]] + q[i + 1..]);
    OfTypeConcat(q[..i], [q[i]] + q[i + 1..], t);
    OfTypeConcat([q[i]], q[i + 1..], t);
    OfTypeConcat(q[..i], q[i + 1..], t);
    OfTypeOne(q[i], t);
    if t == u {
      NoneInFront(q[..i], t);
    }
  }

  lemma {:induction false} NoneInFront(q: seq<Msg>, t: int)
    requires forall k :: 0 <= k < |q| ==> q[k].mtype != t
    ensures OfType(q, t) == []
  {
    if q != [] {
      NoneInFront(q[1..], t);
    }
  }

  // What a step puts into the queue: a client's request, or the server's reply.
  function Puts(s: State, a: Action): seq<Msg> {
    if !Enabled(s, a) then []
    else match a
      case Start(_, _) => []
      case ClientStep(p) => if s.clients[p].pc == Ask then [Msg(REQUEST_TYPE, p, s.clients[p].len, false)] else []
      case ServerStep =>
        if s.server.Reply? && s.server.pid > 0 then [Msg(s.server.pid, s.server.num, 0, true)] else []
  }

  // What it takes: the message whose number the client prints, or that the server answers.
  function Takes(s: State, a: Action): seq<Msg> {
    if !Enabled(s, a) then []
    else match a
      case Start(_, _) => []
      case ClientStep(p) => if s.clients[p].pc == Await then [s.queue[FirstOf(s.queue, p)]] else []
      case ServerStep => if s.server == Receive then [s.queue[FirstOf(s.queue, REQUEST_TYPE)]] else []
  }

  function Put(s: State, acts: seq<Action>): seq<Msg>
    decreases |acts|
  {
    if acts == [] then [] else Puts(s, acts[0]) + Put(Step(s, acts[0]), acts[1..])
  }

  function Taken(s: State, acts: seq<Action>): seq<Msg>
    decreases |acts|
  {
    if acts == [] then [] else Takes(s, acts[0]) + Taken(Step(s, acts[0]), acts[1..])
  }

  // Who takes a message makes use of it.
  lemma TakesMeans(s: State, a: Action)
    ensures
      var t := Step(s, a);
      Takes(s, a) != [] ==>
        var m := Takes(s, a)[0];
        match a
        case ClientStep(p) => m.mtype == p && t.clients[p].pc == Printed(m.first)
        case _ =>
          && m.mtype == REQUEST_TYPE && t.server == Reply(m.first, s.seqNum) && t.seqNum == s.seqNum + m.second
          && t.grants == s.grants + [Grant(m.first, s.seqNum, m.second)]
  {
  }

  lemma StepKeepsOrder(s: State, a: Action, t: int)
    ensures OfType(s.queue, t) + OfType(Puts(s, a), t) == OfType(Takes(s, a), t) + OfType(Step(s, a).queue, t)
  {
    if Takes(s, a) != [] {
      var u := if a.ClientStep? then a.who else REQUEST_TYPE;
      FirstIsTaken(s.queue, u, t);
      OfTypeOne(s.queue[FirstOf(s.queue, u)], t);
    } else {
      OfTypeConcat(s.queue, Puts(s, a), t);
      assert Step(s, a).queue == s.queue + Puts(s, a);
    }
  }

  // Messages of a type come out in the order in which they went in, none lost or doubled,
  // whoever takes them.
  lemma {:induction false} FirstInFirstOut(s: State, acts: seq<Action>, t: int)
    ensures
      OfType(s.queue, t) + OfType(Put(s, acts), t) == OfType(Taken(s, acts), t) + OfType(Run(s, acts).queue, t)
    decreases |acts|
  {
    if acts != [] {
      var a, s' := acts[0], Step(s, acts[0]);
      StepKeepsOrder(s, a, t);
      FirstInFirstOut(s', acts[1..], t);
      hide Step, Puts, Takes;
      OfTypeConcat(Puts(s, a), Put(s', acts[1..]), t);
      OfTypeConcat(Takes(s, a), Taken(s', acts[1..]), t);
      Chain(OfType(s.queue, t), OfType(Puts(s, a), t), OfType(Takes(s, a), t), OfType(s'.queue, t),
            OfType(Put(s', acts[1..]), t), OfType(Taken(s', acts[1..]), t), OfType(Run(s', acts[1..]).queue, t));
    }
  }

  lemma Chain(q: seq<Msg>, p: seq<Msg>, t: seq<Msg>, q': seq<Msg>, p': seq<Msg>, t': seq<Msg>, q'': seq<Msg>)
    requires q + p == t + q' && q' + p' == t' + q''
    ensures q + (p + p') == (t + t') + q''
  {
    assert q + (p + p') == (q + p) + p' == (t + q') + p' == t + (q' + p') == t + (t' + q'') == (t + t') + q'';
  }

  // --- requests and grants --------------------------------------------------------------

  datatype Call = Call(who: int, len: int)

  function CallsOf(q: seq<Msg>): seq<Call> {
    seq(|q|, i requires 0 <= i < |q| => Call(q[i].first, q[i].second))
  }

  function GrantedCalls(gs: seq<Grant>): seq<Call> {
    seq(|gs|, i requires 0 <= i < |gs| => Call(gs[i].pid, gs[i].len))
  }

  // The calls in the order in which their requests were sent.
  function AskedBy(s: State, a: Action): seq<Call> {
    if a.ClientStep? && Enabled(s, a) && s.clients[a.who].pc == Ask then [Call(a.who, s.clients[a.who].len)] else []
  }

  function Asked(s: State, acts: seq<Action>): seq<Call>
    decreases |acts|
  {
    if acts == [] then [] else AskedBy(s, acts[0]) + Asked(Step(s, acts[0]), acts[1..])
  }

  function Listed(s: State): seq<Call> {
    GrantedCalls(s.grants) + CallsOf(OfType(s.queue, REQUEST_TYPE))
  }

  // The requests among what is put are the calls made.
  lemma PutsAreAsked(s: State, a: Action)
    requires Inv(s)
    ensures CallsOf(OfType(Puts(s, a), REQUEST_TYPE)) == AskedBy(s, a)
  {
    hide QueueInv, BookInv;
    if Puts(s, a) != [] {
      OfTypeOne(Puts(s, a)[0], REQUEST_TYPE);
      ServesPids(s);
    }
  }

  // The requests among what is taken are granted.
  lemma TakesAreGranted(s: State, a: Action)
    requires Inv(s)
    ensures GrantedCalls(Step(s, a).grants) == GrantedCalls(s.grants) + CallsOf(OfType(Takes(s, a), REQUEST_TYPE))
  {
    hide QueueInv, BookInv;
    if Takes(s, a) != [] {
      TakesMeans(s, a);
      OfTypeOne(Takes(s, a)[0], REQUEST_TYPE);
      ClientsArePids(s);
    }
  }

  lemma ServesPids(s: State)
    requires Inv(s)
    ensures s.server.Reply? ==> s.server.pid != REQUEST_TYPE
  {
  }

  lemma ClientsArePids(s: State)
    requires Inv(s)
    ensures REQUEST_TYPE !in s.clients
  {
  }

  lemma CallsOfConcat(a: seq<Msg>, b: seq<Msg>)
    ensures CallsOf(a + b) == CallsOf(a) + CallsOf(b)
  {
  }

  lemma StepLists(s: State, a: Action)
    requires Inv(s)
    ensures Listed(s) + AskedBy(s, a) == Listed(Step(s, a))
  {
    hide Inv, Step, AskedBy, Puts, Takes, CallsOf, GrantedCalls, OfType;
    var t := Step(s, a);
    StepKeepsOrder(s, a, REQUEST_TYPE);
    PutsAreAsked(s, a);
    TakesAreGranted(s, a);
    var had, took, left := OfType(s.queue, REQUEST_TYPE), OfType(Takes(s, a), REQUEST_TYPE), OfType(t.queue, REQUEST_TYPE);
    CallsOfConcat(had, OfType(Puts(s, a), REQUEST_TYPE));
    CallsOfConcat(took, left);
    assert CallsOf(had) + AskedBy(s, a) == CallsOf(took) + CallsOf(left);
    assert Listed(s) + AskedBy(s, a) == GrantedCalls(s.grants) + (CallsOf(had) + AskedBy(s, a));
    assert Listed(t) == GrantedCalls(s.grants) + (CallsOf(took) + CallsOf(left));
  }

  lemma {:induction false} RunLists(s: State, acts: seq<Action>)
    requires Inv(s)
    ensures Listed(s) + Asked(s, acts) == Listed(Run(s, acts))
    decreases |acts|
  {
    hide Inv, Listed, Step, AskedBy;
    if acts != [] {
      StepLists(s, acts[0]);
      StepKeepsInv(s, acts[0]);
      RunLists(Step(s, acts[0]), acts[1..]);
    }
  }

  lemma NothingListed(cap: nat, pids: set<Pid>)
    requires REQUEST_TYPE !in pids
    ensures Inv(Init(cap, pids)) && Listed(Init(cap, pids)) == []
  {
  }

  // First come, first served: the calls granted so far, and behind them those whose requests
  // are still in the queue, are exactly the calls made, in the order in which they were made.
  lemma GrantedAsAsked(cap: nat, pids: set<Pid>, acts: seq<Action>)
    requires REQUEST_TYPE !in pids
    ensures
      var s := Reached(cap, pids, acts);
      GrantedCalls(s.grants) + CallsOf(OfType(s.queue, REQUEST_TYPE)) == Asked(Init(cap, pids), acts)
  {
    hide Inv, Run, Asked, GrantedCalls, CallsOf, OfType, Init;
    NothingListed(cap, pids);
    RunLists(Init(cap, pids), acts);
  }

  // A call asks for the length it was made with.
  lemma {:induction false} CallKeepsLength(s: State, acts: seq<Action>, p: Pid)
    requires p in s.clients && forall i :: 0 <= i < |acts| ==> !(acts[i].Start? && acts[i].pid == p)
    ensures p in Run(s, acts).clients && Run(s, acts).clients[p].len == s.clients[p].len
    decreases |acts|
  {
    if acts != [] {
      assert forall i :: 0 <= i < |acts[1..]| ==> acts[1..][i] == acts[i + 1];
      CallKeepsLength(Step(s, acts[0]), acts[1..], p);
    }
  }

  lemma CallAsksItsLength(s: State, p: Pid, len: int, acts: seq<Action>)
    requires Enabled(s, Start(p, len)) && forall i :: 0 <= i < |acts| ==> !(acts[i].Start? && acts[i].pid == p)
    ensures
      var t := Run(s, [Start(p, len)] + acts);
      p in t.clients && t.clients[p].len == len
  {
    var t := Step(s, Start(p, len));
    assert ([Start(p, len)] + acts)[1..] == acts;
    CallKeepsLength(t, acts, p);
  }
}
