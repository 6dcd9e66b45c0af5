// How long a run of the file transfer can be: a bound on the operations, from the files.
module FileTransferEnds {
  import opened Common
  import opened FileTransfer
  import opened FileTransferResults
  import opened FileTransferProgress

  function FileSize(file: Option<seq<byte>>): nat {
    if file.Some? then |file.value| else 0
  }

  // Operations a client's request can still take, as far as they are not the server's with
  // the file it is working on.
  function Weight(c: Client): nat {
    |c.queue| +
    match c.stage
    case NotAsked => 4 * FileSize(c.file) + 7
    case Queued => 4 * FileSize(c.file) + 6
    case _ => 0
  }

  // Operations on the file the server is working on: every read takes a byte at least.
  function ServerRank(pc: ServerPc, size: nat, pos: nat): nat {
    var left := if pos <= size then 4 * (size - pos) else 0;
    match pc
    case Receive => 0
    case Open(_) => 4 * size + 5
    case Read(_) => left + 4
    case Send(_) => left + 7
    case Clear(_) => left + 5
    case Mark(_) => 3
    case Finish(_) => 2
  }

  ghost function Weights(s: State): map<Pid, nat> {
    map p | p in s.clients :: Weight(s.clients[p])
  }

  function CurrentRank(s: State): nat {
    if s.server != Receive && s.server.p in s.clients
    then ServerRank(s.server, FileSize(s.clients[s.server.p].file), s.pos) else 0
  }

  ghost function Rank(s: State): nat {
    SumOf(Weights(s)) + CurrentRank(s)
  }

  // When one client changes, so does its weight.
  lemma OneWeight(s: State, t: State, p: Pid)
    requires p in t.clients && t.clients == s.clients[p := t.clients[p]]
    ensures Weights(t) == Weights(s)[p := Weight(t.clients[p])]
    ensures SumOf(Weights(t)) + (if p in s.clients then Weight(s.clients[p]) else 0) ==
            SumOf(Weights(s)) + Weight(t.clients[p])
  {
    assert Weights(t) == Weights(s)[p := Weight(t.clients[p])];
    SumChanges(Weights(s), p, Weight(t.clients[p]));
  }

  // What a new client brings.
  function Cost(a: Action): nat {
    if a.Start? then 4 * FileSize(a.file) + 7 else 0
  }

  lemma ClientRank(s: State, p: Pid)
    requires Inv(s) && Enabled(s, ClientStep(p))
    ensures Rank(Step(s, ClientStep(p))) < Rank(s)
  {
    hide Weights, SumOf, SentInv, ReceivedInv;
    assert Ok(s, p);
    OneWeight(s, Step(s, ClientStep(p)), p);
  }

  lemma ReceiveRank(s: State, k: nat)
    requires Inv(s) && Enabled(s, ServerStep(k)) && s.server == Receive
    ensures Rank(Step(s, ServerStep(k))) < Rank(s)
  {
    hide Weights, SumOf, SentInv, ReceivedInv;
    var p := s.requests[0];
    assert Ok(s, p) && s.clients[p].stage == Queued;
    OneWeight(s, Step(s, ServerStep(k)), p);
  }

  lemma ServingRank(s: State, k: nat)
    requires Inv(s) && Enabled(s, ServerStep(k)) && s.server != Receive
    ensures Rank(Step(s, ServerStep(k))) < Rank(s)
  {
    hide Weights, SumOf, SentInv, ReceivedInv;
    var p := s.server.p;
    assert Ok(s, p);
    OneWeight(s, Step(s, ServerStep(k)), p);
  }

  lemma RankDecreases(s: State, a: Action)
    requires Inv(s) && Enabled(s, a)
    ensures Rank(Step(s, a)) + (if a.Start? then 0 else 1) <= Rank(s) + Cost(a)
  {
    hide Inv, Weights, SumOf;
    match a
    case Start(p, file) => StartRank(s, p, file);
    case ClientStep(p) => ClientRank(s, p);
    case ServerStep(k) => if s.server == Receive { ReceiveRank(s, k); } else { ServingRank(s, k); }
  }

  lemma StartRank(s: State, p: Pid, file: Option<seq<byte>>)
    requires Inv(s) && p !in s.clients
    ensures Rank(Step(s, Start(p, file))) <= Rank(s) + Cost(Start(p, file))
  {
    hide Weights, SumOf, SentInv, ReceivedInv;
    OneWeight(s, Step(s, Start(p, file)), p);
  }

  // Operations of clients and server in a run, and what the clients that came have cost.
  function Effective(s: State, acts: seq<Action>): nat
    decreases |acts|
  {
    if acts == [] then 0
    else (if Enabled(s, acts[0]) && !acts[0].Start? then 1 else 0) + Effective(Step(s, acts[0]), acts[1..])
  }

  function TotalCost(acts: seq<Action>): nat {
    if acts == [] then 0 else Cost(acts[0]) + TotalCost(acts[1..])
  }

  lemma {:induction false} EffectiveBounded(s: State, acts: seq<Action>)
    requires Inv(s)
    ensures Effective(s, acts) + Rank(Run(s, acts)) <= Rank(s) + TotalCost(acts)
    decreases |acts|
  {
    hide Rank, Enabled, Step, Inv, Cost;
    if acts != [] {
      if Enabled(s, acts[0]) {
        RankDecreases(s, acts[0]);
      } else {
        Blocked(s, acts[0]);
      }
      StepKeepsInv(s, acts[0]);
      EffectiveBounded(Step(s, acts[0]), acts[1..]);
    }
  }

  lemma Blocked(s: State, a: Action)
    requires !Enabled(s, a)
    ensures Step(s, a) == s
  {
  }

  // No run has more than 4 operations a byte of the files asked for and 7 a client.
  lemma EveryRunEnds(acts: seq<Action>)
    ensures Effective(Init(), acts) <= TotalCost(acts)
  {
    EffectiveBounded(Init(), acts);
  }

  // From every reached state the run that lets whoever can move move comes to rest.
  lemma {:induction false} ComesToRest(s: State) returns (acts: seq<Action>)
    requires Inv(s)
    ensures Quiet(Run(s, acts)) && forall i :: 0 <= i < |acts| ==> !acts[i].Start?
    decreases Rank(s)
  {
    hide Rank, Inv, Enabled;
    acts := [];
    if a :| Enabled(s, a) && !a.Start? {
      RankDecreases(s, a);
      StepKeepsInv(s, a);
      var rest := ComesToRest(Step(s, a));
      acts := [a] + rest;
      assert acts[1..] == rest;
    }
  }
}
