// How long a run of the FIFO service can be: no client, good or bad, can keep it going.
module FifoProgress {
  import opened Common
  import opened FifoService
  import opened FifoResults

  // Clients that have still to send, to open, and to print.
  ghost function Unsent(s: State): set<Pid> {
    set p | p in s.clients && s.clients[p].pc == Send
  }

  ghost function Unopened(s: State): set<Pid> {
    set p | p in s.clients && (s.clients[p].pc == Send || s.clients[p].pc == Sent)
  }

  ghost function Unprinted(s: State): set<Pid> {
    set p | p in s.clients && (s.clients[p].pc == Send || s.clients[p].pc == Sent || s.clients[p].pc == Opening)
  }

  function ServerRank(pc: ServerPc): nat {
    match pc
    case Read => 0
    case TryOpen(_) => 3
    case Write(_) => 2
    case Advance(_) => 1
  }

  // A bound on the operations left.
  ghost function Rank(s: State): nat {
    5 * |Unsent(s)| + |Unopened(s)| + |Unprinted(s)| + 4 * |s.pipe| + ServerRank(s.server)
  }

  // A new client brings seven; any other operation takes one away.
  lemma RankDecreases(s: State, a: Action)
    requires Enabled(s, a)
    ensures Rank(Step(s, a)) + (if a.Start? then 0 else 1) <= Rank(s) + if a.Start? then 7 else 0
  {
    hide Rank;
    match a
    case Start(p, good, len) => StartRank(s, p, good, len);
    case ClientStep(p) => ClientRank(s, p);
    case ServerStep => ServerRankDecreases(s);
  }

  lemma StartMoves(s: State, p: Pid, good: bool, len: int)
    requires p !in s.clients
    ensures
      var t := Step(s, Start(p, good, len));
      && Unsent(t) == Unsent(s) + {p} && Unopened(t) == Unopened(s) + {p} && Unprinted(t) == Unprinted(s) + {p}
      && t.pipe == s.pipe && t.server == s.server
  {
  }

  lemma StartRank(s: State, p: Pid, good: bool, len: int)
    requires p !in s.clients
    ensures Rank(Step(s, Start(p, good, len))) <= Rank(s) + 7
  {
    hide Unsent, Unopened, Unprinted, Step;
    StartMoves(s, p, good, len);
  }

  lemma ServerMoves(s: State)
    ensures
      var t := AfterServer(s);
      Unsent(t) == Unsent(s) && Unopened(t) == Unopened(s) && Unprinted(t) == Unprinted(s)
  {
  }

  lemma ServerRankDecreases(s: State)
    requires Enabled(s, ServerStep)
    ensures Rank(Step(s, ServerStep)) < Rank(s)
  {
    ServerMoves(s);
    hide Unsent, Unopened, Unprinted;
  }

  lemma ClientMoves(s: State, p: Pid)
    requires Enabled(s, ClientStep(p))
    ensures
      var t := Step(s, ClientStep(p));
      var pc := s.clients[p].pc;
      && Unsent(t) == Unsent(s) - {p}
      && Unopened(t) == (if pc == Send && s.clients[p].good then Unopened(s) else Unopened(s) - {p})
      && Unprinted(t) == (if pc == Opening || (!s.clients[p].good && pc == Send) then Unprinted(s) - {p} else Unprinted(s))
  {
  }

  lemma ClientRank(s: State, p: Pid)
    requires Enabled(s, ClientStep(p))
    ensures Rank(Step(s, ClientStep(p))) < Rank(s)
  {
    ClientMoves(s, p);
    assert p in Unsent(s) <==> s.clients[p].pc == Send;
    assert p in Unopened(s) <==> s.clients[p].pc == Send || s.clients[p].pc == Sent;
    assert p in Unprinted(s);
    hide Unsent, Unopened, Unprinted;
  }

  // Operations of clients and server in a run, and clients that came.
  function Effective(s: State, acts: seq<Action>): nat
    decreases |acts|
  {
    if acts == [] then 0
    else (if Enabled(s, acts[0]) && !acts[0].Start? then 1 else 0) + Effective(Step(s, acts[0]), acts[1..])
  }

  function Started(acts: seq<Action>): nat {
    Count((a: Action) => a.Start?, acts)
  }

  lemma {:induction false} EffectiveBounded(s: State, acts: seq<Action>)
    ensures Effective(s, acts) + Rank(Run(s, acts)) <= Rank(s) + 7 * Started(acts)
    decreases |acts|
  {
    hide Rank, Enabled, Step;
    if acts != [] {
      if Enabled(s, acts[0]) {
        RankDecreases(s, acts[0]);
      } else {
        assert Step(s, acts[0]) == s by { Blocked(s, acts[0]); }
      }
      EffectiveBounded(Step(s, acts[0]), acts[1..]);
    }
  }

  lemma Blocked(s: State, a: Action)
    requires !Enabled(s, a)
    ensures Step(s, a) == s
  {
  }

  // With n clients no run has more than 7 * n operations, so it comes to a state in which
  // nothing moves, and there every request has been decided.
  lemma EveryRunEnds(acts: seq<Action>)
    ensures Effective(Init(), acts) <= 7 * Started(acts)
  {
    EffectiveBounded(Init(), acts);
  }

  // And whoever is let go on whenever somebody can gets there.
  lemma {:induction false} ComesToRest(s: State) returns (acts: seq<Action>)
    ensures Quiet(Run(s, acts)) && forall i :: 0 <= i < |acts| ==> !acts[i].Start?
    decreases Rank(s)
  {
    hide Rank;
    acts := [];
    if Enabled(s, ServerStep) {
      RankDecreases(s, ServerStep);
      var rest := ComesToRest(Step(s, ServerStep));
      acts := [ServerStep] + rest;
      assert acts[1..] == rest;
    } else if p: Pid :| Enabled(s, ClientStep(p)) {
      RankDecreases(s, ClientStep(p));
      var rest := ComesToRest(Step(s, ClientStep(p)));
      acts := [ClientStep(p)] + rest;
      assert acts[1..] == rest;
    }
  }
}
