// A call that has been granted the record comes back, and with what.
module RendezvousReturns {
  import opened Rendezvous
  import opened RendezvousResults

  // c has been granted the record in its latest call, and has not returned.
  predicate UnderWay(s: State, c: nat) {
    c in s.clients && s.clients[c].pc != Grab && s.clients[c].pc != Returned
  }

  // How many operations of c, and of the server while c holds the record, are left before c
  // has returned.
  function CallRank(s: State, c: nat): nat
    requires c in s.clients
  {
    if s.order == ReadThenRelease then Rank(s, c)
    else match s.clients[c].pc
      case Compare => 2
      case Copy => 1
      case Returned => 0
      case _ => Rank(s, c) + 2
  }

  // The operations that bring c further.
  predicate Helps(s: State, a: Action, c: nat) {
    Enabled(s, a) && (a == ClientStep(c) || (a == ServerStep && Holding(s, c)))
  }

  function Helping(s: State, acts: seq<Action>, c: nat): nat
    decreases |acts|
  {
    if acts == [] then 0
    else (if Helps(s, acts[0], c) then 1 else 0) + Helping(Step(s, acts[0]), acts[1..], c)
  }

  // A step that is not c's own leaves c where it is.
  lemma OthersLeaveClient(s: State, a: Action, c: nat)
    requires UnderWay(s, c) && a != ClientStep(c)
    ensures c in Step(s, a).clients && Step(s, a).clients[c] == s.clients[c] && Step(s, a).order == s.order
  {
  }

  lemma CallRankDecreases(s: State, a: Action, c: nat)
    requires MutexInv(s) && UnderWay(s, c)
    ensures
      var t := Step(s, a);
      && c in t.clients && (UnderWay(t, c) || t.clients[c].pc == Returned)
      && CallRank(t, c) + (if Helps(s, a, c) then 1 else 0) <= CallRank(s, c)
  {
    var t := Step(s, a);
    if a == ClientStep(c) {
      OwnStepReturns(s, c);
    } else {
      OthersLeaveClient(s, a, c);
      if Holding(s, c) {
        assert Holding(t, c);
        RankDecreases(s, a, c);
      }
    }
  }

  lemma OwnStepReturns(s: State, c: nat)
    requires MutexInv(s) && UnderWay(s, c)
    ensures
      var t := Step(s, ClientStep(c));
      && c in t.clients && (UnderWay(t, c) || t.clients[c].pc == Returned)
      && CallRank(t, c) + (if Enabled(s, ClientStep(c)) then 1 else 0) <= CallRank(s, c)
  {
    if Holding(s, c) {
      assert HolderInv(s, c);
    }
  }

  lemma ReturnedHasRankZero(s: State, c: nat)
    requires Inv(s) && UnderWay(s, c)
    ensures CallRank(s, c) > 0
  {
    if Holding(s, c) {
      RankPositive(s, c);
    }
  }

  // Whatever the others do, a granted call has returned before c, and the server as long as
  // it works for c, have taken CallRank operations.
  lemma {:induction false} GrantedCallReturns(s: State, acts: seq<Action>, c: nat)
    requires Inv(s) && UnderWay(s, c) && Helping(s, acts, c) >= CallRank(s, c)
    ensures exists k :: 0 <= k <= |acts| && ReturnedAfter(s, acts[..k], c)
    decreases |acts|
  {
    hide Inv, MutexInv, CallRank, Helps, UnderWay, Step;
    ReturnedHasRankZero(s, c);
    var t := Step(s, acts[0]);
    assert MutexInv(s) by { InvHasMutex(s); }
    StepKeepsInv(s, acts[0]);
    CallRankDecreases(s, acts[0], c);
    var k := 0;
    if t.clients[c].pc != Returned {
      GrantedCallReturns(t, acts[1..], c);
      k :| 0 <= k <= |acts[1..]| && ReturnedAfter(t, acts[1..][..k], c);
    } else {
      assert ReturnedAfter(t, acts[1..][..0], c);
    }
    assert acts[..k + 1][1..] == acts[1..][..k] && acts[..k + 1][0] == acts[0];
    assert Run(s, acts[..k + 1]) == Run(t, acts[1..][..k]);
    assert ReturnedAfter(s, acts[..k + 1], c);
  }

  predicate ReturnedAfter(s: State, acts: seq<Action>, c: nat) {
    var t := Run(s, acts);
    c in t.clients && t.clients[c].pc == Returned
  }

  // In the coded order ten operations are enough after the grab, and two after the release.
  lemma TenOperationsReturn(db: map<string, string>, word: string, text: string, before: seq<Action>, acts: seq<Action>, c: nat)
    requires
      var s := Reached(ReleaseThenRead, db, word, text, before);
      UnderWay(s, c) && Helping(s, acts, c) >= if Holding(s, c) then 10 else 2
    ensures
      var s := Reached(ReleaseThenRead, db, word, text, before);
      exists k :: 0 <= k <= |acts| && ReturnedAfter(s, acts[..k], c)
  {
    ReachedInv(ReleaseThenRead, db, word, text, before);
    KeepsConstants(Init(ReleaseThenRead, db, word, text), before);
    var s := Reached(ReleaseThenRead, db, word, text, before);
    if Holding(s, c) {
      assert HolderInv(s, c);
    }
    GrantedCallReturns(s, acts, c);
  }

  // --- one client alone -----------------------------------------------------------

  // A call with nobody else about, from its grab to its return.
  function WholeCall(c: nat, w: string): seq<Action> {
    Served(c, w) + ([ClientStep(c)] + ([ClientStep(c)] + []))
  }

  // It returns, with the text of its word, or with NOTFOUND if the dictionary has none or
  // has "XXXX" for it, and leaves the record free for the next.
  lemma CallAlone(s: State, c: nat, w: string)
    requires Idle(s) && Enabled(s, Call(c, w))
    ensures
      var t := Run(s, WholeCall(c, w));
      && Idle(t) && t.db == s.db && c in t.clients && t.clients[c].pc == Returned && t.clients[c].word == w
      && t.clients[c].outcome ==
           if w in s.db && s.db[w] != "XXXX" then Found(s.db[w]) else NotFound
  {
    ServedLeavesAnswer(s, c, w);
    hide Served;
    RunConcat(s, Served(c, w), [ClientStep(c)] + ([ClientStep(c)] + []));
    var t := Run(s, Served(c, w));
    RunOne(t, ClientStep(c), [ClientStep(c)] + []);
    RunOne(Step(t, ClientStep(c)), ClientStep(c), []);
  }
}
