// What the FIFO service guarantees to clients that behave, and what badly behaved or
// early requests cost.
module FifoResults {
  import opened Ranges
  import opened FifoService

  function Reached(acts: seq<Action>): State {
    Run(Init(), acts)
  }

  lemma ReachedInv(acts: seq<Action>)
    ensures Inv(Reached(acts))
  {
    RunKeepsInv(Init(), acts);
  }

  // --- ranges ---------------------------------------------------------------------------

  ghost predicate AsksAtLeast(acts: seq<Action>, n: int) {
    forall i :: 0 <= i < |acts| && acts[i].Start? ==> acts[i].len >= n
  }

  lemma {:induction false} LengthsKept(s: State, acts: seq<Action>, n: int)
    requires AsksAtLeast(acts, n) && forall p :: p in s.clients ==> s.clients[p].len >= n
    ensures forall p :: p in Run(s, acts).clients ==> Run(s, acts).clients[p].len >= n
    decreases |acts|
  {
    if acts != [] {
      assert forall i :: 0 <= i < |acts[1..]| ==> acts[1..][i] == acts[i + 1];
      LengthsKept(Step(s, acts[0]), acts[1..], n);
    }
  }

  // With lengths that are not negative the granted ranges follow one another without gap or
  // overlap, however many requests were given up on in between.
  lemma RangesTile(acts: seq<Action>, x: int)
    requires AsksAtLeast(acts, 0)
    ensures
      var s := Reached(acts);
      && InOrder(s.grants)
      && (0 <= x < Sum(s.grants) <==> exists i :: 0 <= i < |s.grants| && Contains(s.grants[i], x))
      && (forall i, j :: 0 <= i < j < |s.grants| ==> !(Contains(s.grants[i], x) && Contains(s.grants[j], x)))
      && (!s.server.Advance? ==> s.seqNum == Sum(s.grants))
  {
    var s := Reached(acts);
    ReachedInv(acts);
    LengthsKept(Init(), acts, 0);
    assert forall i :: 0 <= i < |s.grants| ==> GrantedTo(s, s.grants[i]);
    OrderBoundary(s.grants);
    GrantsCover(s.grants, x);
  }

  // A printed number is the start of the one range granted to that client, of the length
  // it asked for; a bad client is granted nothing.
  lemma GrantsGoToReaders(acts: seq<Action>, p: Pid)
    ensures
      var s := Reached(acts);
      p in s.clients ==>
        && (s.clients[p].pc.Printed? ==>
              exists i :: 0 <= i < |s.grants| && s.grants[i] == Grant(p, s.clients[p].pc.num, s.clients[p].len) &&
                forall j :: 0 <= j < |s.grants| && s.grants[j].pid == p ==> j == i)
        && (!s.clients[p].good ==> !s.clients[p].pc.Printed? && !HasGrant(s.grants, p))
  {
    ReachedInv(acts);
    hide Reached, PipeInv;
    if p in Reached(acts).clients {
      GrantOf(Reached(acts), p);
    }
  }

  // The one grant of a client that has been granted something, and of no other.
  lemma GrantOf(s: State, p: Pid)
    requires GrantInv(s) && p in s.clients && ClientInv(s, p)
    ensures s.clients[p].pc.Printed? ==>
              exists i :: 0 <= i < |s.grants| && s.grants[i] == Grant(p, s.clients[p].pc.num, s.clients[p].len) &&
                forall j :: 0 <= j < |s.grants| && s.grants[j].pid == p ==> j == i
    ensures !s.clients[p].good ==> !s.clients[p].pc.Printed? && !HasGrant(s.grants, p)
  {
    hide Chained, Sum, Queued, InHand, GrantInv, OncePerPid, HasGrant, GrantedTo;
    if s.clients[p].fate.Granted? {
      var i := IndexOfGrant(s, p);
    } else {
      NoGrant(s, p);
    }
  }

  lemma IndexOfGrant(s: State, p: Pid) returns (i: nat)
    requires GrantInv(s) && p in s.clients && s.clients[p].fate.Granted?
    ensures i < |s.grants| && s.grants[i] == Grant(p, s.clients[p].fate.start, s.clients[p].len)
    ensures forall j :: 0 <= j < |s.grants| && s.grants[j].pid == p ==> j == i
  {
    hide Chained, Sum;
    assert HasGrant(s.grants, p);
    i :| 0 <= i < |s.grants| && s.grants[i].pid == p;
    assert GrantedTo(s, s.grants[i]);
  }

  lemma NoGrant(s: State, p: Pid)
    requires GrantInv(s) && !(p in s.clients && s.clients[p].fate.Granted?)
    ensures !HasGrant(s.grants, p)
  {
    hide Chained, Sum, OncePerPid;
    forall i | 0 <= i < |s.grants|
      ensures s.grants[i].pid != p
    {
      assert GrantedTo(s, s.grants[i]);
    }
  }

  // --- giving up ------------------------------------------------------------------------

  // In every reached state exactly the clients whose fate is a grant have one, so that one
  // given up on, or not decided yet, has consumed nothing: the current number is the sum of
  // the lengths granted, less the one being added.
  lemma OnlyGrantsConsume(acts: seq<Action>, p: Pid)
    ensures
      var s := Reached(acts);
      && (HasGrant(s.grants, p) <==> p in s.clients && s.clients[p].fate.Granted?)
      && s.seqNum == Sum(s.grants) - (if s.server.Advance? then s.server.req.len else 0)
  {
    var s := Reached(acts);
    ReachedInv(acts);
    if !(p in s.clients && s.clients[p].fate.Granted?) {
      NoGrant(s, p);
    }
  }

  // The server tries a client's FIFO: it grants the next range exactly when the client
  // is opening it, and otherwise neither the number nor the grants change.
  lemma TryDecides(acts: seq<Action>)
    ensures
      var s := Reached(acts);
      s.server.TryOpen? ==>
        var req := s.server.req;
        var t := Step(s, ServerStep);
        var u := Step(t, ServerStep);
        && req.pid in s.clients && s.clients[req.pid].fate == Undecided
        && (if HasReader(s, req.pid)
            then u.clients[req.pid].fate == Granted(s.seqNum) && u.grants == s.grants + [Grant(req.pid, s.seqNum, req.len)]
            else t.clients[req.pid].fate == Dropped && t.server == Read &&
                 t.seqNum == s.seqNum && t.grants == s.grants && t.pipe == s.pipe)
  {
    ReachedInv(acts);
  }

  lemma DroppedStays(s: State, a: Action, p: Pid)
    requires s.server.TryOpen? || s.server.Write? ==> RequestInv(s, s.server.req)
    requires p in s.clients && s.clients[p].fate == Dropped
    ensures p in Step(s, a).clients && Step(s, a).clients[p].fate == Dropped
  {
  }

  // A client that was given up on never prints anything.
  lemma {:induction false} DroppedNeverPrints(s: State, acts: seq<Action>, p: Pid)
    requires Inv(s) && p in s.clients && s.clients[p].fate == Dropped
    ensures p in Run(s, acts).clients && Run(s, acts).clients[p].fate == Dropped && !Run(s, acts).clients[p].pc.Printed?
    decreases |acts|
  {
    if acts == [] {
      assert ClientInv(s, p);
    } else {
      StepKeepsInv(s, acts[0]);
      DroppedStays(s, acts[0], p);
      DroppedNeverPrints(Step(s, acts[0]), acts[1..], p);
    }
  }

  // Nothing can move any more.
  ghost predicate Quiet(s: State) {
    !Enabled(s, ServerStep) && forall p: Pid :: !Enabled(s, ClientStep(p))
  }

  // When all is quiet every request has been decided: a good client has printed its
  // number, or was given up on and waits in its open for good; a bad one is gone.  No
  // client, good or bad, ever holds the server up.
  lemma QuietMeansDecided(acts: seq<Action>, p: Pid)
    ensures
      var s := Reached(acts);
      Quiet(s) && p in s.clients ==>
        var c := s.clients[p];
        s.server == Read && s.pipe == [] &&
        if !c.good then c.pc == Gone && c.fate == Dropped
        else (c.pc.Printed? && c.fate == Granted(c.pc.num)) || (c.pc == Opening && c.fate == Dropped)
  {
    var s := Reached(acts);
    ReachedInv(acts);
    if Quiet(s) && p in s.clients {
      assert ClientInv(s, p) && !Enabled(s, ClientStep(p));
    }
  }

  // Somewhere in the run the server tries a good client's FIFO too early: after the
  // client's request and before its open.
  predicate TriesEarly(s: State, acts: seq<Action>)
    decreases |acts|
  {
    acts != [] &&
    ((acts[0] == ServerStep && s.server.TryOpen? && s.server.req.pid in s.clients && s.clients[s.server.req.pid].pc == Sent)
     || TriesEarly(Step(s, acts[0]), acts[1..]))
  }

  ghost predicate GoodDropped(s: State) {
    exists p :: p in s.clients && s.clients[p].good && s.clients[p].fate == Dropped
  }

  lemma TryDropsGood(s: State)
    requires Inv(s)
    ensures GoodDropped(Step(s, ServerStep)) <==>
              GoodDropped(s) || (s.server.TryOpen? && s.clients[s.server.req.pid].pc == Sent)
  {
    hide GrantInv;
    var t := Step(s, ServerStep);
    if s.server.TryOpen? {
      var p := s.server.req.pid;
      assert RequestInv(s, s.server.req) && ClientInv(s, p);
      assert p in t.clients;
      if GoodDropped(s) {
        var q :| q in s.clients && s.clients[q].good && s.clients[q].fate == Dropped;
        assert q in t.clients && t.clients[q].good && t.clients[q].fate == Dropped;
      }
    } else {
      assert forall q :: q in t.clients ==> q in s.clients && t.clients[q].good == s.clients[q].good;
      if GoodDropped(s) {
        var q :| q in s.clients && s.clients[q].good && s.clients[q].fate == Dropped;
        assert s.server.Write? ==> RequestInv(s, s.server.req);
        assert q in t.clients && t.clients[q].good && t.clients[q].fate == Dropped;
      }
    }
  }

  lemma OthersKeepDropped(s: State, a: Action)
    requires a != ServerStep
    ensures GoodDropped(Step(s, a)) <==> GoodDropped(s)
  {
    var t := Step(s, a);
    if GoodDropped(s) {
      var q :| q in s.clients && s.clients[q].good && s.clients[q].fate == Dropped;
      assert q in t.clients && t.clients[q].good && t.clients[q].fate == Dropped;
    }
    if GoodDropped(t) {
      var q :| q in t.clients && t.clients[q].good && t.clients[q].fate == Dropped;
      assert q in s.clients && s.clients[q].good && s.clients[q].fate == Dropped;
    }
  }

  // A run gives up on a good client exactly when it tries one too early.
  lemma {:induction false} DropBoundary(s: State, acts: seq<Action>)
    requires Inv(s)
    ensures GoodDropped(Run(s, acts)) <==> GoodDropped(s) || TriesEarly(s, acts)
    decreases |acts|
  {
    if acts != [] {
      var t := Step(s, acts[0]);
      StepKeepsInv(s, acts[0]);
      if acts[0] == ServerStep {
        TryDropsGood(s);
        assert s.server.TryOpen? ==> RequestInv(s, s.server.req);
      } else {
        OthersKeepDropped(s, acts[0]);
      }
      DropBoundary(t, acts[1..]);
    }
  }

  // And that can happen to a client all alone.
  lemma GoodClientCanBeDropped(p: Pid, len: int)
    ensures GoodDropped(Reached([Start(p, true, len), ClientStep(p), ServerStep, ServerStep]))
  {
    var acts := [Start(p, true, len), ClientStep(p), ServerStep, ServerStep];
    var s0 := Init();
    var s1 := Step(s0, acts[0]);
    var s2 := Step(s1, acts[1]);
    var s3 := Step(s2, acts[2]);
    assert s2.pipe == [Request(p, len)] && s3.server == TryOpen(Request(p, len));
    assert acts[1..][0] == acts[1] && acts[1..][1..] == acts[2..] && acts[2..][1..] == acts[3..];
    assert TriesEarly(s3, acts[3..]);
    assert TriesEarly(s2, acts[2..]);
    assert TriesEarly(s1, acts[1..]);
    assert TriesEarly(s0, acts);
    DropBoundary(s0, acts);
  }
}
