// When a message can go missing in the ring buffer at all: overwritten in its slot, its
// signal merged into one that is still pending, or its count lost between two consumers.
module RingLosses {
  import opened RingSignals
  import opened RingResults

  // --- merged signals ---------------------------------------------------------------

  // A signal is merged only into another one.
  predicate MergedBehindOther(s: State) {
    forall j :: 0 <= j < |s.consumers| ==>
      s.consumers[j].merged > 0 ==> s.consumers[j].begun + |s.consumers[j].pending| > 0
  }

  lemma StepKeepsMerged(s: State, a: Action)
    requires |s.slots| > 0 && MergedBehindOther(s)
    ensures MergedBehindOther(Step(s, a))
    ensures forall j :: 0 <= j < |s.consumers| ==> s.consumers[j].merged <= Step(s, a).consumers[j].merged
  {
  }

  lemma {:induction false} RunKeepsMerged(s: State, acts: seq<Action>)
    requires |s.slots| > 0 && MergedBehindOther(s)
    ensures MergedBehindOther(Run(s, acts))
    ensures forall j :: 0 <= j < |s.consumers| ==> s.consumers[j].merged <= Run(s, acts).consumers[j].merged
    decreases |acts|
  {
    hide Step, MergedBehindOther;
    if acts != [] {
      StepKeepsMerged(s, acts[0]);
      RunKeepsMerged(Step(s, acts[0]), acts[1..]);
    }
  }

  // A consumer that has been sent one signal at most has none merged.
  lemma OneSignalIsNotMerged(m: nat, n: nat, first: seq<int>, acts: seq<Action>, j: nat)
    requires |first| > 0 && j < n && m <= 1
    ensures Reached(m, n, first, acts).consumers[j].merged == 0
  {
    hide SlotsHold, CounterInv;
    var s := Reached(m, n, first, acts);
    ReachedInv(m, n, first, acts);
    RunKeepsMerged(Init(m, n, first), acts);
    assert ConsumerInv(s, j);
  }

  // The producer alone can go on to its end.
  lemma {:induction false} ProduceToEnd(s: State, first: seq<int>) returns (acts: seq<Action>)
    requires Inv(s, first)
    ensures
      var t := Run(s, acts);
      Inv(t, first) && t.producer == Finished &&
      forall j :: 0 <= j < |s.consumers| ==> t.consumers[j].pc == s.consumers[j].pc && t.consumers[j].begun == s.consumers[j].begun
    decreases s.m - s.i, if s.producer.Send? then |s.consumers| + 1 - s.producer.j else |s.consumers| + 2
  {
    hide CounterInv, ConsumerInv;
    if s.producer == Finished {
      acts := [];
    } else {
      ProduceKeepsInv(s, first);
      var rest := ProduceToEnd(Step(s, Produce), first);
      acts := [Produce] + rest;
    }
  }

  // With all signals sent before any handler runs, a consumer gets the first one.
  lemma MergingRun(m: nat, n: nat, first: seq<int>) returns (acts: seq<Action>)
    requires |first| > 0 && m >= 2 && n >= 1
    ensures Reached(m, n, first, acts).consumers[0].merged > 0
  {
    hide SlotsHold, CounterInv, Run;
    InitInv(m, n, first);
    acts := ProduceToEnd(Init(m, n, first), first);
    assert ConsumerInv(Reached(m, n, first, acts), 0);
  }

  ghost predicate NeverMerges(m: nat, n: nat, first: seq<int>)
    requires |first| > 0
  {
    forall acts :: Total(Reached(m, n, first, acts).consumers, Merged) == 0
  }

  // No run merges a signal exactly when there is at most one message, or no consumer.
  lemma MergeBoundary(m: nat, n: nat, first: seq<int>)
    requires |first| > 0
    ensures NeverMerges(m, n, first) <==> m <= 1 || n == 0
  {
    if m <= 1 || n == 0 {
      forall acts
        ensures Total(Reached(m, n, first, acts).consumers, Merged) == 0
      {
        var cs := Reached(m, n, first, acts).consumers;
        forall j | 0 <= j < |cs|
          ensures Of(cs[j], Merged) == 0
        {
          OneSignalIsNotMerged(m, n, first, acts, j);
        }
        TotalBound(cs, Merged, 0);
      }
    } else {
      var acts := MergingRun(m, n, first);
      OneIsInTotal(Reached(m, n, first, acts).consumers, Merged, 0);
    }
  }

  // --- lost counts ------------------------------------------------------------------

  // The counter, and every register it has been loaded into, has fallen behind the hits.
  predicate Short(s: State) {
    && s.cnt < Total(s.consumers, Hits)
    && forall j :: 0 <= j < |s.consumers| && s.consumers[j].pc.StoreBack? && s.consumers[j].pc.hit ==>
         s.consumers[j].pc.reg < Total(s.consumers, Hits)
  }

  lemma StepStaysShort(s: State, a: Action)
    requires |s.slots| > 0 && Short(s)
    ensures Short(Step(s, a))
  {
    hide Total;
    var t := Step(s, a);
    if a.Handle? && a.who < |s.consumers| {
      TotalUpdate(s.consumers, Hits, a.who, t.consumers[a.who]);
      assert t.consumers == s.consumers[a.who := t.consumers[a.who]];
    } else if a.Produce? && s.producer.Send? && s.producer.j < |s.consumers| {
      var j := s.producer.j;
      TotalUpdate(s.consumers, Hits, j, t.consumers[j]);
      assert t.consumers == s.consumers[j := t.consumers[j]];
    }
  }

  // It never catches up.
  lemma {:induction false} RunStaysShort(s: State, acts: seq<Action>)
    requires |s.slots| > 0 && Short(s)
    ensures Short(Run(s, acts))
    decreases |acts|
  {
    hide Step, Short;
    if acts != [] {
      StepStaysShort(s, acts[0]);
      RunStaysShort(Step(s, acts[0]), acts[1..]);
    }
  }

  // --- at rest ----------------------------------------------------------------------

  predicate Resting(c: Consumer) {
    c.pc == Paused && c.pending == []
  }

  // Everything has been sent, and no handler is running or about to.
  predicate AtRest(s: State) {
    s.producer == Finished && forall j :: 0 <= j < |s.consumers| ==> Resting(s.consumers[j])
  }

  // Operations the consumer still has to do.
  function ToDo(c: Consumer): nat {
    4 * |c.pending| +
    match c.pc
    case Paused => 0
    case Compare(_) => 3
    case Load(_, _) => 2
    case StoreBack(_, _, _) => 1
  }

  // One consumer after the other comes to rest.
  lemma {:induction false} ConsumersRest(s: State, k: nat) returns (acts: seq<Action>)
    requires |s.slots| > 0 && s.producer == Finished && k <= |s.consumers|
    requires forall j :: 0 <= j < k ==> Resting(s.consumers[j])
    requires forall j :: 0 <= j < |s.consumers| ==> |s.consumers[j].pending| <= 1
    ensures AtRest(Run(s, acts))
    decreases |s.consumers| - k, if k < |s.consumers| then ToDo(s.consumers[k]) else 0
  {
    if k == |s.consumers| {
      acts := [];
    } else if Resting(s.consumers[k]) {
      acts := ConsumersRest(s, k + 1);
    } else {
      var t := Step(s, Handle(k));
      assert ToDo(t.consumers[k]) < ToDo(s.consumers[k]);
      var rest := ConsumersRest(t, k);
      acts := [Handle(k)] + rest;
    }
  }

  // From every state the program can come to rest.
  lemma ComesToRest(s: State, first: seq<int>) returns (acts: seq<Action>)
    requires Inv(s, first)
    ensures AtRest(Run(s, acts))
  {
    hide Run, AtRest;
    var send := ProduceToEnd(s, first);
    var t := Run(s, send);
    forall j | 0 <= j < |t.consumers|
      ensures |t.consumers[j].pending| <= 1
    {
      assert ConsumerInv(t, j);
    }
    var handle := ConsumersRest(t, 0);
    RunConcat(s, send, handle);
    acts := send + handle;
  }

  // Whenever everything is over, every message has been counted for every consumer.
  ghost predicate NothingMissing(m: nat, n: nat, first: seq<int>)
    requires |first| > 0
  {
    forall acts :: AtRest(Reached(m, n, first, acts)) ==> Reached(m, n, first, acts).cnt == m * n
  }

  // A merged signal is a hit that is not there.
  lemma MergedIsMissing(m: nat, n: nat, first: seq<int>, acts: seq<Action>)
    requires |first| > 0 && n > 0
    requires Reached(m, n, first, acts).consumers[0].merged > 0
    ensures Reached(m, n, first, acts).cnt < m * n
  {
    hide SlotsHold, CounterInv;
    var s := Reached(m, n, first, acts);
    ReachedInv(m, n, first, acts);
    CountersBounded(m, n, first, acts);
    forall j | 0 <= j < n
      ensures Of(s.consumers[j], Hits) <= m
    {
      assert ConsumerInv(s, j);
    }
    assert ConsumerInv(s, 0) && Of(s.consumers[0], Hits) < m;
    TotalBound(s.consumers, Hits, m);
  }

  lemma HitsBounded(m: nat, n: nat, first: seq<int>, acts: seq<Action>)
    requires |first| > 0
    ensures Total(Reached(m, n, first, acts).consumers, Hits) <= m * n
  {
    SignalsAreConserved(m, n, first, acts);
  }

  // A run in which something goes missing.
  lemma MissingRun(m: nat, n: nat, first: seq<int>) returns (acts: seq<Action>)
    requires |first| > 0 && m * n > 0 && !(m == 1 && n == 1)
    ensures AtRest(Reached(m, n, first, acts)) && Reached(m, n, first, acts).cnt < m * n
  {
    hide Run, Step, Inv, AtRest;
    var s0 := Init(m, n, first);
    var start;
    if m >= 2 {
      start := MergingRun(m, n, first);
    } else {
      start := LostUpdate(m, n, first);
    }
    var s := Run(s0, start);
    ReachedInv(m, n, first, start);
    var rest := ComesToRest(s, first);
    RunConcat(s0, start, rest);
    acts := start + rest;
    if m >= 2 {
      RunKeepsMerged(s0, start);
      RunKeepsMerged(s, rest);
      MergedIsMissing(m, n, first, acts);
    } else {
      RunStaysShort(s, rest);
      HitsBounded(m, n, first, acts);
    }
  }

  // With one message and one consumer it is counted.
  lemma OneMessageArrives(first: seq<int>, acts: seq<Action>)
    requires |first| > 0 && AtRest(Reached(1, 1, first, acts))
    ensures Reached(1, 1, first, acts).cnt == 1
  {
    hide SlotsHold, CounterInv;
    var s := Reached(1, 1, first, acts);
    ReachedInv(1, 1, first, acts);
    OneSignalIsNotMerged(1, 1, first, acts, 0);
    MissBoundary(1, 1, first);
    OneIsInTotal(s.consumers, Misses, 0);
    CounterBoundary(1, 1, first);
    assert ConsumerInv(s, 0) && Resting(s.consumers[0]) && AllPaused(s);
    OneIsInTotal(s.consumers, Hits, 0);
    CountersBounded(1, 1, first, acts);
  }

  // In every run at rest the counter says m*n exactly when there is nothing to count, or
  // one message for one consumer.
  lemma MissingBoundary(m: nat, n: nat, first: seq<int>)
    requires |first| > 0
    ensures NothingMissing(m, n, first) <==> m * n == 0 || (m == 1 && n == 1)
  {
    if m * n == 0 || (m == 1 && n == 1) {
      forall acts | AtRest(Reached(m, n, first, acts))
        ensures Reached(m, n, first, acts).cnt == m * n
      {
        CountersBounded(m, n, first, acts);
        if m * n > 0 {
          OneMessageArrives(first, acts);
        }
      }
    } else {
      var acts := MissingRun(m, n, first);
    }
  }
}
