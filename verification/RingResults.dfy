// What every run of the ring buffer keeps, and when its counts can be trusted.
module RingResults {
  import opened RingSignals

  // The state after a schedule, from memory with arbitrary contents.
  function Reached(m: nat, n: nat, first: seq<int>, acts: seq<Action>): (s: State)
    requires |first| > 0
    ensures |s.slots| == |first| && |s.consumers| == n && s.m == m
  {
    Run(Init(m, n, first), acts)
  }

  lemma ReachedInv(m: nat, n: nat, first: seq<int>, acts: seq<Action>)
    requires |first| > 0
    ensures Inv(Reached(m, n, first, acts), first)
  {
    InitInv(m, n, first);
    RunKeepsInv(Init(m, n, first), first, acts);
  }

  // --- slots ----------------------------------------------------------------------

  // A slot that has been written holds the last message that belongs to it, and one
  // that has not holds what it held at first.
  lemma SlotContents(m: nat, n: nat, first: seq<int>, acts: seq<Action>, k: nat)
    requires k < |first|
    ensures
      var s := Reached(m, n, first, acts);
      && (k < Written(s) ==>
            exists i: nat :: i < Written(s) && i % |first| == k && s.slots[k] == i &&
              forall j: nat :: i < j < Written(s) ==> j % |first| != k)
      && (k >= Written(s) ==> s.slots[k] == first[k])
  {
    var s := Reached(m, n, first, acts);
    ReachedInv(m, n, first, acts);
    if k < Written(s) {
      var i := LastMessage(Written(s), |first|, k);
      assert s.slots[i % |first|] == i;
    }
  }

  // The last of the messages before w that go into slot k.
  lemma LastMessage(w: nat, b: nat, k: nat) returns (i: nat)
    requires k < b && k < w
    ensures w - b <= i < w && i % b == k && forall j: nat :: i < j < w ==> j % b != k
  {
    FirstRound(k, b);
    i := k;
    if k + b < w {
      i := LastInSlot(w, b, k);
    }
    forall j: nat | i < j < w
      ensures j % b != k
    {
      OtherSlot(i, j, b);
    }
  }

  // A handler's test for v comes out as a hit exactly while message v + b has not been
  // written, whatever the interleaving and whatever the memory held at first.
  lemma HitCriterion(m: nat, n: nat, first: seq<int>, acts: seq<Action>, c: nat)
    requires |first| > 0 && c < n
    ensures
      var s := Reached(m, n, first, acts);
      s.consumers[c].pc.Compare? ==>
        var v := s.consumers[c].pc.v;
        v < Written(s) <= m && Step(s, Handle(c)).consumers[c].pc == Load(v, Written(s) <= v + |first|)
  {
    var s := Reached(m, n, first, acts);
    ReachedInv(m, n, first, acts);
    assert ConsumerInv(s, c);
    if s.consumers[c].pc.Compare? {
      SlotTest(s.slots, Written(s), first, s.consumers[c].pc.v);
    }
  }

  // --- conservation ---------------------------------------------------------------

  lemma {:induction false} TotalsAddUp(cs: seq<Consumer>)
    requires forall j :: 0 <= j < |cs| ==>
               cs[j].sent == cs[j].begun + |cs[j].pending| + cs[j].merged &&
               cs[j].begun == cs[j].hits + cs[j].misses + Of(cs[j], Inside)
    ensures Total(cs, Sent) == Total(cs, Begun) + Total(cs, Pending) + Total(cs, Merged)
    ensures Total(cs, Begun) == Total(cs, Hits) + Total(cs, Misses) + Total(cs, Inside)
  {
    if cs != [] {
      TotalsAddUp(cs[1..]);
    }
  }

  lemma OneMore(k: nat, n: nat)
    ensures k * (n + 1) == k + k * n
  {
  }

  lemma {:induction false} TotalBound(cs: seq<Consumer>, y: Tally, k: nat)
    requires forall j :: 0 <= j < |cs| ==> Of(cs[j], y) <= k
    ensures Total(cs, y) <= k * |cs|
    ensures Total(cs, y) == k * |cs| ==> forall j :: 0 <= j < |cs| ==> Of(cs[j], y) == k
    ensures (forall j :: 0 <= j < |cs| ==> Of(cs[j], y) == k) ==> Total(cs, y) == k * |cs|
  {
    hide Of;
    if cs != [] {
      var rest := cs[1..];
      assert forall j :: 0 <= j < |rest| ==> rest[j] == cs[j + 1];
      TotalBound(rest, y, k);
      OneMore(k, |rest|);
      forall j | Total(cs, y) == k * |cs| && 0 <= j < |cs|
        ensures Of(cs[j], y) == k
      {
        assert j > 0 ==> cs[j] == rest[j - 1];
      }
    }
  }

  // Every signal sent started a handler, is still waiting, or was swallowed by one
  // that was; every handler that has begun is a hit, a miss, or still running.
  lemma SignalsAreConserved(m: nat, n: nat, first: seq<int>, acts: seq<Action>)
    requires |first| > 0
    ensures
      var s := Reached(m, n, first, acts);
      && Total(s.consumers, Sent) == Total(s.consumers, Begun) + Total(s.consumers, Pending) + Total(s.consumers, Merged)
      && Total(s.consumers, Begun) == Total(s.consumers, Hits) + Total(s.consumers, Misses) + Total(s.consumers, Inside)
      && Total(s.consumers, Sent) <= m * n
      && (s.producer == Finished ==> Total(s.consumers, Sent) == m * n)
  {
    var s := Reached(m, n, first, acts);
    ReachedInv(m, n, first, acts);
    forall j | 0 <= j < |s.consumers|
      ensures s.consumers[j].sent == s.consumers[j].begun + |s.consumers[j].pending| + s.consumers[j].merged
      ensures s.consumers[j].begun == s.consumers[j].hits + s.consumers[j].misses + Of(s.consumers[j], Inside)
      ensures Of(s.consumers[j], Sent) <= m && (s.producer == Finished ==> Of(s.consumers[j], Sent) == m)
    {
      assert ConsumerInv(s, j);
    }
    TotalsAddUp(s.consumers);
    TotalBound(s.consumers, Sent, m);
  }

  // Lost updates only ever make the shared counters too small, and never bring one
  // that has been counted up back to nothing.
  lemma CountersBounded(m: nat, n: nat, first: seq<int>, acts: seq<Action>)
    requires |first| > 0
    ensures
      var s := Reached(m, n, first, acts);
      && 0 <= s.cnt <= Total(s.consumers, Hits) && (s.cnt == 0 <==> Total(s.consumers, Hits) == 0)
      && 0 <= s.lossCnt <= Total(s.consumers, Misses) && (s.lossCnt == 0 <==> Total(s.consumers, Misses) == 0)
      && s.cnt + s.lossCnt <= m * n
  {
    ReachedInv(m, n, first, acts);
    SignalsAreConserved(m, n, first, acts);
  }

  // SP_HW10.c:141
  function LossRate(s: State): real
    requires s.m * |s.consumers| > 0
  {
    1.0 - s.cnt as real / (s.m * |s.consumers|) as real
  }

  lemma Ratio(a: int, b: int)
    requires 0 <= a <= b && b > 0
    ensures 0.0 <= a as real / b as real <= 1.0
    ensures a as real / b as real == 1.0 <==> a == b
  {
    var q, d := a as real / b as real, b as real;
    assert q * d == a as real;
    assert q > 1.0 ==> q * d > d;
    assert q < 0.0 ==> q * d < 0.0;
  }

  lemma Share(a: int, b: int)
    requires b > 0
    ensures (1.0 - a as real / b as real) * b as real == (b - a) as real
  {
    var q, d := a as real / b as real, b as real;
    assert q * d == a as real;
    assert (1.0 - q) * d == d - q * d;
  }

  // It is the share of the m*n messages that have not been counted.
  lemma LossRateIsShare(m: nat, n: nat, first: seq<int>, acts: seq<Action>)
    requires |first| > 0 && m * n > 0
    ensures var s := Reached(m, n, first, acts); LossRate(s) * (m * n) as real == (m * n - s.cnt) as real
  {
    hide Run;
    Share(Reached(m, n, first, acts).cnt, m * n);
  }

  // The printed rate lies between 0 and 1, and is 0 only if every consumer's handler
  // found every message in place.
  lemma LossRateMeans(m: nat, n: nat, first: seq<int>, acts: seq<Action>)
    requires |first| > 0 && m * n > 0
    ensures
      var s := Reached(m, n, first, acts);
      && 0.0 <= LossRate(s) <= 1.0
      && (LossRate(s) == 0.0 ==>
            forall j :: 0 <= j < n ==>
              s.consumers[j].hits == m && s.consumers[j].misses == s.consumers[j].merged == 0 &&
              s.consumers[j].pending == [] && s.consumers[j].pc == Paused)
  {
    var s := Reached(m, n, first, acts);
    ReachedInv(m, n, first, acts);
    CountersBounded(m, n, first, acts);
    Ratio(s.cnt, m * n);
    if LossRate(s) == 0.0 {
      assert s.cnt == m * n;
      forall j | 0 <= j < n
        ensures ConsumerInv(s, j) && Of(s.consumers[j], Hits) <= m
      {
        assert ConsumerInv(s, j);
      }
      TotalBound(s.consumers, Hits, m);
      forall j | 0 <= j < n
        ensures
          s.consumers[j].hits == m && s.consumers[j].misses == s.consumers[j].merged == 0 &&
          s.consumers[j].pending == [] && s.consumers[j].pc == Paused
      {
        assert ConsumerInv(s, j) && Of(s.consumers[j], Hits) == m;
      }
    }
  }

  // --- when nothing can be missed ---------------------------------------------------

  // No handler has found its message overwritten.
  ghost predicate NoMiss(s: State) {
    forall j :: 0 <= j < |s.consumers| ==>
      s.consumers[j].misses == 0 &&
      (s.consumers[j].pc.Load? || s.consumers[j].pc.StoreBack? ==> s.consumers[j].pc.hit)
  }

  lemma {:induction false} LargeBufferNeverMisses(s: State, first: seq<int>, acts: seq<Action>)
    requires Inv(s, first) && s.m <= |s.slots| && NoMiss(s)
    ensures NoMiss(Run(s, acts))
    decreases |acts|
  {
    if acts != [] {
      StepNeverMisses(s, first, acts[0]);
      hide Inv, NoMiss, Step;
      LargeBufferNeverMisses(Step(s, acts[0]), first, acts[1..]);
    }
  }

  lemma StepNeverMisses(s: State, first: seq<int>, a: Action)
    requires Inv(s, first) && s.m <= |s.slots| && NoMiss(s)
    ensures Inv(Step(s, a), first) && NoMiss(Step(s, a))
  {
    hide SlotsHold, CounterInv, ConsumerInv, Written;
    match a {
      case Produce => ProduceKeepsInv(s, first);
      case Handle(c) =>
        if c < |s.consumers| {
          HandleKeepsInv(s, first, c);
          if s.consumers[c].pc.Compare? {
            NothingOverwritten(s, first, c);
          }
        }
    }
  }

  lemma NothingOverwritten(s: State, first: seq<int>, c: nat)
    requires Inv(s, first) && s.m <= |s.slots| && c < |s.consumers| && s.consumers[c].pc.Compare?
    ensures var v := s.consumers[c].pc.v; s.slots[v % |s.slots|] == v
  {
    hide SlotsHold, CounterInv;
    assert ConsumerInv(s, c);
    SlotTest(s.slots, Written(s), first, s.consumers[c].pc.v);
  }

  // The producer alone can go on until w messages are written.
  lemma {:induction false} ProduceUntil(s: State, first: seq<int>, w: nat) returns (acts: seq<Action>)
    requires Inv(s, first) && Written(s) <= w <= s.m
    ensures
      var t := Run(s, acts);
      Inv(t, first) && Written(t) == w &&
      forall j :: 0 <= j < |s.consumers| ==> t.consumers[j].pc == s.consumers[j].pc
    decreases w - Written(s), if s.producer.Send? then |s.consumers| + 1 - s.producer.j else 0
  {
    if Written(s) == w {
      acts := [];
    } else {
      ProduceKeepsInv(s, first);
      var rest := ProduceUntil(Step(s, Produce), first, w);
      acts := [Produce] + rest;
    }
  }

  lemma {:induction false} RunConcat(s: State, a: seq<Action>, b: seq<Action>)
    requires |s.slots| > 0
    ensures Run(s, a + b) == Run(Run(s, a), b)
    decreases |a|
  {
    if a == [] {
      assert a + b == b;
    } else {
      assert (a + b)[1..] == a[1..] + b;
      RunConcat(Step(s, a[0]), a[1..], b);
    }
  }

  lemma RunOne(s: State, a: Action)
    requires |s.slots| > 0
    ensures Run(s, [a]) == Step(s, a)
  {
    assert [a][1..] == [];
  }

  lemma {:induction false} OneIsInTotal(cs: seq<Consumer>, y: Tally, j: nat)
    requires j < |cs|
    ensures Of(cs[j], y) <= Total(cs, y)
  {
    if j > 0 {
      OneIsInTotal(cs[1..], y, j - 1);
    }
  }

  lemma RunTwo(s: State, a: Action, b: Action)
    requires |s.slots| > 0
    ensures Run(s, [a, b]) == Step(Step(s, a), b)
  {
    hide Step;
    assert [a, b] == [a] + [b];
    RunConcat(s, [a], [b]);
    RunOne(s, a);
    RunOne(Step(s, a), b);
  }

  lemma RunThree(s: State, a: Action, b: Action, c: Action)
    requires |s.slots| > 0
    ensures Run(s, [a, b, c]) == Step(Step(Step(s, a), b), c)
  {
    hide Step;
    assert [a, b, c] == [a] + [b, c];
    RunConcat(s, [a], [b, c]);
    RunOne(s, a);
    RunTwo(Step(s, a), b, c);
  }

  // A handler that is about to test for a message that is gone counts a miss.
  lemma OverwrittenIsMissed(s: State, first: seq<int>, c: nat)
    requires Inv(s, first) && c < |s.consumers| && s.consumers[c].pc.Compare?
    requires |s.slots| > 0 && s.consumers[c].pc.v + |s.slots| < Written(s)
    ensures Total(Run(s, [Handle(c), Handle(c), Handle(c)]).consumers, Misses) > 0
  {
    hide SlotsHold, CounterInv, ConsumerInv, Run, Total, Written;
    SlotTest(s.slots, Written(s), first, s.consumers[c].pc.v);
    RunThree(s, Handle(c), Handle(c), Handle(c));
    OneIsInTotal(Run(s, [Handle(c), Handle(c), Handle(c)]).consumers, Misses, c);
  }

  // Consumer 0 takes the signal for message 0 and is overtaken by message b.
  lemma SmallBufferMisses(m: nat, n: nat, first: seq<int>) returns (acts: seq<Action>)
    requires |first| > 0 && n > 0 && m > |first|
    ensures Total(Reached(m, n, first, acts).consumers, Misses) > 0
  {
    hide Run, Inv, Total;
    var s0 := Init(m, n, first);
    var start := [Produce, Produce, Handle(0)];
    var s1 := Run(s0, start);
    RunThree(s0, Produce, Produce, Handle(0));
    assert s1.consumers[0].pc == Compare(0) && Written(s1) <= 2;
    ReachedInv(m, n, first, start);
    hide Init, Step;
    var on := ProduceUntil(s1, first, |first| + 1);
    var s2 := Run(s1, on);
    var end := [Handle(0), Handle(0), Handle(0)];
    OverwrittenIsMissed(s2, first, 0);
    RunConcat(s0, start, on);
    RunConcat(s0, start + on, end);
    acts := start + on + end;
  }

  ghost predicate NeverMisses(m: nat, n: nat, first: seq<int>)
    requires |first| > 0
  {
    forall acts :: Total(Reached(m, n, first, acts).consumers, Misses) == 0
  }

  // No run can miss a message exactly when the ring has a slot for every message, or
  // there is nobody to miss it.
  lemma MissBoundary(m: nat, n: nat, first: seq<int>)
    requires |first| > 0
    ensures NeverMisses(m, n, first) <==> m <= |first| || n == 0
  {
    if m <= |first| || n == 0 {
      forall acts
        ensures Total(Reached(m, n, first, acts).consumers, Misses) == 0
      {
        if n > 0 {
          InitInv(m, n, first);
          LargeBufferNeverMisses(Init(m, n, first), first, acts);
        }
        TotalBound(Reached(m, n, first, acts).consumers, Misses, 0);
      }
    } else {
      var acts := SmallBufferMisses(m, n, first);
    }
  }

  // --- when the counters are exact ---------------------------------------------------

  predicate AllPaused(s: State) {
    forall j :: 0 <= j < |s.consumers| ==> s.consumers[j].pc == Paused
  }

  predicate Exact(s: State) {
    s.cnt == Total(s.consumers, Hits) && s.lossCnt == Total(s.consumers, Misses)
  }

  // With at most one consumer a counter is current and so is the register it is in.
  predicate OneCounter(s: State) {
    |s.consumers| <= 1 && Exact(s) &&
    forall j :: 0 <= j < |s.consumers| && s.consumers[j].pc.StoreBack? ==>
      s.consumers[j].pc.reg == if s.consumers[j].pc.hit then s.cnt else s.lossCnt
  }

  lemma {:induction false} OneConsumerIsExact(s: State, acts: seq<Action>)
    requires |s.slots| > 0 && OneCounter(s)
    ensures OneCounter(Run(s, acts))
    decreases |acts|
  {
    if acts != [] {
      var t := Step(s, acts[0]);
      if s.consumers != [] {
        TotalUpdate(s.consumers, Hits, 0, t.consumers[0]);
        TotalUpdate(s.consumers, Misses, 0, t.consumers[0]);
        assert t.consumers == s.consumers[0 := t.consumers[0]];
      }
      OneConsumerIsExact(t, acts[1..]);
    }
  }

  // With nothing to send nothing happens.
  lemma {:induction false} NoMessagesNothing(s: State, acts: seq<Action>)
    requires |s.slots| > 0 && s.producer == Finished
    requires forall j :: 0 <= j < |s.consumers| ==> s.consumers[j] == NewConsumer()
    ensures Run(s, acts) == s
    decreases |acts|
  {
    if acts != [] {
      NoMessagesNothing(s, acts[1..]);
    }
  }

  function BothHandle(s: State): State
    requires |s.slots| > 0
  {
    Step(Step(s, Handle(0)), Handle(1))
  }

  // Both consumers load before either stores: two hits, counted once.
  lemma BothLoad(s: State)
    requires |s.slots| > 0 && |s.consumers| >= 2 && s.slots[0] == 0 && s.cnt == 0 && AllPaused(s)
    requires s.consumers[0].pending == [0] && s.consumers[1].pending == [0]
    requires forall j :: 0 <= j < |s.consumers| ==> s.consumers[j].hits == 0
    ensures
      var t := BothHandle(BothHandle(BothHandle(BothHandle(s))));
      AllPaused(t) && t.cnt == 1 && Total(t.consumers, Hits) == 2
  {
    hide Total;
    var s2 := BothHandle(s);
    assert s2.consumers[0].pc == Compare(0) && s2.consumers[1].pc == Compare(0);
    var s4 := BothHandle(BothHandle(s2));
    assert s4.consumers[0].pc == StoreBack(0, true, 0) && s4.consumers[1].pc == StoreBack(0, true, 0);
    TwoHits(BothHandle(s4).consumers);
  }

  lemma LostUpdate(m: nat, n: nat, first: seq<int>) returns (acts: seq<Action>)
    requires |first| > 0 && n >= 2 && m >= 1
    ensures
      var s := Reached(m, n, first, acts);
      AllPaused(s) && s.cnt == 1 && Total(s.consumers, Hits) == 2
  {
    hide Run, Total, BothHandle;
    var s0 := Init(m, n, first);
    var s1 := Step(Step(Step(s0, Produce), Produce), Produce);
    BothLoad(s1);
    hide Step, Init, AllPaused;
    var both := [Handle(0), Handle(1)];
    var send := [Produce, Produce, Produce];
    RunThree(s0, Produce, Produce, Produce);
    RunBoth(s0, send);
    RunBoth(s0, send + both);
    RunBoth(s0, send + both + both);
    RunBoth(s0, send + both + both + both);
    acts := send + both + both + both + both;
  }

  lemma RunBoth(s: State, acts: seq<Action>)
    requires |s.slots| > 0
    ensures Run(s, acts + [Handle(0), Handle(1)]) == BothHandle(Run(s, acts))
  {
    hide Run, Step;
    RunConcat(s, acts, [Handle(0), Handle(1)]);
    RunTwo(Run(s, acts), Handle(0), Handle(1));
  }

  lemma TwoHits(cs: seq<Consumer>)
    requires |cs| >= 2 && cs[0].hits == cs[1].hits == 1
    requires forall j :: 2 <= j < |cs| ==> cs[j].hits == 0
    ensures Total(cs, Hits) == 2
  {
    var rest := cs[1..][1..];
    assert rest == cs[2..];
    TotalBound(rest, Hits, 0);
  }

  ghost predicate ExactBetweenHandlers(m: nat, n: nat, first: seq<int>)
    requires |first| > 0
  {
    forall acts :: AllPaused(Reached(m, n, first, acts)) ==> Exact(Reached(m, n, first, acts))
  }

  // The counters are right whenever no handler is running, in every run, exactly when
  // there is at most one consumer or nothing to count.
  lemma CounterBoundary(m: nat, n: nat, first: seq<int>)
    requires |first| > 0
    ensures ExactBetweenHandlers(m, n, first) <==> n <= 1 || m == 0
  {
    var s0 := Init(m, n, first);
    NothingAtFirst(s0.consumers, Hits);
    NothingAtFirst(s0.consumers, Misses);
    if n <= 1 || m == 0 {
      forall acts
        ensures Exact(Reached(m, n, first, acts))
      {
        if m == 0 {
          NoMessagesNothing(s0, acts);
        } else {
          OneConsumerIsExact(s0, acts);
        }
      }
    } else {
      var acts := LostUpdate(m, n, first);
    }
  }
}
