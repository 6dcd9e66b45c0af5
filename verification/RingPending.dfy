// Which messages a consumer's handler runs for: always the first one signalled since the
// signal before was taken.
module RingPending {
  import opened RingSignals
  import opened RingResults

  // From a moment with nothing pending and from signals sent: as long as no handler begins,
  // message from is the one that waits, and all behind it are merged.
  predicate WaitsSince(c: Consumer, from: nat, merged: nat) {
    && c.sent >= from
    && c.pending == (if c.sent > from then [from] else [])
    && c.merged == merged + if c.sent > from then c.sent - from - 1 else 0
  }

  lemma StepWaits(s: State, first: seq<int>, a: Action, j: nat, from: nat, merged: nat)
    requires Inv(s, first) && j < |s.consumers| && WaitsSince(s.consumers[j], from, merged)
    ensures
      var t := Step(s, a);
      && t.consumers[j].begun >= s.consumers[j].begun
      && (t.consumers[j].begun == s.consumers[j].begun ==> WaitsSince(t.consumers[j], from, merged))
  {
    hide SlotsHold, CounterInv;
    assert ConsumerInv(s, j);
  }

  lemma StepKeeps(s: State, first: seq<int>, a: Action)
    requires Inv(s, first)
    ensures Inv(Step(s, a), first)
  {
    hide Inv;
    assert Step(s, a) == Run(s, [a]) by { RunOneOf(s, first, a); }
    RunKeepsInv(s, first, [a]);
  }

  lemma RunOneOf(s: State, first: seq<int>, a: Action)
    requires Inv(s, first)
    ensures |s.slots| > 0 && Run(s, [a]) == Step(s, a)
  {
    RunOne(s, a);
  }

  lemma {:induction false} BegunGrows(s: State, acts: seq<Action>, j: nat)
    requires |s.slots| > 0 && j < |s.consumers|
    ensures Run(s, acts).consumers[j].begun >= s.consumers[j].begun
    decreases |acts|
  {
    if acts != [] {
      BegunGrows(Step(s, acts[0]), acts[1..], j);
    }
  }

  lemma {:induction false} RunWaits(s: State, first: seq<int>, acts: seq<Action>, j: nat, from: nat, merged: nat)
    requires Inv(s, first) && j < |s.consumers| && WaitsSince(s.consumers[j], from, merged)
    requires Run(s, acts).consumers[j].begun == s.consumers[j].begun
    ensures WaitsSince(Run(s, acts).consumers[j], from, merged)
    decreases |acts|
  {
    hide Inv, WaitsSince, Step;
    if acts != [] {
      assert |s.slots| > 0 by { RunOneOf(s, first, acts[0]); }
      StepWaits(s, first, acts[0], j, from, merged);
      StepKeeps(s, first, acts[0]);
      BegunGrows(Step(s, acts[0]), acts[1..], j);
      RunWaits(Step(s, acts[0]), first, acts[1..], j, from, merged);
    }
  }

  // From any reached state with nothing pending, until the next handler begins: the first
  // message signalled waits, every later one is swallowed.
  lemma WaitsForFirst(s: State, first: seq<int>, acts: seq<Action>, j: nat)
    requires Inv(s, first) && j < |s.consumers| && s.consumers[j].pending == []
    ensures
      var c, c' := s.consumers[j], Run(s, acts).consumers[j];
      c'.begun == c.begun ==>
        && c'.pending == (if c'.sent > c.sent then [c.sent] else [])
        && c'.merged == c.merged + (if c'.sent > c.sent then c'.sent - c.sent - 1 else 0)
  {
    if Run(s, acts).consumers[j].begun == s.consumers[j].begun {
      RunWaits(s, first, acts, j, s.consumers[j].sent, s.consumers[j].merged);
    }
  }

  // The waiting value never changes before it is taken.
  lemma {:induction false} PendingStays(s: State, acts: seq<Action>, j: nat, v: nat)
    requires |s.slots| > 0 && j < |s.consumers| && s.consumers[j].pending == [v]
    requires Run(s, acts).consumers[j].begun == s.consumers[j].begun
    ensures Run(s, acts).consumers[j].pending == [v]
    decreases |acts|
  {
    if acts != [] {
      BegunGrows(Step(s, acts[0]), acts[1..], j);
      PendingStays(Step(s, acts[0]), acts[1..], j, v);
    }
  }

  // And the handler that begins next runs for it: for the message whose number is how many
  // signals the consumer had been sent when nothing was pending.
  lemma NextHandler(s: State, first: seq<int>, acts: seq<Action>, j: nat)
    requires Inv(s, first) && j < |s.consumers| && s.consumers[j].pending == []
    ensures
      var t := Run(s, acts);
      var u := Step(t, Handle(j));
      t.consumers[j].begun == s.consumers[j].begun && u.consumers[j].begun > t.consumers[j].begun ==>
        u.consumers[j].pc == Compare(s.consumers[j].sent)
  {
    WaitsForFirst(s, first, acts, j);
  }

  // A consumer none of whose handlers has begun has the first message waiting, if any.
  lemma FirstIsPending(m: nat, n: nat, first: seq<int>, acts: seq<Action>, j: nat)
    requires |first| > 0 && j < n
    ensures
      var c := Reached(m, n, first, acts).consumers[j];
      c.begun == 0 ==> c.pending == if c.sent > 0 then [0] else []
  {
    InitInv(m, n, first);
    WaitsForFirst(Init(m, n, first), first, acts, j);
  }
}
