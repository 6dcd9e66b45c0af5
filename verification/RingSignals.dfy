// The signal-driven ring buffer of SP_HW10: one producer, n consumers whose handlers
// interleave with it and with one another, and two counters without a lock.
module RingSignals {

  // The producer's loop: Store writes msg_num, Send(j) signals consumer j.
  datatype ProducerPc = Store | Send(j: nat) | Finished

  // A consumer pauses, or is inside its handler for the value v.
  datatype HandlerPc = Paused | Compare(v: nat) | Load(v: nat, hit: bool) | StoreBack(v: nat, hit: bool, reg: int)

  // pending is the one SIGUSR1 that can wait; the counts are history.
  datatype Consumer = Consumer(
    pc: HandlerPc, pending: seq<nat>,
    sent: nat, merged: nat, begun: nat, hits: nat, misses: nat)

  // cnt and lossCnt are the shared counters; m is the number of messages.
  datatype State = State(
    m: nat, i: nat, producer: ProducerPc, slots: seq<int>,
    consumers: seq<Consumer>, cnt: int, lossCnt: int)

  datatype Action = Produce | Handle(who: nat)

  function NewConsumer(): Consumer {
    Consumer(Paused, [], 0, 0, 0, 0, 0)
  }

  function Init(m: nat, n: nat, slots: seq<int>): State {
    State(m, 0, if m == 0 then Finished else Store, slots, seq(n, i => NewConsumer()), 0, 0)
  }

  // --- one atomic operation ---------------------------------------------------

  // After the sends of message i.
  function NextMessage(s: State): State {
    s.(i := s.i + 1, producer := if s.i + 1 < s.m then Store else Finished)
  }

  function NextSend(s: State, j: nat): State {
    if j < |s.consumers| then s.(producer := Send(j)) else NextMessage(s)
  }

  // sigqueue: a SIGUSR1 that is already pending swallows the new one.
  function Signalled(c: Consumer, v: nat): Consumer {
    if c.pending == [] then c.(pending := [v], sent := c.sent + 1)
    else c.(sent := c.sent + 1, merged := c.merged + 1)
  }

  function AfterProduce(s: State): State
    requires |s.slots| > 0
  {
    match s.producer
    case Store => NextSend(s.(slots := s.slots[s.i % |s.slots| := s.i]), 0)
    case Send(j) =>
      if j < |s.consumers| then
        NextSend(s.(consumers := s.consumers[j := Signalled(s.consumers[j], s.i)]), j + 1)
      else s
    case Finished => s
  }

  // SIGUSR1 is blocked while its handler runs.
  function AfterHandle(s: State, c: nat): State
    requires |s.slots| > 0 && c < |s.consumers|
  {
    var r := s.consumers[c];
    match r.pc
    case Paused =>
      if r.pending == [] then s
      else s.(consumers := s.consumers[c := r.(pc := Compare(r.pending[0]), pending := [], begun := r.begun + 1)])
    case Compare(v) =>
      s.(consumers := s.consumers[c := r.(pc := Load(v, s.slots[v % |s.slots|] == v))])
    case Load(v, hit) =>
      s.(consumers := s.consumers[c := r.(pc := StoreBack(v, hit, if hit then s.cnt else s.lossCnt))])
    case StoreBack(v, hit, reg) =>
      if hit then s.(cnt := reg + 1, consumers := s.consumers[c := r.(pc := Paused, hits := r.hits + 1)])
      else s.(lossCnt := reg + 1, consumers := s.consumers[c := r.(pc := Paused, misses := r.misses + 1)])
  }

  function Step(s: State, a: Action): (t: State)
    requires |s.slots| > 0
    ensures |t.slots| == |s.slots| && |t.consumers| == |s.consumers| && t.m == s.m
  {
    match a
    case Produce => AfterProduce(s)
    case Handle(c) => if c < |s.consumers| then AfterHandle(s, c) else s
  }

  function Run(s: State, acts: seq<Action>): (t: State)
    requires |s.slots| > 0
    ensures |t.slots| == |s.slots| && |t.consumers| == |s.consumers| && t.m == s.m
    decreases |acts|
  {
    if acts == [] then s else Run(Step(s, acts[0]), acts[1..])
  }

  // --- what the slots hold ------------------------------------------------------

  // Messages whose msg_num has been written.
  function Written(s: State): nat {
    if s.producer.Send? then s.i + 1 else s.i
  }

  // After messages 0 .. w-1 a slot holds the last of them that belongs to it, or what
  // the memory held at first.
  predicate SlotsHold(slots: seq<int>, w: nat, first: seq<int>) {
    && |slots| == |first| > 0
    && (forall i {:trigger i % |slots|} :: 0 <= i && w - |slots| <= i < w ==> slots[i % |slots|] == i)
    && (forall k :: w <= k < |slots| ==> slots[k] == first[k])
  }

  lemma Distribute(b: nat, p: int, q: int)
    requires b > 0
    ensures b * (p - q) == b * p - b * q
    ensures p > q ==> b * p - b * q >= b
    ensures p < q ==> b * p - b * q + b <= 0
  {
    Multiple(b, p - q);
  }

  lemma Multiple(b: nat, d: int)
    requires b > 0
    ensures d >= 1 ==> b * d >= b
    ensures d <= -1 ==> b * d + b <= 0
  {
  }

  // Two messages share a slot only at a multiple of b apart.
  lemma SameSlot(i: nat, j: nat, b: nat)
    requires b > 0 && i < j && i % b == j % b
    ensures j - i >= b
  {
    Distribute(b, j / b, i / b);
  }

  lemma OtherSlot(i: nat, j: nat, b: nat)
    requires b > 0 && i < j < i + b
    ensures i % b != j % b
  {
    if i % b == j % b {
      SameSlot(i, j, b);
    }
  }

  lemma FirstRound(w: nat, b: nat)
    requires w < b
    ensures w % b == w
  {
  }

  lemma StoreKeepsSlot(slots: seq<int>, w: nat, first: seq<int>, i: int)
    requires SlotsHold(slots, w, first) && 0 <= i && w - |slots| < i <= w
    ensures slots[w % |slots| := w][i % |slots|] == i
  {
    var b := |slots|;
    if i < w {
      OtherSlot(i, w, b);
      assert slots[i % b] == i;
    }
  }

  lemma StoreKeepsSlots(slots: seq<int>, w: nat, first: seq<int>)
    requires SlotsHold(slots, w, first)
    ensures SlotsHold(slots[w % |slots| := w], w + 1, first)
  {
    var b := |slots|;
    var slots' := slots[w % b := w];
    forall i {:trigger i % b} | 0 <= i && w + 1 - b <= i < w + 1
      ensures slots'[i % b] == i
    {
      StoreKeepsSlot(slots, w, first, i);
    }
    if w < b {
      FirstRound(w, b);
    }
  }

  // A message is in its slot exactly while no message b later has been written.
  lemma SlotTest(slots: seq<int>, w: nat, first: seq<int>, v: nat)
    requires SlotsHold(slots, w, first) && v < w
    ensures slots[v % |slots|] == v <==> w <= v + |slots|
  {
    var b := |slots|;
    if w > v + b {
      var i := LastInSlot(w, b, v);
      assert slots[i % b] == i;
    }
  }

  // The last message before w in the slot of v.
  lemma LastInSlot(w: nat, b: nat, v: nat) returns (i: nat)
    requires b > 0 && v + b < w
    ensures v < i < w && w - b <= i && i % b == v % b
  {
    i := v + b;
    SlotOfNext(v, b);
    while i + b < w
      invariant v < i < w && i % b == v % b
      decreases w - i
    {
      SlotOfNext(i, b);
      i := i + b;
    }
  }

  lemma SlotOfNext(v: nat, b: nat)
    requires b > 0
    ensures (v + b) % b == v % b
  {
    var q, r := v / b, v % b;
    assert v + b == b * (q + 1) + r;
    DivisionIsUnique(v + b, b, q + 1, r);
  }

  lemma DivisionIsUnique(x: nat, b: nat, q: nat, r: nat)
    requires b > 0 && x == b * q + r && r < b
    ensures x % b == r
  {
    Distribute(b, x / b, q);
  }

  // --- the invariant --------------------------------------------------------------

  // What can be added up over the consumers.
  datatype Tally = Sent | Merged | Pending | Begun | Inside | Hits | Misses

  function Of(c: Consumer, y: Tally): nat {
    match y
    case Sent => c.sent
    case Merged => c.merged
    case Pending => |c.pending|
    case Begun => c.begun
    case Inside => if c.pc == Paused then 0 else 1
    case Hits => c.hits
    case Misses => c.misses
  }

  function Total(cs: seq<Consumer>, y: Tally): nat {
    if cs == [] then 0 else Of(cs[0], y) + Total(cs[1..], y)
  }

  lemma {:induction false} TotalUpdate(cs: seq<Consumer>, y: Tally, j: nat, c: Consumer)
    requires j < |cs|
    ensures Total(cs[j := c], y) == Total(cs, y) - Of(cs[j], y) + Of(c, y)
  {
    if j == 0 {
      assert cs[0 := c][1..] == cs[1..];
    } else {
      assert cs[j := c][1..] == cs[1..][j - 1 := c];
      TotalUpdate(cs[1..], y, j - 1, c);
    }
  }

  // Signals a consumer has been sent, as the producer's counters say.
  function SentTo(s: State, j: nat): nat {
    if s.producer.Send? && j < s.producer.j then s.i + 1 else s.i
  }

  predicate ConsumerInv(s: State, j: nat)
    requires j < |s.consumers|
  {
    var c := s.consumers[j];
    && |c.pending| <= 1 && (c.pending != [] ==> c.pending[0] < Written(s))
    && (c.pc != Paused ==> c.pc.v < Written(s))
    && c.sent == SentTo(s, j)
    && c.sent == c.begun + |c.pending| + c.merged
    && c.begun == c.hits + c.misses + Of(c, Inside)
  }

  // A counter value in a consumer's register is no more than the true number, and a
  // counter that has been counted up is not 0.
  predicate RegisterInv(s: State, c: Consumer) {
    c.pc.StoreBack? ==> 0 <= c.pc.reg <= (if c.pc.hit then Total(s.consumers, Hits) else Total(s.consumers, Misses))
  }

  ghost predicate CounterInv(s: State) {
    && 0 <= s.cnt <= Total(s.consumers, Hits) && (s.cnt == 0 ==> Total(s.consumers, Hits) == 0)
    && 0 <= s.lossCnt <= Total(s.consumers, Misses) && (s.lossCnt == 0 ==> Total(s.consumers, Misses) == 0)
    && forall j :: 0 <= j < |s.consumers| ==> RegisterInv(s, s.consumers[j])
  }

  ghost predicate Inv(s: State, first: seq<int>) {
    && SlotsHold(s.slots, Written(s), first)
    && (s.producer == Finished <==> s.i == s.m) && s.i <= s.m
    && (s.producer.Send? ==> s.producer.j < |s.consumers|)
    && (forall j :: 0 <= j < |s.consumers| ==> ConsumerInv(s, j))
    && CounterInv(s)
  }

  lemma {:induction false} NothingAtFirst(cs: seq<Consumer>, y: Tally)
    requires forall j :: 0 <= j < |cs| ==> cs[j] == NewConsumer()
    ensures Total(cs, y) == 0
  {
    if cs != [] {
      NothingAtFirst(cs[1..], y);
    }
  }

  lemma InitInv(m: nat, n: nat, slots: seq<int>)
    requires |slots| > 0
    ensures Inv(Init(m, n, slots), slots)
  {
    NothingAtFirst(Init(m, n, slots).consumers, Hits);
    NothingAtFirst(Init(m, n, slots).consumers, Misses);
  }

  lemma ProduceKeepsConsumers(s: State, j: nat)
    requires |s.slots| > 0 && j < |s.consumers| && ConsumerInv(s, j)
    requires s.producer.Send? ==> s.producer.j < |s.consumers|
    ensures ConsumerInv(AfterProduce(s), j)
  {
  }

  lemma ProduceKeepsCounters(s: State)
    requires |s.slots| > 0 && CounterInv(s)
    ensures CounterInv(AfterProduce(s))
  {
    var t := AfterProduce(s);
    if s.producer.Send? && s.producer.j < |s.consumers| {
      var j := s.producer.j;
      TotalUpdate(s.consumers, Hits, j, t.consumers[j]);
      TotalUpdate(s.consumers, Misses, j, t.consumers[j]);
      assert t.consumers == s.consumers[j := t.consumers[j]];
    }
    forall k | 0 <= k < |t.consumers|
      ensures RegisterInv(t, t.consumers[k])
    {
      assert RegisterInv(s, s.consumers[k]);
    }
  }

  lemma ProduceKeepsInv(s: State, first: seq<int>)
    requires Inv(s, first)
    ensures Inv(AfterProduce(s), first)
  {
    if s.producer == Store {
      StoreKeepsSlots(s.slots, s.i, first);
    }
    ProduceKeepsCounters(s);
    forall j | 0 <= j < |s.consumers|
      ensures ConsumerInv(AfterProduce(s), j)
    {
      ProduceKeepsConsumers(s, j);
    }
  }

  lemma HandleKeepsConsumers(s: State, c: nat, j: nat)
    requires |s.slots| > 0 && c < |s.consumers| && j < |s.consumers| && ConsumerInv(s, j)
    ensures ConsumerInv(AfterHandle(s, c), j)
  {
    if j != c {
      assert AfterHandle(s, c).consumers[j] == s.consumers[j];
    }
  }

  lemma HandleKeepsCounters(s: State, c: nat)
    requires |s.slots| > 0 && c < |s.consumers| && CounterInv(s)
    ensures CounterInv(AfterHandle(s, c))
  {
    hide Total;
    var t := AfterHandle(s, c);
    TotalUpdate(s.consumers, Hits, c, t.consumers[c]);
    TotalUpdate(s.consumers, Misses, c, t.consumers[c]);
    assert t.consumers == s.consumers[c := t.consumers[c]];
    assert RegisterInv(s, s.consumers[c]);
    forall j | 0 <= j < |t.consumers|
      ensures RegisterInv(t, t.consumers[j])
    {
      assert RegisterInv(s, s.consumers[j]);
    }
  }

  lemma HandleKeepsInv(s: State, first: seq<int>, c: nat)
    requires Inv(s, first) && c < |s.consumers|
    ensures Inv(AfterHandle(s, c), first)
  {
    HandleKeepsCounters(s, c);
    forall j | 0 <= j < |s.consumers|
      ensures ConsumerInv(AfterHandle(s, c), j)
    {
      HandleKeepsConsumers(s, c, j);
    }
    assert AfterHandle(s, c).slots == s.slots;
  }

  lemma {:induction false} RunKeepsInv(s: State, first: seq<int>, acts: seq<Action>)
    requires Inv(s, first)
    ensures Inv(Run(s, acts), first)
    decreases |acts|
  {
    if acts != [] {
      match acts[0] {
        case Produce => ProduceKeepsInv(s, first);
        case Handle(c) => if c < |s.consumers| { HandleKeepsInv(s, first, c); }
      }
      RunKeepsInv(Step(s, acts[0]), first, acts[1..]);
    }
  }
}
