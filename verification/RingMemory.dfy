// The ring buffer in the form the program has it: slots and counters in memory, changed
// in place by the producer's loop and by the consumers' handlers.
module RingMemory {
  import opened RingSignals

  // Where a consumer is, and its pending signal; the rest of Consumer is history.
  datatype Handler = Handler(pc: HandlerPc, pending: seq<nat>)

  function HandlerOf(c: Consumer): Handler {
    Handler(c.pc, c.pending)
  }

  class Shared {
    const m: nat
    const slots: array<int>
    var i: nat
    var producer: ProducerPc
    var handlers: seq<Handler>
    ghost var consumers: seq<Consumer>
    var cnt: int
    var lossCnt: int

    ghost predicate Valid()
      reads this
    {
      |handlers| == |consumers| && forall j :: 0 <= j < |handlers| ==> handlers[j] == HandlerOf(consumers[j])
    }

    ghost function View(): State
      reads this, slots
    {
      State(m, i, producer, slots[..], consumers, cnt, lossCnt)
    }

    constructor (m: nat, n: nat, slots: array<int>)
      ensures Valid() && this.slots == slots && View() == Init(m, n, slots[..])
    {
      this.m, this.slots := m, slots;
      i, producer := 0, if m == 0 then Finished else Store;
      handlers, consumers := seq(n, _ => Handler(Paused, [])), seq(n, _ => NewConsumer());
      cnt, lossCnt := 0, 0;
    }

    // The end of one turn of the inner loop: the next consumer, or the next message.
    method Advance(j: nat)
      requires Valid()
      modifies this`i, this`producer
      ensures View() == NextSend(old(View()), j)
    {
      if j < |handlers| {
        producer := Send(j);
      } else {
        i := i + 1;
        producer := if i < m then Store else Finished;
      }
    }

    // One operation of the loop of SP_HW10.c:115-137.
    method RunProducer()
      requires slots.Length > 0 && Valid()
      modifies this, slots
      ensures Valid() && View() == Step(old(View()), Produce)
    {
      match producer {
        case Store =>
          slots[i % slots.Length] := i;
          assert slots[..] == old(slots[..])[i % slots.Length := i];
          Advance(0);
        case Send(j) =>
          if j < |handlers| {
            ghost var c := consumers[j];
            if handlers[j].pending == [] {
              handlers := handlers[j := handlers[j].(pending := [i])];
              consumers := consumers[j := c.(pending := [i], sent := c.sent + 1)];
            } else {
              consumers := consumers[j := c.(merged := c.merged + 1, sent := c.sent + 1)];
            }
            Advance(j + 1);
          }
        case Finished =>
      }
    }

    // One operation of a consumer: taking a signal, or one of the handler's,
    // SP_HW10.c:34-43.
    method RunHandler(who: nat)
      requires slots.Length > 0 && Valid()
      modifies this
      ensures Valid() && View() == Step(old(View()), Handle(who))
    {
      if who >= |handlers| {
        return;
      }
      var h := handlers[who];
      ghost var c := consumers[who];
      match h.pc {
        case Paused =>
          if h.pending != [] {
            h := Handler(Compare(h.pending[0]), []);
            c := c.(begun := c.begun + 1);
          }
        case Compare(v) =>
          var index := v % slots.Length;
          h := h.(pc := Load(v, v == slots[index]));
        case Load(v, hit) =>
          var reg := if hit then cnt else lossCnt;
          h := h.(pc := StoreBack(v, hit, reg));
        case StoreBack(v, hit, reg) =>
          h := h.(pc := Paused);
          if hit {
            cnt := reg + 1;
            c := c.(hits := c.hits + 1);
          } else {
            lossCnt := reg + 1;
            c := c.(misses := c.misses + 1);
          }
      }
      handlers := handlers[who := h];
      consumers := consumers[who := c.(pc := h.pc, pending := h.pending)];
    }

    // A whole schedule.
    method RunSchedule(acts: seq<Action>)
      requires slots.Length > 0 && Valid()
      modifies this, slots
      ensures Valid() && View() == Run(old(View()), acts)
    {
      var k := 0;
      while k < |acts|
        invariant 0 <= k <= |acts| && Valid()
        invariant Run(View(), acts[k..]) == Run(old(View()), acts)
      {
        assert acts[k..][0] == acts[k] && acts[k..][1..] == acts[k + 1..];
        match acts[k] {
          case Produce => RunProducer();
          case Handle(c) => RunHandler(c);
        }
        k := k + 1;
      }
    }
  }
}
