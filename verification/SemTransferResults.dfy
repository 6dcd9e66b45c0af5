// Safety over every run of the transfer, a bound on how long any run can be, and what
// the two named semaphores are left with.
module SemTransferResults {
  import opened Common
  import opened SemTransfer

  // From fresh semaphores (writer.c:45, 49) and a buffer with arbitrary contents.
  function Fresh(input: seq<byte>, cnt: int, buf: seq<byte>): State {
    Init(1, 0, input, cnt, buf)
  }

  function Reached(input: seq<byte>, cnt: int, buf: seq<byte>, acts: seq<Action>): (s: State)
    requires |buf| == BUF_SIZE
    ensures WellFormed(s) && s.input == input
  {
    Run(Fresh(input, cnt, buf), acts)
  }

  lemma ReachedInv(input: seq<byte>, cnt: int, buf: seq<byte>, acts: seq<Action>)
    requires |buf| == BUF_SIZE
    ensures Inv(Reached(input, cnt, buf, acts))
  {
    assert input[..0] == [];
    RunKeepsInv(Fresh(input, cnt, buf), acts);
  }

  // --- safety ---------------------------------------------------------------------------

  // Only one side at a time is between its wait and its post.
  lemma Alternation(input: seq<byte>, cnt: int, buf: seq<byte>, acts: seq<Action>)
    requires |buf| == BUF_SIZE
    ensures
      var s := Reached(input, cnt, buf, acts);
      && !(WriterInside(s) && ReaderInside(s))
      && 0 <= s.writeSem && 0 <= s.readSem
      && (s.writeSem + s.readSem == 1 <==> !WriterInside(s) && !ReaderInside(s) && s.reader != RDone)
  {
    ReachedInv(input, cnt, buf, acts);
  }

  lemma PrefixLength(a: seq<byte>, b: seq<byte>, c: seq<byte>)
    requires a + b == c
    ensures a <= c
  {
  }

  // Operations in a run that read at least a byte.
  function FullReads(s: State, acts: seq<Action>): nat
    requires WellFormed(s)
    decreases |acts|
  {
    if acts == [] then 0
    else (if Step(s, acts[0]).taken > s.taken then 1 else 0) + FullReads(Step(s, acts[0]), acts[1..])
  }

  lemma {:induction false} ChunksAreReads(s: State, acts: seq<Action>)
    requires WellFormed(s)
    ensures Run(s, acts).chunks == s.chunks + FullReads(s, acts)
    decreases |acts|
  {
    if acts != [] {
      ChunksAreReads(Step(s, acts[0]), acts[1..]);
    }
  }

  // What has come out is always the beginning of what went in; once the reader is done
  // it is all of it, with the right count of bytes and of reads that were not empty.
  lemma OutputIsPrefix(input: seq<byte>, cnt: int, buf: seq<byte>, acts: seq<Action>)
    requires |buf| == BUF_SIZE
    ensures
      var s := Reached(input, cnt, buf, acts);
      && s.out <= input
      && (s.reader == RDone ==>
            s.out == input && s.bytes == |input| && s.xfrs == s.chunks == FullReads(Fresh(input, cnt, buf), acts) &&
            s.writeSem == 0 && s.readSem == 0)
  {
    var s := Reached(input, cnt, buf, acts);
    ReachedInv(input, cnt, buf, acts);
    ChunksAreReads(Fresh(input, cnt, buf), acts);
    if s.writer.WCount? {
      PrefixLength(s.out, s.buf[..s.writer.n], input[..s.taken]);
    } else if BufferFull(s) {
      PrefixLength(s.out, s.buf[..s.cnt], input[..s.taken]);
    }
  }

  // The writer looks at cnt after giving its turn away and still finds the size of its
  // own read there.
  lemma TestSeesOwnCount(input: seq<byte>, cnt: int, buf: seq<byte>, acts: seq<Action>)
    requires |buf| == BUF_SIZE
    ensures
      var s := Reached(input, cnt, buf, acts);
      s.writer == WTest ==> s.cnt == s.last && (s.cnt == 0 ==> s.taken == |input|)
  {
    ReachedInv(input, cnt, buf, acts);
  }

  // --- progress --------------------------------------------------------------------------

  // Operations the writer, and the reader, have left at most.
  function WriterRank(s: State): nat
    requires WellFormed(s)
  {
    var left := |s.input| - s.taken;
    match s.writer
    case WWait => 5 * left + 5
    case WRead => 5 * left + 4
    case WCount(n) => if n > 0 then 5 * left + 8 else 3
    case WPost => if s.cnt != 0 then 5 * left + 7 else 2
    case WTest => if s.cnt != 0 then 5 * left + 6 else 1
    case WDone => 0
  }

  // A chunk the reader has not started on.
  function Ahead(s: State): nat {
    if (s.writer.WCount? && s.writer.n > 0) || (s.writer == WPost && s.cnt > 0) || (s.readSem == 1 && s.cnt > 0) then 1 else 0
  }

  function ReaderRank(s: State): nat
    requires WellFormed(s)
  {
    var left := |s.input| - s.taken;
    match s.reader
    case RWait => 6 * (left + Ahead(s)) + 2
    case RTest => if s.cnt != 0 then 6 * left + 7 else 1
    case RAdd => 6 * left + 6
    case RWrite => 6 * left + 5
    case RPost => 6 * left + 4
    case RNext => 6 * (left + Ahead(s)) + 3
    case RDone => 0
  }

  lemma RankDecreases(s: State, a: Action)
    requires Inv(s) && Enabled(s, a)
    ensures WriterRank(Step(s, a)) + ReaderRank(Step(s, a)) < WriterRank(s) + ReaderRank(s)
  {
  }

  // Operations in a run that were not blocked.
  function Effective(s: State, acts: seq<Action>): nat
    requires WellFormed(s)
    decreases |acts|
  {
    if acts == [] then 0 else (if Enabled(s, acts[0]) then 1 else 0) + Effective(Step(s, acts[0]), acts[1..])
  }

  lemma {:induction false} EffectiveBounded(s: State, acts: seq<Action>)
    requires Inv(s)
    ensures Effective(s, acts) + WriterRank(Run(s, acts)) + ReaderRank(Run(s, acts)) <= WriterRank(s) + ReaderRank(s)
    decreases |acts|
  {
    if acts != [] {
      StepKeepsInv(s, acts[0]);
      if Enabled(s, acts[0]) {
        RankDecreases(s, acts[0]);
      }
      EffectiveBounded(Step(s, acts[0]), acts[1..]);
    }
  }

  // No run has more than 11 operations a byte and 7 for the end, and one that has come to
  // a stop has come to its end: so every schedule that lets whoever can move move ends.
  lemma EveryRunEnds(input: seq<byte>, cnt: int, buf: seq<byte>, acts: seq<Action>)
    requires |buf| == BUF_SIZE
    ensures Effective(Fresh(input, cnt, buf), acts) <= 11 * |input| + 7
    ensures
      var s := Reached(input, cnt, buf, acts);
      (forall a :: !Enabled(s, a)) <==> s.writer == WDone && s.reader == RDone
  {
    ReachedInv(input, cnt, buf, []);
    ReachedInv(input, cnt, buf, acts);
    EffectiveBounded(Fresh(input, cnt, buf), acts);
    var s := Reached(input, cnt, buf, acts);
    if forall a :: !Enabled(s, a) {
      assert !Enabled(s, Writer(0)) && !Enabled(s, Reader);
    }
  }

  // --- a second transfer -----------------------------------------------------------------

  lemma {:induction false} ZeroBlocks(s: State, acts: seq<Action>)
    requires WellFormed(s) && s.writeSem == 0 && s.readSem == 0 && s.writer == WWait && s.reader == RWait
    ensures Run(s, acts) == s
    decreases |acts|
  {
    if acts != [] {
      ZeroBlocks(s, acts[1..]);
    }
  }

  // The last turn is never given back and the names are never unlinked, so sem_open finds
  // both semaphores at 0 the next time: a second writer and reader wait for good.
  lemma SecondTransferBlocks(input: seq<byte>, cnt: int, buf: seq<byte>, acts: seq<Action>, again: seq<byte>, more: seq<Action>)
    requires |buf| == BUF_SIZE
    ensures
      var s := Reached(input, cnt, buf, acts);
      s.writer == WDone && s.reader == RDone ==>
        var t := Init(s.writeSem, s.readSem, again, s.cnt, s.buf);
        Run(t, more) == t && t.writer == WWait && t.out == []
  {
    var s := Reached(input, cnt, buf, acts);
    ReachedInv(input, cnt, buf, acts);
    if s.reader == RDone {
      ZeroBlocks(Init(s.writeSem, s.readSem, again, s.cnt, s.buf), more);
    }
  }
}
