// SP_HW9/54_1: a writer and a reader hand one shared buffer to and fro with two named
// semaphores, until a read of nothing ends the transfer.
module SemTransfer {
  import opened Common

  const BUF_SIZE: nat := 4096

  // The next operation.  Count(n) is between read's return and the store to cnt.
  datatype WriterPc = WWait | WRead | WCount(n: nat) | WPost | WTest | WDone

  datatype ReaderPc = RWait | RTest | RAdd | RWrite | RPost | RNext | RDone

  // taken is how much of the input read has returned; last, the size of the latest
  // read, and chunks, the number of reads that returned something, are history.
  datatype State = State(
    writeSem: int, readSem: int, cnt: int, buf: seq<byte>,
    input: seq<byte>, taken: nat, last: int, chunks: nat,
    writer: WriterPc, reader: ReaderPc, out: seq<byte>, bytes: int, xfrs: int)

  // The schedule also says how many bytes a read would like to return.
  datatype Action = Writer(k: nat) | Reader

  // cnt and buf hold anything at first.
  function Init(writeSem: int, readSem: int, input: seq<byte>, cnt: int, buf: seq<byte>): State {
    State(writeSem, readSem, cnt, buf, input, 0, cnt, 0, WWait, RWait, [], 0, 0)
  }

  // --- one atomic operation -------------------------------------------------------------

  predicate Enabled(s: State, a: Action) {
    match a
    case Writer(_) => if s.writer == WWait then s.writeSem > 0 else s.writer != WDone
    case Reader => if s.reader == RWait then s.readSem > 0 else s.reader != RDone
  }

  predicate WellFormed(s: State) {
    s.taken <= |s.input| && |s.buf| == BUF_SIZE
  }

  function AfterWriter(s: State, k: nat): State
    requires WellFormed(s)
  {
    match s.writer
    case WWait => s.(writeSem := s.writeSem - 1, writer := WRead)
    case WRead =>
      var n := ReadSize(|s.input| - s.taken, BUF_SIZE, k);
      s.(buf := s.input[s.taken..s.taken + n] + s.buf[n..], taken := s.taken + n, writer := WCount(n), last := n,
         chunks := if n > 0 then s.chunks + 1 else s.chunks)
    case WCount(n) => s.(cnt := n, writer := WPost)
    case WPost => s.(readSem := s.readSem + 1, writer := WTest)
    case WTest => s.(writer := if s.cnt == 0 then WDone else WWait)
    case WDone => s
  }

  function AfterReader(s: State): State
    requires WellFormed(s)
  {
    match s.reader
    case RWait => s.(readSem := s.readSem - 1, reader := RTest)
    case RTest => s.(reader := if s.cnt == 0 then RDone else RAdd)
    case RAdd => s.(bytes := s.bytes + s.cnt, reader := RWrite)
    case RWrite => s.(out := s.out + (if 0 <= s.cnt <= BUF_SIZE then s.buf[..s.cnt] else []), reader := RPost)
    case RPost => s.(writeSem := s.writeSem + 1, reader := RNext)
    case RNext => s.(xfrs := s.xfrs + 1, reader := RWait)
    case RDone => s
  }

  function Step(s: State, a: Action): (t: State)
    requires WellFormed(s)
    ensures WellFormed(t) && t.input == s.input
  {
    if !Enabled(s, a) then s else
    match a
    case Writer(k) => AfterWriter(s, k)
    case Reader => AfterReader(s)
  }

  function Run(s: State, acts: seq<Action>): (t: State)
    requires WellFormed(s)
    ensures WellFormed(t) && t.input == s.input
    decreases |acts|
  {
    if acts == [] then s else Run(Step(s, acts[0]), acts[1..])
  }

  // --- the invariant ----------------------------------------------------------------------

  // Between its wait and its post.
  predicate WriterInside(s: State) {
    s.writer == WRead || s.writer.WCount? || s.writer == WPost
  }

  predicate ReaderInside(s: State) {
    s.reader == RTest || s.reader == RAdd || s.reader == RWrite || s.reader == RPost
  }

  function Tokens(s: State): int {
    s.writeSem + s.readSem + (if WriterInside(s) then 1 else 0) + (if ReaderInside(s) then 1 else 0)
  }

  // There is one turn, with a semaphore or with a process, until the reader keeps it.
  predicate TurnInv(s: State) {
    0 <= s.writeSem && 0 <= s.readSem && Tokens(s) == if s.reader == RDone then 0 else 1
  }

  // The buffer is the writer's to fill, or holds what the reader has still to write.
  predicate BufferEmpty(s: State) {
    s.writeSem == 1 || s.writer == WRead || s.reader == RPost
  }

  predicate BufferFull(s: State) {
    s.readSem == 1 || s.writer == WPost || s.reader == RTest || s.reader == RAdd || s.reader == RWrite
  }

  predicate DataInv(s: State)
    requires WellFormed(s)
  {
    && (BufferEmpty(s) ==> s.out == s.input[..s.taken])
    && (s.writer.WCount? ==>
          s.writer.n <= BUF_SIZE && s.out + s.buf[..s.writer.n] == s.input[..s.taken] &&
          (s.writer.n == 0 ==> s.taken == |s.input|) && s.last == s.writer.n)
    && (BufferFull(s) ==>
          0 <= s.cnt <= BUF_SIZE && s.out + s.buf[..s.cnt] == s.input[..s.taken] && (s.cnt == 0 ==> s.taken == |s.input|))
    && (s.reader == RAdd || s.reader == RWrite || s.reader == RPost ==> s.cnt > 0)
    && (s.reader == RDone ==> s.out == s.input && s.taken == |s.input| && s.cnt == 0)
    && (s.writer == WPost || s.writer == WTest ==> s.cnt == s.last)
    && (s.writer == WDone ==> s.cnt == 0 && s.taken == |s.input|)
    && (s.cnt == 0 && (s.writer == WTest || s.writer == WDone) ==> s.writeSem == 0)
    && ((BufferFull(s) && s.cnt == 0) || s.reader == RDone ==> s.writer == WPost || s.writer == WTest || s.writer == WDone)
  }

  // A chunk on its way, for which xfrs has not been counted up.
  function InFlight(s: State): nat {
    if (s.writer.WCount? && s.writer.n > 0) || (BufferFull(s) && s.cnt > 0) || s.reader == RPost then 1 else 0
  }

  predicate TallyInv(s: State) {
    && s.bytes == |s.out| + (if s.reader == RWrite then s.cnt else 0)
    && s.chunks == s.xfrs + InFlight(s) + (if s.reader == RNext then 1 else 0)
    && (s.reader == RNext || s.reader == RWait ==> s.writer != WDone || BufferFull(s))
  }

  predicate Inv(s: State) {
    WellFormed(s) && TurnInv(s) && DataInv(s) && TallyInv(s)
  }

  lemma ReadExtends(s: State, n: nat)
    requires WellFormed(s) && s.taken + n <= |s.input| && n <= BUF_SIZE && s.out == s.input[..s.taken]
    ensures
      var buf := s.input[s.taken..s.taken + n] + s.buf[n..];
      |buf| == BUF_SIZE && s.out + buf[..n] == s.input[..s.taken + n]
  {
    var buf := s.input[s.taken..s.taken + n] + s.buf[n..];
    assert buf[..n] == s.input[s.taken..s.taken + n];
  }

  lemma WriterKeepsInv(s: State, k: nat)
    requires Inv(s) && Enabled(s, Writer(k))
    ensures Inv(AfterWriter(s, k))
  {
    if s.writer == WRead {
      ReadExtends(s, ReadSize(|s.input| - s.taken, BUF_SIZE, k));
    }
  }

  lemma ReaderKeepsInv(s: State)
    requires Inv(s) && Enabled(s, Reader)
    ensures Inv(AfterReader(s))
  {
    if s.reader == RTest && s.cnt == 0 {
      assert s.buf[..0] == [] && s.input[..s.taken] == s.input;
    }
  }

  lemma StepKeepsInv(s: State, a: Action)
    requires Inv(s)
    ensures Inv(Step(s, a))
  {
    if Enabled(s, a) {
      match a
      case Writer(k) => WriterKeepsInv(s, k);
      case Reader => ReaderKeepsInv(s);
    }
  }

  lemma {:induction false} RunKeepsInv(s: State, acts: seq<Action>)
    requires Inv(s)
    ensures Inv(Run(s, acts))
    decreases |acts|
  {
    if acts != [] {
      StepKeepsInv(s, acts[0]);
      RunKeepsInv(Step(s, acts[0]), acts[1..]);
    }
  }
}
