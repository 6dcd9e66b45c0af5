// The transfer in the form the programs have it: two semaphores and one buffer in memory,
// and the loops of writer.c and reader.c.
module SharedBuffer {
  import opened Common
  import opened SemTransfer

  class Shm {
    const input: seq<byte>
    const buf: array<byte>
    var cnt: int
    var writeSem: int
    var readSem: int
    var taken: nat
    ghost var last: int
    ghost var chunks: nat
    var writer: WriterPc
    var reader: ReaderPc
    var out: seq<byte>
    var bytes: int
    var xfrs: int

    ghost function View(): State
      reads this, buf
    {
      State(writeSem, readSem, cnt, buf[..], input, taken, last, chunks, writer, reader, out, bytes, xfrs)
    }

    constructor (input: seq<byte>, buf: array<byte>, cnt: int)
      ensures this.buf == buf && this.input == input && View() == Init(1, 0, input, cnt, buf[..])
    {
      this.input, this.buf, this.cnt := input, buf, cnt;
      writeSem, readSem, taken, last, chunks := 1, 0, 0, cnt, 0;
      writer, reader, out, bytes, xfrs := WWait, RWait, [], 0, 0;
    }

    // read(STDIN_FILENO, shmp->buf, BUF_SIZE)
    method ReadInput(k: nat) returns (n: nat)
      requires WellFormed(View())
      modifies this`taken, buf
      ensures n == ReadSize(|input| - old(taken), BUF_SIZE, k) && taken == old(taken) + n
      ensures buf[..] == input[old(taken)..old(taken) + n] + old(buf[..])[n..]
    {
      n := ReadSize(|input| - taken, BUF_SIZE, k);
      var i := 0;
      while i < n
        invariant 0 <= i <= n && taken == old(taken)
        invariant forall j :: 0 <= j < buf.Length ==>
                    buf[j] == if j < i then input[taken + j] else old(buf[..])[j]
      {
        buf[i] := input[taken + i];
        i := i + 1;
      }
      assert buf[..] == input[taken..taken + n] + old(buf[..])[n..];
      taken := taken + n;
    }

    // writer.c:55-66
    method RunWriter(k: nat)
      requires WellFormed(View())
      modifies this, buf
      ensures View() == Step(old(View()), Writer(k))
    {
      match writer {
        case WWait =>
          if writeSem > 0 {
            writeSem := writeSem - 1;
            writer := WRead;
          }
        case WRead =>
          var n := ReadInput(k);
          if n > 0 {
            chunks := chunks + 1;
          }
          last, writer := n, WCount(n);
        case WCount(n) =>
          cnt := n;
          writer := WPost;
        case WPost =>
          readSem := readSem + 1;
          writer := WTest;
        case WTest =>
          writer := if cnt == 0 then WDone else WWait;
        case WDone =>
      }
    }

    // reader.c:51-65
    method RunReader()
      requires WellFormed(View())
      modifies this
      ensures View() == Step(old(View()), Reader)
    {
      match reader {
        case RWait =>
          if readSem > 0 {
            readSem := readSem - 1;
            reader := RTest;
          }
        case RTest =>
          reader := if cnt == 0 then RDone else RAdd;
        case RAdd =>
          bytes := bytes + cnt;
          reader := RWrite;
        case RWrite =>
          if 0 <= cnt <= buf.Length {
            out := out + buf[..cnt];
          }
          reader := RPost;
        case RPost =>
          writeSem := writeSem + 1;
          reader := RNext;
        case RNext =>
          xfrs := xfrs + 1;
          reader := RWait;
        case RDone =>
      }
    }

    // A whole schedule.
    method RunSchedule(acts: seq<Action>)
      requires WellFormed(View())
      modifies this, buf
      ensures View() == Run(old(View()), acts)
    {
      var i := 0;
      while i < |acts|
        invariant 0 <= i <= |acts| && WellFormed(View())
        invariant Run(View(), acts[i..]) == Run(old(View()), acts)
      {
        assert acts[i..][0] == acts[i] && acts[i..][1..] == acts[i + 1..];
        match acts[i] {
          case Writer(k) => RunWriter(k);
          case Reader => RunReader();
        }
        i := i + 1;
      }
    }
  }
}
