// The two processes of SP_HW6/44_1.c in the form the program has them: loops around reads
// and writes, and a buffer the child converts in place.
module UpperCaser {
  import opened Common
  import opened TwoPipe

  class Processes {
    const input: seq<byte>
    const upper: array<byte>
    var taken: nat
    var sent: seq<byte>
    var pipe1: seq<byte>
    var got: nat
    var pipe2: seq<byte>
    var reply: seq<byte>
    var out: seq<byte>
    var parent: ParentPc
    var child: ChildPc

    ghost function View(): State
      reads this, upper
    {
      State(input, taken, sent, pipe1, upper[..], got, pipe2, reply, out, parent, child)
    }

    constructor (input: seq<byte>)
      ensures fresh(upper) && this.input == input && View() == Init(input)
    {
      this.input := input;
      upper := new byte[BUFSIZ](_ => 0);
      taken, sent, pipe1, got, pipe2, reply, out := 0, [], [], 0, [], [], [];
      parent, child := ReadInput, ReadPipe1;
    }

    // 44_1.c:40-59
    method RunParent(k: nat, pipe: nat)
      requires WellFormed(View())
      modifies this
      ensures View() == Step(old(View()), Parent(k, pipe))
    {
      match parent {
        case ReadInput =>
          var n := ReadSize(|input| - taken, BUFSIZ, k);
          if n == 0 {
            parent := ParentDone;
          } else {
            sent := input[taken..taken + n];
            taken := taken + n;
            parent := WritePipe1;
          }
        case WritePipe1 =>
          pipe1, sent := pipe1 + sent, [];
          parent := ReadPipe2;
        case ReadPipe2 =>
          if pipe2 != [] {
            var n := ReadSize(|pipe2|, BUFSIZ, pipe);
            reply, pipe2 := pipe2[..n], pipe2[n..];
            parent := WriteOutput;
          }
        case WriteOutput =>
          out, reply := out + reply, [];
          parent := ReadInput;
        case ParentDone =>
      }
    }

    // memset(upper, '\0', BUFSIZ) and the read behind it.
    method Refill(data: seq<byte>)
      requires |data| <= upper.Length
      modifies upper
      ensures upper[..] == data + Zeros(upper.Length - |data|)
    {
      var i := 0;
      while i < upper.Length
        invariant 0 <= i <= upper.Length
        invariant forall j :: 0 <= j < i ==> upper[j] == 0
      {
        upper[i] := 0;
        i := i + 1;
      }
      i := 0;
      while i < |data|
        invariant 0 <= i <= |data|
        invariant forall j :: 0 <= j < upper.Length ==> upper[j] == if j < i then data[j] else 0
      {
        upper[i] := data[i];
        i := i + 1;
      }
    }

    // 44_1.c:81-107
    method RunChild(pipe: nat)
      requires WellFormed(View())
      modifies this, upper
      ensures View() == Step(old(View()), Child(pipe))
    {
      match child {
        case ReadPipe1 =>
          if pipe1 != [] {
            var n := ReadSize(|pipe1|, BUFSIZ, pipe);
            Refill(pipe1[..n]);
            got, pipe1, child := n, pipe1[n..], Convert(0);
          } else if parent == ParentDone {
            child := ChildDone;
          }
        case Convert(i) =>
          if i >= upper.Length {
            child := Overrun;
          } else if upper[i] == 0 {
            child := Send(i);
          } else {
            upper[i] := Upper(upper[i]);
            child := Convert(i + 1);
          }
        case Send(n) =>
          if parent == ParentDone {
            child := Killed;
          } else {
            if n <= upper.Length {
              pipe2 := pipe2 + upper[..n];
            }
            got, child := 0, ReadPipe1;
          }
        case ChildDone =>
        case Overrun =>
        case Killed =>
      }
    }

    // A whole schedule.
    method RunSchedule(acts: seq<Action>)
      requires WellFormed(View())
      modifies this, upper
      ensures View() == Run(old(View()), acts)
    {
      var i := 0;
      while i < |acts|
        invariant 0 <= i <= |acts| && WellFormed(View())
        invariant Run(View(), acts[i..]) == Run(old(View()), acts)
      {
        assert acts[i..][0] == acts[i] && acts[i..][1..] == acts[i + 1..];
        match acts[i] {
          case Parent(k, pipe) => RunParent(k, pipe);
          case Child(pipe) => RunChild(pipe);
        }
        i := i + 1;
      }
    }
  }
}
