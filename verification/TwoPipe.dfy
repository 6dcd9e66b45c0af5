// SP_HW6/44_1.c: the parent sends its input through one pipe, the child turns it to upper
// case in place and sends it back through another.
module TwoPipe {
  import opened Common

  const BUFSIZ: nat := 8192

  // toupper in the C locale
  function Upper(c: byte): byte {
    if 97 <= c <= 122 then c - 32 else c
  }

  function Up(s: seq<byte>): seq<byte> {
    seq(|s|, i requires 0 <= i < |s| => Upper(s[i]))
  }

  lemma UpConcat(a: seq<byte>, b: seq<byte>)
    ensures Up(a + b) == Up(a) + Up(b)
  {
  }

  datatype ParentPc = ReadInput | WritePipe1 | ReadPipe2 | WriteOutput | ParentDone

  // Convert(i) looks at upper[i]; Send(n) writes strlen(upper) == n bytes.  Overrun is a
  // look behind the buffer, Killed the end by SIGPIPE.
  datatype ChildPc = ReadPipe1 | Convert(i: nat) | Send(n: nat) | ChildDone | Overrun | Killed

  // sent and reply are what buf and output hold and have still to write; got is how much
  // of upper the latest read filled, the rest being zero.
  datatype State = State(
    input: seq<byte>, taken: nat, sent: seq<byte>, pipe1: seq<byte>, upper: seq<byte>, got: nat,
    pipe2: seq<byte>, reply: seq<byte>, out: seq<byte>, parent: ParentPc, child: ChildPc)

  // The schedule says how many bytes each read would like to return.
  datatype Action = Parent(input: nat, pipe: nat) | Child(pipe: nat)

  predicate WellFormed(s: State) {
    s.taken <= |s.input| && |s.upper| == BUFSIZ
  }

  function Init(input: seq<byte>): State {
    State(input, 0, [], [], Zeros(BUFSIZ), 0, [], [], [], ReadInput, ReadPipe1)
  }

  // --- one atomic operation ---------------------------------------------------------------

  predicate Enabled(s: State, a: Action) {
    match a
    case Parent(_, _) => if s.parent == ReadPipe2 then s.pipe2 != [] else s.parent != ParentDone
    case Child(_) =>
      if s.child == ReadPipe1 then s.pipe1 != [] || s.parent == ParentDone
      else s.child.Convert? || s.child.Send?
  }

  function AfterParent(s: State, input: nat, pipe: nat): State
    requires WellFormed(s)
  {
    match s.parent
    case ReadInput =>
      var n := ReadSize(|s.input| - s.taken, BUFSIZ, input);
      if n == 0 then s.(parent := ParentDone)
      else s.(sent := s.input[s.taken..s.taken + n], taken := s.taken + n, parent := WritePipe1)
    case WritePipe1 => s.(pipe1 := s.pipe1 + s.sent, sent := [], parent := ReadPipe2)
    case ReadPipe2 =>
      var n := ReadSize(|s.pipe2|, BUFSIZ, pipe);
      s.(reply := s.pipe2[..n], pipe2 := s.pipe2[n..], parent := WriteOutput)
    case WriteOutput => s.(out := s.out + s.reply, reply := [], parent := ReadInput)
    case ParentDone => s
  }

  function AfterChild(s: State, pipe: nat): State
    requires WellFormed(s)
  {
    match s.child
    case ReadPipe1 =>
      var n := ReadSize(|s.pipe1|, BUFSIZ, pipe);
      if n == 0 then s.(child := ChildDone)
      else s.(upper := s.pipe1[..n] + Zeros(BUFSIZ - n), got := n, pipe1 := s.pipe1[n..], child := Convert(0))
    case Convert(i) =>
      if i >= BUFSIZ then s.(child := Overrun)
      else if s.upper[i] == 0 then s.(child := Send(i))
      else s.(upper := s.upper[i := Upper(s.upper[i])], child := Convert(i + 1))
    case Send(n) =>
      if s.parent == ParentDone then s.(child := Killed)
      else s.(pipe2 := s.pipe2 + (if n <= BUFSIZ then s.upper[..n] else []), got := 0, child := ReadPipe1)
    case _ => s
  }

  function Step(s: State, a: Action): (t: State)
    requires WellFormed(s)
    ensures WellFormed(t) && t.input == s.input
  {
    if !Enabled(s, a) then s else
    match a
    case Parent(input, pipe) => AfterParent(s, input, pipe)
    case Child(pipe) => AfterChild(s, pipe)
  }

  function Run(s: State, acts: seq<Action>): (t: State)
    requires WellFormed(s)
    ensures WellFormed(t) && t.input == s.input
    decreases |acts|
  {
    if acts == [] then s else Run(Step(s, acts[0]), acts[1..])
  }

  // --- the invariant ------------------------------------------------------------------------

  // In front of i the buffer has been converted; from got on it is zero.
  predicate BufferInv(s: State)
    requires WellFormed(s)
  {
    && s.got <= BUFSIZ
    && (s.child == ReadPipe1 ==> s.got == 0)
    && (s.child.Convert? ==> s.child.i <= s.got)
    && (s.child.Send? ==> s.child.n <= s.got && s.child.n < BUFSIZ && s.upper[s.child.n] == 0)
    && (s.child.Convert? || s.child.Send? ==>
          (forall j :: s.got <= j < BUFSIZ ==> s.upper[j] == 0) &&
          (forall j :: 0 <= j < (if s.child.Convert? then s.child.i else s.child.n) ==>
             s.upper[j] != 0 && Upper(s.upper[j]) == s.upper[j]))
    && (s.parent == WriteOutput ==> s.reply != []) && (s.parent != WriteOutput ==> s.reply == [])
    && (s.parent == WritePipe1 ==> s.sent != []) && (s.parent != WritePipe1 ==> s.sent == [])
    && NulFree(s.pipe2) && NulFree(s.reply) && NulFree(s.out)
    && (s.parent == ParentDone ==> s.taken == |s.input|)
  }

  // What the child holds.
  function Held(s: State): seq<byte>
    requires WellFormed(s)
  {
    if s.got <= BUFSIZ then s.upper[..s.got] else []
  }

  // Nothing is lost, doubled or reordered on its way.
  predicate Conserved(s: State)
    requires WellFormed(s)
  {
    && NulFree(Held(s)) && NulFree(s.pipe1) && NulFree(s.sent)
    && s.out + s.reply + s.pipe2 + Up(Held(s)) + Up(s.pipe1) + Up(s.sent) == Up(s.input[..s.taken])
  }

  lemma ParentKeepsBuffer(s: State, input: nat, pipe: nat)
    requires WellFormed(s) && BufferInv(s) && Enabled(s, Parent(input, pipe))
    ensures BufferInv(AfterParent(s, input, pipe))
  {
  }

  lemma ChildKeepsBuffer(s: State, pipe: nat)
    requires WellFormed(s) && BufferInv(s) && Enabled(s, Child(pipe))
    ensures BufferInv(AfterChild(s, pipe))
  {
  }

  lemma InputConserves(s: State, input: nat, pipe: nat)
    requires WellFormed(s) && s.parent == ReadInput && s.sent == [] && NulFree(s.input) && Conserved(s)
    ensures Conserved(AfterParent(s, input, pipe))
  {
    hide Up;
    var t := AfterParent(s, input, pipe);
    if t.parent == WritePipe1 {
      assert s.input[..t.taken] == s.input[..s.taken] + t.sent;
      UpConcat(s.input[..s.taken], t.sent);
      assert forall i :: 0 <= i < |t.sent| ==> t.sent[i] == s.input[s.taken + i];
    }
    UpNothing();
  }

  lemma UpNothing()
    ensures Up([]) == []
  {
  }

  lemma WriteConserves(s: State, input: nat, pipe: nat)
    requires WellFormed(s) && s.parent == WritePipe1 && Conserved(s)
    ensures Conserved(AfterParent(s, input, pipe))
  {
    hide Up;
    UpConcat(s.pipe1, s.sent);
    UpNothing();
  }

  lemma ReplyConserves(s: State, input: nat, pipe: nat)
    requires WellFormed(s) && ((s.parent == ReadPipe2 && s.reply == []) || s.parent == WriteOutput) && Conserved(s)
    ensures Conserved(AfterParent(s, input, pipe))
  {
    hide Up;
    var t := AfterParent(s, input, pipe);
    assert s.out + s.reply + s.pipe2 == t.out + t.reply + t.pipe2;
  }

  lemma ReadConserves(s: State, pipe: nat)
    requires WellFormed(s) && s.child == ReadPipe1 && s.got == 0 && Conserved(s)
    ensures Conserved(AfterChild(s, pipe))
  {
    hide Up;
    var t := AfterChild(s, pipe);
    UpNothing();
    assert Held(s) == [];
    if t.child.Convert? {
      assert Held(t) == s.pipe1[..t.got] && s.pipe1 == Held(t) + t.pipe1;
      UpConcat(Held(t), t.pipe1);
    }
  }

  lemma SendConserves(s: State, pipe: nat)
    requires WellFormed(s) && BufferInv(s) && s.child.Send? && Conserved(s)
    ensures Conserved(AfterChild(s, pipe))
  {
    var t := AfterChild(s, pipe);
    var n := s.child.n;
    assert forall j :: 0 <= j < s.got ==> Held(s)[j] == s.upper[j];
    assert n == s.got;
    assert Held(s) == s.upper[..n] && Up(Held(s)) == Held(s);
    if t.child == ReadPipe1 {
      assert t.pipe2 == s.pipe2 + Held(s) && Held(t) == [] && Up([]) == [];
      assert s.out + s.reply + s.pipe2 + Held(s) == t.out + t.reply + t.pipe2 + [];
    }
  }

  lemma ConvertConserves(s: State, pipe: nat)
    requires WellFormed(s) && BufferInv(s) && s.child.Convert? && Conserved(s)
    ensures Conserved(AfterChild(s, pipe))
  {
    if s.child.i < BUFSIZ && s.upper[s.child.i] != 0 {
      ConvertKeepsUp(s, s.child.i);
    }
  }

  lemma ConvertKeepsUp(s: State, i: nat)
    requires WellFormed(s) && s.got <= BUFSIZ && i < BUFSIZ && s.upper[i] != 0 && NulFree(Held(s))
    ensures
      var t := s.(upper := s.upper[i := Upper(s.upper[i])]);
      Up(Held(t)) == Up(Held(s)) && NulFree(Held(t))
  {
    var t := s.(upper := s.upper[i := Upper(s.upper[i])]);
    forall j | 0 <= j < s.got
      ensures Upper(t.upper[j]) == Upper(s.upper[j]) && t.upper[j] != 0
    {
      assert j != i ==> Held(s)[j] != 0;
    }
  }

  lemma {:induction false} RunKeepsBuffer(s: State, acts: seq<Action>)
    requires WellFormed(s) && BufferInv(s)
    ensures BufferInv(Run(s, acts))
    decreases |acts|
  {
    if acts != [] {
      if Enabled(s, acts[0]) {
        match acts[0]
        case Parent(input, pipe) => ParentKeepsBuffer(s, input, pipe);
        case Child(pipe) => ChildKeepsBuffer(s, pipe);
      }
      RunKeepsBuffer(Step(s, acts[0]), acts[1..]);
    }
  }

  lemma StepConserves(s: State, a: Action)
    requires WellFormed(s) && BufferInv(s) && NulFree(s.input) && Conserved(s)
    ensures BufferInv(Step(s, a)) && Conserved(Step(s, a))
  {
    if Enabled(s, a) {
      match a
      case Parent(input, pipe) =>
        ParentKeepsBuffer(s, input, pipe);
        if s.parent == ReadInput { InputConserves(s, input, pipe); }
        else if s.parent == WritePipe1 { WriteConserves(s, input, pipe); }
        else { ReplyConserves(s, input, pipe); }
      case Child(pipe) =>
        ChildKeepsBuffer(s, pipe);
        if s.child == ReadPipe1 { ReadConserves(s, pipe); }
        else if s.child.Convert? { ConvertConserves(s, pipe); }
        else { SendConserves(s, pipe); }
    }
  }

  lemma {:induction false} RunConserves(s: State, acts: seq<Action>)
    requires WellFormed(s) && BufferInv(s) && NulFree(s.input) && Conserved(s)
    ensures BufferInv(Run(s, acts)) && Conserved(Run(s, acts))
    decreases |acts|
  {
    if acts != [] {
      StepConserves(s, acts[0]);
      RunConserves(Step(s, acts[0]), acts[1..]);
    }
  }
}
