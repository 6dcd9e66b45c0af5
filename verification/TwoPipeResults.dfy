// What comes out of the two pipes: always a prefix, and all of it exactly when no read
// can go wrong.
module TwoPipeResults {
  import opened Common
  import opened TwoPipe

  function Reached(input: seq<byte>, acts: seq<Action>): (s: State)
    ensures WellFormed(s) && s.input == input
  {
    Run(Init(input), acts)
  }

  lemma InitInv(input: seq<byte>)
    ensures BufferInv(Init(input)) && Conserved(Init(input))
  {
    assert Up([]) == [] && input[..0] == [] && Held(Init(input)) == [];
  }

  // For input without NUL bytes, whatever the sizes of the reads: standard output, and
  // behind it what the two processes and the two pipes hold, in upper case, is the upper
  // case of everything read so far; so the output is a prefix of what it should become.
  lemma OutputIsPrefix(input: seq<byte>, acts: seq<Action>)
    requires NulFree(input)
    ensures
      var s := Reached(input, acts);
      && s.out + s.reply + s.pipe2 + Up(Held(s)) + Up(s.pipe1) + Up(s.sent) == Up(input[..s.taken])
      && s.out <= Up(input)
  {
    hide Up, Held, BufferInv;
    var s := Reached(input, acts);
    InitInv(input);
    RunConserves(Init(input), acts);
    hide NulFree, Run;
    assert s.out + (s.reply + s.pipe2 + Up(Held(s)) + Up(s.pipe1) + Up(s.sent)) == Up(input[..s.taken]);
    assert input == input[..s.taken] + input[s.taken..];
    UpConcat(input[..s.taken], input[s.taken..]);
  }

  // Byte by byte: what comes out is the capital of a small letter, and of everything else
  // itself.
  lemma OutputBytes(input: seq<byte>, acts: seq<Action>, i: nat)
    requires NulFree(input) && i < |Reached(input, acts).out|
    ensures
      var out := Reached(input, acts).out;
      i < |input| &&
      if 'a' as int <= input[i] as int <= 'z' as int
      then out[i] as int - 'A' as int == input[i] as int - 'a' as int
      else out[i] == input[i]
  {
    OutputIsPrefix(input, acts);
    assert Reached(input, acts).out[i] == Up(input)[i];
  }

  // A read of less than a full buffer never makes the child look behind its own.
  lemma OverrunNeedsFullBuffer(input: seq<byte>, acts: seq<Action>)
    ensures
      var s := Reached(input, acts);
      s.child.Convert? && s.got < BUFSIZ ==> s.child.i < BUFSIZ && !Step(s, Child(0)).child.Overrun?
  {
    InitInv(input);
    RunKeepsBuffer(Init(input), acts);
  }

  // --- one chunk at a time ------------------------------------------------------------------

  // Every pipe read takes what there is, up to a buffer full, and no read of the input
  // asks for more than limit.
  predicate Whole(a: Action, limit: nat) {
    a.pipe >= BUFSIZ && Limited(a, limit)
  }

  predicate Limited(a: Action, limit: nat) {
    a.Parent? ==> a.input <= limit
  }

  ghost predicate AllWhole(acts: seq<Action>, limit: nat) {
    forall i :: 0 <= i < |acts| ==> Whole(acts[i], limit)
  }

  ghost predicate AllLimited(acts: seq<Action>, limit: nat) {
    forall i :: 0 <= i < |acts| ==> Limited(acts[i], limit)
  }

  // No read of the input returns more than size bytes.
  predicate ShortReads(input: seq<byte>, limit: nat, size: nat) {
    |input| <= size || limit <= size
  }

  // No read takes less than a whole chunk of up to size bytes.
  predicate Undivided(a: Action, limit: nat, size: nat) {
    (size == 1 || a.pipe >= size) && Limited(a, limit)
  }

  ghost predicate AllUndivided(acts: seq<Action>, limit: nat, size: nat) {
    forall i :: 0 <= i < |acts| ==> Undivided(acts[i], limit, size)
  }

  // One chunk of at most size bytes is on its way, in one place.
  predicate Lockstep(s: State, size: nat) {
    match s.parent
    case ReadPipe2 =>
      (match s.child
       case ReadPipe1 =>
         (s.pipe1 == [] && s.pipe2 != [] && |s.pipe2| <= size) || (s.pipe1 != [] && s.pipe2 == [] && |s.pipe1| <= size)
       case Convert(_) => s.pipe1 == [] && s.pipe2 == [] && 0 < s.got <= size
       case Send(_) => s.pipe1 == [] && s.pipe2 == [] && 0 < s.got <= size
       case _ => false)
    case ParentDone => s.pipe1 == [] && s.pipe2 == [] && (s.child == ReadPipe1 || s.child == ChildDone) && s.got == 0
    case _ => s.pipe1 == [] && s.pipe2 == [] && s.child == ReadPipe1 && |s.sent| <= size
  }

  lemma LockstepKept(s: State, a: Action, limit: nat, size: nat)
    requires WellFormed(s) && BufferInv(s) && Conserved(s) && 1 <= size < BUFSIZ
    requires ShortReads(s.input, limit, size) && Lockstep(s, size) && Undivided(a, limit, size)
    ensures Lockstep(Step(s, a), size)
  {
    if Enabled(s, a) && a.Child? && s.child.Send? {
      var n := s.child.n;
      assert forall j :: 0 <= j < s.got ==> Held(s)[j] == s.upper[j];
      assert n == s.got;
    }
  }

  lemma {:induction false} LockstepRun(s: State, acts: seq<Action>, limit: nat, size: nat)
    requires WellFormed(s) && BufferInv(s) && Conserved(s) && NulFree(s.input) && 1 <= size < BUFSIZ
    requires ShortReads(s.input, limit, size) && Lockstep(s, size) && AllUndivided(acts, limit, size)
    ensures BufferInv(Run(s, acts)) && Conserved(Run(s, acts)) && Lockstep(Run(s, acts), size)
    decreases |acts|
  {
    hide Lockstep, Conserved, BufferInv;
    if acts != [] {
      assert Undivided(acts[0], limit, size);
      LockstepKept(s, acts[0], limit, size);
      StepConserves(s, acts[0]);
      assert forall i :: 0 <= i < |acts[1..]| ==> acts[1..][i] == acts[i + 1];
      LockstepRun(Step(s, acts[0]), acts[1..], limit, size);
    }
  }

  // --- every run ends -----------------------------------------------------------------------

  // A bound on the operations left: each byte pays for its way, dearer the further it is.
  function Rank(s: State): nat
    requires WellFormed(s) && s.got <= BUFSIZ
  {
    70 * (|s.input| - s.taken) + 60 * |s.sent| + 50 * |s.pipe1| + 20 * |s.pipe2| + 10 * |s.reply| +
    (if s.parent == ParentDone then 0 else 1) +
    match s.child
    case ReadPipe1 => 1
    case Convert(i) => 22 * s.got + (if i <= s.got then 2 * (s.got - i) else 0) + 3
    case Send(_) => 22 * s.got + 2
    case _ => 0
  }

  lemma RankDecreases(s: State, a: Action)
    requires WellFormed(s) && BufferInv(s) && Enabled(s, a)
    ensures Step(s, a).got <= BUFSIZ && Rank(Step(s, a)) < Rank(s)
  {
    hide Rank;
    match a
    case Parent(_, _) => ParentRank(s, a);
    case Child(_) => ChildRank(s, a);
  }

  lemma ParentRank(s: State, a: Action)
    requires WellFormed(s) && BufferInv(s) && Enabled(s, a) && a.Parent?
    ensures Step(s, a).got <= BUFSIZ && Rank(Step(s, a)) < Rank(s)
  {
    hide Held, Up;
  }

  lemma ChildRank(s: State, a: Action)
    requires WellFormed(s) && BufferInv(s) && Enabled(s, a) && a.Child?
    ensures Step(s, a).got <= BUFSIZ && Rank(Step(s, a)) < Rank(s)
  {
    hide Held, Up;
  }

  // Nothing can move any more.
  ghost predicate Quiet(s: State) {
    forall a :: !Enabled(s, a)
  }

  // A run to the end whose reads all have the same wishes.
  lemma {:induction false} RunToEnd(s: State, input: nat, pipe: nat) returns (acts: seq<Action>)
    requires WellFormed(s) && BufferInv(s)
    ensures Quiet(Run(s, acts)) && BufferInv(Run(s, acts))
    ensures forall i :: 0 <= i < |acts| ==> acts[i] == Parent(input, pipe) || acts[i] == Child(pipe)
    decreases Rank(s)
  {
    var p, c := Parent(input, pipe), Child(pipe);
    if Enabled(s, p) || Enabled(s, c) {
      var a := if Enabled(s, p) then p else c;
      RankDecreases(s, a);
      RunKeepsBuffer(s, [a]);
      assert [a][1..] == [] && Run(s, [a]) == Run(Step(s, a), []);
      var rest := RunToEnd(Step(s, a), input, pipe);
      acts := [a] + rest;
      assert acts[1..] == rest;
    } else {
      acts := [];
      forall a
        ensures !Enabled(s, a)
      {
        assert Enabled(s, a) ==> Enabled(s, if a.Parent? then p else c);
      }
    }
  }

  // --- when it works ---------------------------------------------------------------------------

  // The child looked behind its buffer, or both wait for each other, or the parent has
  // come to the end of its input without having put all of it out.
  ghost predicate GoneWrong(s: State) {
    || s.child == Overrun
    || (Quiet(s) && s.parent != ParentDone)
    || (s.parent == ParentDone && s.out != Up(s.input))
  }

  // Nothing goes wrong when pipe reads return whole writes, and whatever they return.
  ghost predicate WorksWithWholeReads(input: seq<byte>, limit: nat) {
    forall acts :: AllWhole(acts, limit) ==> !GoneWrong(Reached(input, acts))
  }

  ghost predicate WorksWithAnyReads(input: seq<byte>, limit: nat) {
    forall acts :: AllLimited(acts, limit) ==> !GoneWrong(Reached(input, acts))
  }

  lemma LockstepWorks(s: State, size: nat)
    requires WellFormed(s) && BufferInv(s) && Conserved(s) && Lockstep(s, size)
    ensures !GoneWrong(s)
  {
    if s.parent == ParentDone {
      assert Held(s) == [] && Up([]) == [] && s.input[..s.taken] == s.input;
    } else {
      assert Enabled(s, Parent(0, 0)) || Enabled(s, Child(0));
    }
  }

  // NUL bytes do not get past the child.
  lemma NulStops(s: State)
    requires WellFormed(s) && BufferInv(s) && !NulFree(s.input)
    ensures s.out != Up(s.input)
  {
    var i :| 0 <= i < |s.input| && s.input[i] == 0;
    assert Up(s.input)[i] == 0;
  }

  // A full buffer of bytes that are not NUL is run through to its end and beyond.
  lemma {:induction false} FullBufferOverruns(s: State) returns (acts: seq<Action>)
    requires WellFormed(s) && BufferInv(s) && s.child.Convert? && s.got == BUFSIZ && NulFree(Held(s))
    ensures AllWhole(acts, BUFSIZ) && Run(s, acts).child == Overrun
    decreases BUFSIZ - s.child.i
  {
    var a := Child(BUFSIZ);
    var t := Step(s, a);
    assert forall j :: 0 <= j < s.got ==> Held(s)[j] == s.upper[j];
    if s.child.i == BUFSIZ {
      acts := [a];
      assert acts[1..] == [] && Run(s, acts) == Run(t, []);
    } else {
      ChildKeepsBuffer(s, BUFSIZ);
      ConvertKeepsUp(s, s.child.i);
      var rest := FullBufferOverruns(t);
      acts := [a] + rest;
      assert acts[1..] == rest;
    }
  }

  lemma RunOne(s: State, a: Action, rest: seq<Action>)
    requires WellFormed(s)
    ensures Run(s, [a] + rest) == Run(Step(s, a), rest)
  {
    assert ([a] + rest)[1..] == rest;
  }

  lemma FullReadGoesWrong(input: seq<byte>) returns (acts: seq<Action>)
    requires NulFree(input) && |input| >= BUFSIZ
    ensures AllWhole(acts, BUFSIZ) && GoneWrong(Reached(input, acts))
  {
    var s0 := Init(input);
    var p, c := Parent(BUFSIZ, BUFSIZ), Child(BUFSIZ);
    var s1 := Step(s0, p);
    var s2 := Step(s1, p);
    var s3 := Step(s2, c);
    assert s2.pipe1 == input[..BUFSIZ];
    assert s3.got == BUFSIZ && Held(s3) == input[..BUFSIZ];
    InitInv(input);
    ParentKeepsBuffer(s0, BUFSIZ, BUFSIZ);
    ParentKeepsBuffer(s1, BUFSIZ, BUFSIZ);
    ChildKeepsBuffer(s2, BUFSIZ);
    var rest := FullBufferOverruns(s3);
    acts := [p] + ([p] + ([c] + rest));
    RunOne(s0, p, [p] + ([c] + rest));
    RunOne(s1, p, [c] + rest);
    RunOne(s2, c, rest);
  }

  lemma SmallChunksWork(input: seq<byte>, acts: seq<Action>, limit: nat, size: nat)
    requires NulFree(input) && 1 <= size < BUFSIZ && ShortReads(input, limit, size) && AllUndivided(acts, limit, size)
    ensures !GoneWrong(Reached(input, acts))
  {
    InitInv(input);
    LockstepRun(Init(input), acts, limit, size);
    LockstepWorks(Reached(input, acts), size);
  }

  lemma NulGoesWrong(input: seq<byte>) returns (acts: seq<Action>)
    requires !NulFree(input)
    ensures AllWhole(acts, 0) && GoneWrong(Reached(input, acts))
  {
    hide Rank;
    InitInv(input);
    acts := RunToEnd(Init(input), 0, BUFSIZ);
    NulStops(Reached(input, acts));
  }

  // With pipe reads that return whole writes, every run puts out the whole input in upper
  // case exactly when the input has no NUL byte and no read of it can fill a buffer.
  lemma WholeReadBoundary(input: seq<byte>, limit: nat)
    ensures WorksWithWholeReads(input, limit) <==> NulFree(input) && ShortReads(input, limit, BUFSIZ - 1)
  {
    hide GoneWrong;
    if !NulFree(input) {
      var acts := NulGoesWrong(input);
      assert AllWhole(acts, limit);
    } else if !ShortReads(input, limit, BUFSIZ - 1) {
      var acts := FullReadGoesWrong(input);
      assert AllWhole(acts, limit);
    } else {
      forall acts | AllWhole(acts, limit)
        ensures !GoneWrong(Reached(input, acts))
      {
        assert AllUndivided(acts, limit, BUFSIZ - 1);
        SmallChunksWork(input, acts, limit, BUFSIZ - 1);
      }
    }
  }

  // --- pipe reads that return less --------------------------------------------------------------

  // Each turn of the parent has put out at most one byte, and its first has taken more.
  predicate Behind(s: State) {
    && |s.out| + |s.reply| + (if s.parent == WritePipe1 || s.parent == ReadPipe2 then 1 else 0) < s.taken
    && (s.parent == ReadInput ==> s.reply == [])
  }

  lemma StaysBehind(s: State, a: Action)
    requires WellFormed(s) && BufferInv(s) && Behind(s) && a.pipe == 1
    ensures Behind(Step(s, a))
  {
  }

  lemma {:induction false} RunStaysBehind(s: State, acts: seq<Action>)
    requires WellFormed(s) && BufferInv(s) && Behind(s) && forall i :: 0 <= i < |acts| ==> acts[i].pipe == 1
    ensures Behind(Run(s, acts))
    decreases |acts|
  {
    hide BufferInv, Behind, Step;
    if acts != [] {
      var a := acts[0];
      StaysBehind(s, a);
      assert [a][1..] == [] && Run(s, [a]) == Run(Step(s, a), []);
      RunKeepsBuffer(s, [a]);
      assert forall i :: 0 <= i < |acts[1..]| ==> acts[1..][i] == acts[i + 1];
      RunStaysBehind(Step(s, a), acts[1..]);
    }
  }

  // A first chunk of two bytes or more, of which every read returns only one.
  lemma DividedGoesWrong(input: seq<byte>, limit: nat) returns (acts: seq<Action>)
    requires |input| >= 2 && limit >= 2
    ensures AllLimited(acts, limit) && GoneWrong(Reached(input, acts))
  {
    hide Rank, Held;
    var p := Parent(limit, 1);
    InitInv(input);
    ParentKeepsBuffer(Init(input), limit, 1);
    var s := Step(Init(input), p);
    assert Behind(s);
    var rest := RunToEnd(s, limit, 1);
    RunStaysBehind(s, rest);
    acts := [p] + rest;
    RunOne(Init(input), p, rest);
    hide Run, Step;
    assert |Up(input)| == |input|;
  }

  // With pipe reads that may return less than was written, every run puts out the whole
  // input exactly when it has no NUL byte and no read of it can return two bytes.
  lemma AnyReadBoundary(input: seq<byte>, limit: nat)
    ensures WorksWithAnyReads(input, limit) <==> NulFree(input) && ShortReads(input, limit, 1)
  {
    hide GoneWrong;
    if !NulFree(input) {
      var acts := NulGoesWrong(input);
      assert AllLimited(acts, limit) by {
        assert forall i :: 0 <= i < |acts| ==> Whole(acts[i], 0);
      }
    } else if !ShortReads(input, limit, 1) {
      var acts := DividedGoesWrong(input, limit);
    } else {
      forall acts | AllLimited(acts, limit)
        ensures !GoneWrong(Reached(input, acts))
      {
        assert AllUndivided(acts, limit, 1);
        SmallChunksWork(input, acts, limit, 1);
      }
    }
  }
}
