// pipe_and_exec of SP_HW5/Part2: recursive fork, pipe and dup2 over descriptor tables.
module Pipeline {
  import opened Common
  import opened ArgVector

  const STD_INPUT := 0
  const STD_OUTPUT := 1

  // An open file description a descriptor can stand for.
  datatype Desc = Inherited(n: nat) | File(path: string, writing: bool) | ReadEnd(pipe: nat) | WriteEnd(pipe: nat)

  type FdTable = map<nat, Desc>

  // A process that has become the program argv with these descriptors.
  datatype Image = Image(argv: seq<string>, fds: FdTable)

  // The lowest number from i on that is not in use.
  function LowestFree(used: set<nat>, i: nat): (r: nat)
    ensures r >= i && r !in used && forall j :: i <= j < r ==> j in used
    decreases |used|
  {
    if i !in used then i
    else
      var r := LowestFree(used - {i}, i + 1);
      assert forall j | i <= j < r :: j in used by {
        forall j | i <= j < r ensures j in used {
          assert j == i || j in used - {i};
        }
      }
      r
  }

  class Process {
    var fds: FdTable

    constructor (fds: FdTable)
      ensures this.fds == fds
    {
      this.fds := fds;
    }

    method Close(fd: nat) returns (ok: bool)
      modifies this
      ensures ok == (fd in old(fds)) && fds == old(fds) - {fd}
    {
      ok := fd in fds;
      fds := fds - {fd};
    }

    method Dup2(from: nat, to: nat) returns (ok: bool)
      modifies this
      ensures ok == (from in old(fds))
      ensures fds == if ok then old(fds)[to := old(fds)[from]] else old(fds)
    {
      ok := from in fds;
      if ok {
        fds := fds[to := fds[from]];
      }
    }

    // open(2): the lowest free descriptor, or failure for a file that cannot be opened.
    method Open(path: Arg, writing: bool, openable: set<string>) returns (fd: Option<nat>)
      modifies this
      ensures fd.Some? == (path.Str? && path.s in openable)
      ensures fd.Some? ==> fd.value !in old(fds) && fds == old(fds)[fd.value := File(path.s, writing)]
      ensures fd.None? ==> fds == old(fds)
    {
      if path.Null? || path.s !in openable {
        return None;
      }
      var n := LowestFree(fds.Keys, 0);
      fds := fds[n := File(path.s, writing)];
      fd := Some(n);
    }

    method Fork() returns (child: Process)
      ensures fresh(child) && child.fds == fds
    {
      child := new Process(fds);
    }
  }

  class Kernel {
    var nextPipe: nat
    var running: seq<Image>
    var refused: nat

    constructor ()
      ensures nextPipe == 0 && running == [] && refused == 0
    {
      nextPipe, running, refused := 0, [], 0;
    }

    method Pipe(p: Process) returns (r: nat, w: nat)
      modifies this`nextPipe, p
      ensures nextPipe == old(nextPipe) + 1
      ensures r !in old(p.fds) && w !in old(p.fds) && r != w
      ensures p.fds == old(p.fds)[r := ReadEnd(old(nextPipe))][w := WriteEnd(old(nextPipe))]
    {
      r := LowestFree(p.fds.Keys, 0);
      w := LowestFree(p.fds.Keys + {r}, 0);
      p.fds := p.fds[r := ReadEnd(nextPipe)][w := WriteEnd(nextPipe)];
      nextPipe := nextPipe + 1;
    }

    method Exec(p: Process, argv: seq<string>)
      modifies this`running
      ensures running == old(running) + [Image(argv, p.fds)]
    {
      running := running + [Image(argv, p.fds)];
    }

    method Refuse()
      modifies this`refused
      ensures refused == old(refused) + 1
    {
      refused := refused + 1;
    }
  }

  // --- the specification -----------------------------------------------------------

  // Stage i of k: the pipe before it for input, the pipe behind it for output, the
  // original at the two ends, and every other descriptor as it was.
  ghost function StageFds(base: FdTable, first: nat, i: nat, k: nat): FdTable
    requires STD_INPUT in base && STD_OUTPUT in base
  {
    var input := if i == 0 then base[STD_INPUT] else ReadEnd(first + i - 1);
    var output := if i + 1 == k then base[STD_OUTPUT] else WriteEnd(first + i);
    base[STD_INPUT := input][STD_OUTPUT := output]
  }

  // The first m of the stages, wired.
  ghost function Wiring(base: FdTable, first: nat, ss: seq<seq<string>>, m: nat): (w: seq<Image>)
    requires STD_INPUT in base && STD_OUTPUT in base && m <= |ss|
  {
    seq(m, i requires 0 <= i < m => Image(ss[i], StageFds(base, first, i, |ss|)))
  }

  // Wiring the rest from the listening child's table is wiring the rest.
  lemma WiringTail(base: FdTable, first: nat, ss: seq<seq<string>>, m: nat)
    requires STD_INPUT in base && STD_OUTPUT in base && 1 <= m <= |ss| && |ss| >= 2
    ensures
      Wiring(base, first, ss, m) ==
        [Image(ss[0], base[STD_OUTPUT := WriteEnd(first)])] +
        Wiring(base[STD_INPUT := ReadEnd(first)], first + 1, ss[1..], m - 1)
  {
    var all := Wiring(base, first, ss, m);
    var base' := base[STD_INPUT := ReadEnd(first)];
    var rest := Wiring(base', first + 1, ss[1..], m - 1);
    assert all[0].fds == base[STD_OUTPUT := WriteEnd(first)];
    forall i | 1 <= i < m
      ensures all[i] == rest[i - 1]
    {
      assert StageFds(base, first, i, |ss|) == StageFds(base', first + 1, i - 1, |ss| - 1);
    }
  }

  // What line 123 does as written: the whole right half becomes one program.
  ghost function Coded(base: FdTable, first: nat, ss: seq<seq<string>>): seq<Image>
    requires STD_INPUT in base && STD_OUTPUT in base && ss != []
  {
    if Started(ss) == 0 then []
    else if |ss| == 1 then [Image(ss[0], base)]
    else [Image(ss[0], base[STD_OUTPUT := WriteEnd(first)]),
          Image(Join(ss[1..]), base[STD_INPUT := ReadEnd(first)])]
  }

  // --- the programs ------------------------------------------------------------------

  // pipe_present.c:13-31
  method PipePresent(v: seq<Arg>, off: nat) returns (r: int)
    requires off <= |v| && Terminated(v, off)
    ensures
      var a := Args(v, off);
      var i := First("|", a);
      && (r == -1 <==> i == 0 || i == |a| - 1)
      && (r == 0 <==> i == |a| && a != [])
      && (r > 0 <==> 0 < i < |a| - 1)
      && (r > 0 ==> r == i)
  {
    ghost var a := Args(v, off);
    ArgsAt(v, off);
    var index := 0;
    while !v[off + index].Null?
      invariant 0 <= index <= |a|
      invariant forall j :: 0 <= j < index ==> a[j] != "|"
      decreases |a| - index
    {
      assert v[off + index] == Str(a[index]);
      if v[off + index].s == "|" {
        break;
      }
      index := index + 1;
    }
    assert index < |a| ==> v[off + index] == Str(a[index]);
    FirstIs("|", a, index);
    if index == 0 {
      return -1;
    }
    if v[off + index].Null? {
      return 0;
    }
    assert v[off + |a|].Null?;
    assert index + 1 < |a| ==> v[off + (index + 1)] == Str(a[index + 1]);
    if v[off + index + 1].Null? {
      return -1;
    }
    return index;
  }

  // The copy loop of pipe_command.c:56-67, which stops at the NULL.
  method CopyWords(v: seq<Arg>, from: nat) returns (words: seq<string>)
    requires from <= |v| && Terminated(v, from)
    ensures words == Args(v, from)
  {
    ghost var a := Args(v, from);
    ArgsAt(v, from);
    assert forall i :: 0 <= i < |a| ==> v[from + i] == Str(a[i]);
    words := [];
    while !v[from + |words|].Null?
      invariant |words| <= |a| && words == a[..|words|]
      invariant v[from + |words|] == if |words| < |a| then Str(a[|words|]) else Null
      decreases |a| - |words|
    {
      words := words + [v[from + |words|].s];
    }
    assert a[..|a|] == a;
  }

  // The two copies of the vector on either side of the "|", pipe_command.c:37-68.
  method SplitVector(v: seq<Arg>, off: nat, index: nat) returns (left: seq<string>, right: seq<string>)
    requires off <= |v| && Terminated(v, off) && index < |Args(v, off)|
    ensures left == Args(v, off)[..index] && right == Args(v, off)[index + 1..]
  {
    ghost var a := Args(v, off);
    ArgsAt(v, off);
    left := [];
    for i := 0 to index
      invariant left == a[..i]
    {
      assert v[off + i] == Str(a[i]);
      left := left + [v[off + i].s];
    }
    assert Args(v, off + (index + 1)) == a[index + 1..];
    assert v[off + |a|].Null?;
    right := CopyWords(v, off + index + 1);
  }

  // pipe_command.c:73-122: one pipe, one fork; the talking parent keeps the write
  // side on its output, the listening child the read side on its input.
  method Connect(k: Kernel, p: Process) returns (child: Process)
    requires STD_INPUT in p.fds && STD_OUTPUT in p.fds
    modifies k`nextPipe, p
    ensures fresh(child) && k.nextPipe == old(k.nextPipe) + 1
    ensures p.fds == old(p.fds)[STD_OUTPUT := WriteEnd(old(k.nextPipe))]
    ensures child.fds == old(p.fds)[STD_INPUT := ReadEnd(old(k.nextPipe))]
  {
    var r, w := k.Pipe(p);
    child := p.Fork();
    var ok := p.Close(r);
    ok := p.Dup2(w, STD_OUTPUT);
    ok := p.Close(w);
    ok := child.Close(w);
    ok := child.Dup2(r, STD_INPUT);
    ok := child.Close(r);
  }

  // Started, known to be within the list.
  ghost function StartedUpTo(ss: seq<seq<string>>): (n: nat)
    requires ss != []
    ensures n <= |ss| && n == Started(ss)
  {
    StartedMeans(ss);
    Started(ss)
  }

  // A refused vector starts nothing.
  lemma RefusedStartsNone(a: seq<string>)
    requires First("|", a) == 0 || First("|", a) == |a| - 1
    ensures Started(Stages(a)) == 0
  {
    var i := First("|", a);
    if a != [] && i > 0 {
      assert a[i + 1..] == [] && First("|", []) == 0 && Stages([]) == [[]];
      assert Stages(a) == [a[..i]] + [[]];
    }
  }

  // A "|" in the middle leaves two halves that are not refused at once.
  lemma SplitGoesOn(a: seq<string>)
    requires 0 < First("|", a) < |a| - 1
    ensures
      var i := First("|", a);
      var ss := Stages(a);
      && |ss| >= 2 && ss[0] == a[..i] && ss[1..] == Stages(a[i + 1..])
      && Started(ss) == 1 + Started(ss[1..]) && StartedUpTo(ss) == 1 + StartedUpTo(ss[1..])
  {
    var i := First("|", a);
    var ss := Stages(a);
    var rest := a[i + 1..];
    assert ss[0] == a[..i] && ss[1..] == Stages(rest);
    JoinOfStages(rest);
    assert |Stages(rest)| == 1 ==> Stages(rest)[0] == rest != [];
  }

  // The processes a vector turns into, and how often the recursion ends in the -1 code.
  datatype Outcome = Outcome(images: seq<Image>, refusals: nat)

  ghost function Launch(base: FdTable, first: nat, a: seq<string>, wholeRight: bool): Outcome
    decreases |a|
  {
    var i := First("|", a);
    if i == 0 || i == |a| - 1 then Outcome([], 1)
    else if i == |a| then Outcome([Image(a, base)], 0)
    else
      var talking := Image(a[..i], base[STD_OUTPUT := WriteEnd(first)]);
      var listening := base[STD_INPUT := ReadEnd(first)];
      if wholeRight then Outcome([talking, Image(a[i + 1..], listening)], 0)
      else
        var rest := Launch(listening, first + 1, a[i + 1..], wholeRight);
        Outcome([talking] + rest.images, rest.refusals)
  }

  // One level of a pipe in the middle: split, connect, and the parent becomes the
  // left command.
  method StartLeft(k: Kernel, p: Process, v: seq<Arg>, off: nat, index: nat) returns (child: Process, right: seq<string>)
    requires off <= |v| && Terminated(v, off) && index < |Args(v, off)|
    requires STD_INPUT in p.fds && STD_OUTPUT in p.fds
    modifies k`nextPipe, k`running, p
    ensures fresh(child) && child.fds == old(p.fds)[STD_INPUT := ReadEnd(old(k.nextPipe))]
    ensures right == Args(v, off)[index + 1..] && k.nextPipe == old(k.nextPipe) + 1
    ensures k.running == old(k.running) +
              [Image(Args(v, off)[..index], old(p.fds)[STD_OUTPUT := WriteEnd(old(k.nextPipe))])]
  {
    var left;
    left, right := SplitVector(v, off, index);
    child := Connect(k, p);
    k.Exec(p, left);
  }

  // pipe_command.c:15-129.  wholeRight says whether the execvp of line 123 replaces
  // the listening child, as written, or returns, as line 111 intends.
  method PipeAndExec(k: Kernel, p: Process, v: seq<Arg>, off: nat, wholeRight: bool)
    requires off <= |v| && Terminated(v, off)
    requires STD_INPUT in p.fds && STD_OUTPUT in p.fds
    modifies k, p
    ensures k.running == old(k.running + Launch(p.fds, k.nextPipe, Args(v, off), wholeRight).images)
    ensures k.refused == old(k.refused + Launch(p.fds, k.nextPipe, Args(v, off), wholeRight).refusals)
    decreases |v| - off
  {
    hide Launch, Args, First, Terminated;
    ghost var a := Args(v, off);
    ghost var base, first, before := p.fds, k.nextPipe, k.running;
    LaunchSimple(base, first, a, wholeRight);
    var index := PipePresent(v, off);
    if index == -1 {
      k.Refuse();
    } else if index == 0 {
      var argv := CopyWords(v, off);
      k.Exec(p, argv);
    } else {
      var child, right := StartLeft(k, p, v, off, index);
      if wholeRight {
        LaunchStep(base, first, a, index, k.running, before, child.fds, right);
        k.Exec(child, right);
      } else {
        SuffixTerminated(v, off, index + 1);
        LaunchStep(base, first, a, index, k.running, before, child.fds, right);
        PipeAndExec(k, child, v, off + (index + 1), wholeRight);
      }
    }
  }

  // Where the recursion ends.
  lemma LaunchSimple(base: FdTable, first: nat, a: seq<string>, wholeRight: bool)
    requires STD_INPUT in base && STD_OUTPUT in base
    ensures
      var i := First("|", a);
      && (i == 0 || i == |a| - 1 ==> Launch(base, first, a, wholeRight) == Outcome([], 1))
      && (i == |a| != 0 ==> Launch(base, first, a, wholeRight) == Outcome([Image(a, base)], 0))
  {
  }

  lemma LaunchStep(base: FdTable, first: nat, a: seq<string>, i: nat, sofar: seq<Image>, before: seq<Image>,
                   listening: FdTable, right: seq<string>)
    requires STD_INPUT in base && STD_OUTPUT in base && 0 < i < |a| - 1 && i == First("|", a)
    requires sofar == before + [Image(a[..i], base[STD_OUTPUT := WriteEnd(first)])]
    requires listening == base[STD_INPUT := ReadEnd(first)] && right == a[i + 1..]
    ensures
      var rest := Launch(listening, first + 1, right, false);
      && sofar + rest.images == before + Launch(base, first, a, false).images
      && rest.refusals == Launch(base, first, a, false).refusals
      && sofar + [Image(right, listening)] == before + Launch(base, first, a, true).images
      && Launch(base, first, a, true).refusals == 0
  {
  }

  lemma SuffixTerminated(v: seq<Arg>, off: nat, i: nat)
    requires off <= |v| && Terminated(v, off) && i <= |Args(v, off)|
    ensures off + i <= |v| && Terminated(v, off + i) && Args(v, off + i) == Args(v, off)[i..]
  {
    ArgsAt(v, off);
    assert v[off + |Args(v, off)|].Null?;
  }

  // --- what the recursion builds ---------------------------------------------------

  // As intended, the recursion wires the stages one after the other up to the first
  // refused one, and is refused once exactly when some stage is empty.
  lemma {:induction false} LaunchIsWiring(base: FdTable, first: nat, a: seq<string>)
    requires STD_INPUT in base && STD_OUTPUT in base
    ensures
      var ss := Stages(a);
      var o := Launch(base, first, a, false);
      && o.images == Wiring(base, first, ss, StartedUpTo(ss))
      && o.refusals == (if exists i :: 0 <= i < |ss| && ss[i] == [] then 1 else 0)
    decreases |a|
  {
    var i := First("|", a);
    var ss := Stages(a);
    StartedMeans(ss);
    if i == 0 || i == |a| - 1 {
      RefusedStartsNone(a);
      assert StartedUpTo(ss) == 0 < |ss|;
    } else if i == |a| {
      assert ss == [a] && StageFds(base, first, 0, 1) == base;
      assert Wiring(base, first, ss, 1)[0] == Image(a, base);
    } else {
      SplitGoesOn(a);
      LaunchIsWiring(base[STD_INPUT := ReadEnd(first)], first + 1, a[i + 1..]);
      StartedMeans(ss[1..]);
      WiringTail(base, first, ss, StartedUpTo(ss));
    }
  }

  // As written, it starts the first stage and then everything behind the first "|".
  lemma LaunchAsWritten(base: FdTable, first: nat, a: seq<string>)
    requires STD_INPUT in base && STD_OUTPUT in base
    ensures Launch(base, first, a, true).images == Coded(base, first, Stages(a))
  {
    var i := First("|", a);
    if i == 0 || i == |a| - 1 {
      RefusedStartsNone(a);
    } else if i < |a| {
      SplitGoesOn(a);
      JoinOfStages(a[i + 1..]);
    }
  }

  // --- what the wiring means -------------------------------------------------------

  predicate NoPipes(base: FdTable) {
    forall fd :: fd in base ==> base[fd].Inherited? || base[fd].File?
  }

  // For k stages: the same descriptors are open in every process as at the start;
  // only 0 and 1 changed; stage i reads pipe i-1 and writes pipe i.
  lemma StagesFormALine(base: FdTable, first: nat, ss: seq<seq<string>>, i: nat)
    requires STD_INPUT in base && STD_OUTPUT in base && i < |ss|
    ensures
      var w := Wiring(base, first, ss, |ss|);
      && w[i].argv == ss[i] && w[i].fds.Keys == base.Keys
      && (forall fd :: fd in base && fd != STD_INPUT && fd != STD_OUTPUT ==> w[i].fds[fd] == base[fd])
      && (i == 0 ==> w[i].fds[STD_INPUT] == base[STD_INPUT])
      && (i == |ss| - 1 ==> w[i].fds[STD_OUTPUT] == base[STD_OUTPUT])
      && (i + 1 < |ss| ==>
            w[i].fds[STD_OUTPUT].WriteEnd? && w[i + 1].fds[STD_INPUT].ReadEnd? &&
            w[i].fds[STD_OUTPUT].pipe == w[i + 1].fds[STD_INPUT].pipe)
  {
  }

  // Every end of every pipe is held by exactly one process, on exactly one descriptor.
  lemma EachEndHeldOnce(base: FdTable, first: nat, ss: seq<seq<string>>, j: nat)
    requires STD_INPUT in base && STD_OUTPUT in base && NoPipes(base) && ss != []
    ensures
      var w := Wiring(base, first, ss, |ss|);
      && (forall i, fd :: 0 <= i < |w| && fd in w[i].fds ==>
            (w[i].fds[fd] == ReadEnd(first + j) <==> i == j + 1 && fd == STD_INPUT))
      && (forall i, fd :: 0 <= i < |w| && fd in w[i].fds ==>
            (w[i].fds[fd] == WriteEnd(first + j) <==> i == j && i + 1 < |ss| && fd == STD_OUTPUT))
      && (forall i, fd :: 0 <= i < |w| && fd in w[i].fds && (w[i].fds[fd].ReadEnd? || w[i].fds[fd].WriteEnd?) ==>
            first <= w[i].fds[fd].pipe < first + |ss| - 1)
  {
  }

  // As written, a vector turns into the same processes as intended exactly when it has at
  // most two stages or is refused at its start; otherwise the second program is given all
  // that is left as its arguments.
  lemma CodedBoundary(base: FdTable, first: nat, a: seq<string>)
    requires STD_INPUT in base && STD_OUTPUT in base
    ensures
      var ss := Stages(a);
      var coded := Launch(base, first, a, true).images;
      && (coded == Launch(base, first, a, false).images <==> |ss| <= 2 || ss[0] == [])
      && (|ss| >= 3 && ss[0] != [] ==> |coded| == 2 && coded[1].argv == Join(ss[1..]))
  {
    var i := First("|", a);
    var ss := Stages(a);
    if 0 < i < |a| - 1 {
      SplitGoesOn(a);
      var rest := a[i + 1..];
      var listening := base[STD_INPUT := ReadEnd(first)];
      JoinOfStages(rest);
      SecondProgram(listening, first + 1, rest);
      var coded, meant := Launch(base, first, a, true).images, Launch(base, first, a, false).images;
      assert coded[1..] == [Image(rest, listening)];
      assert meant[1..] == Launch(listening, first + 1, rest, false).images;
      assert coded == meant <==> coded[1..] == meant[1..];
    } else if a != [] && i == |a| - 1 {
      assert a[i + 1..] == [] && First("|", []) == 0 && Stages([]) == [[]];
    }
  }

  // One program comes of a vector that is not empty exactly when it has one stage.
  lemma SecondProgram(base: FdTable, first: nat, a: seq<string>)
    requires STD_INPUT in base && STD_OUTPUT in base && a != []
    ensures Launch(base, first, a, false).images == [Image(a, base)] <==> |Stages(a)| == 1
  {
    var i := First("|", a);
    if 0 < i < |a| - 1 {
      var all := Launch(base, first, a, false).images;
      assert all[0].argv == a[..i];
    }
  }
}
