// The child's side of run_command in SP_HW5/Part2: redirect_in, redirect_out, then
// pipe_and_exec, on one argument vector that the redirections cut in place.
module RunCommand {
  import opened Common
  import opened ArgVector
  import opened Pipeline

  // Returning 0, returning -1, and leaving the program by exit(1).
  datatype Redirected = Done | Absent | Exited

  // The file named behind the first marker, if the marker is there and the file opens.
  ghost predicate MarkerServed(a: seq<string>, marker: string, openable: set<string>) {
    var i := First(marker, a);
    i + 1 < |a| && a[i + 1] in openable
  }

  // The loop that redirect_in.c:25-44 and redirect_out.c:23-42 share.
  method Redirect(v: array<Arg>, p: Process, marker: string, fd: nat, writing: bool, openable: set<string>)
    returns (r: Redirected)
    requires Terminated(v[..], 0) && fd in p.fds
    modifies v, p
    ensures
      var a := old(Args(v[..], 0));
      var i := First(marker, a);
      && (r == Absent <==> i == |a|)
      && (r == Done <==> MarkerServed(a, marker, openable))
      && (r == Absent ==> v[..] == old(v[..]) && p.fds == old(p.fds))
      && (r == Done ==>
            Terminated(v[..], 0) && Args(v[..], 0) == a[..i] &&
            p.fds == old(p.fds)[fd := File(a[i + 1], writing)])
  {
    hide Args, First;
    ghost var a := Args(v[..], 0);
    ghost var v0 := v[..];
    ArgsAt(v0, 0);
    var i := 0;
    while !v[i].Null?
      invariant i <= |a| && v[..] == v0 && p.fds == old(p.fds)
      invariant forall j :: 0 <= j < i ==> a[j] != marker
      decreases |a| - i
    {
      assert v0[0 + i] == Str(a[i]);
      if v[i].s == marker {
        FirstIs(marker, a, i);
        assert v0[0 + |a|].Null?;
        assert i + 1 < |a| ==> v0[0 + (i + 1)] == Str(a[i + 1]);
        var got := p.Open(v[i + 1], writing, openable);
        if got.None? {
          return Exited;
        }
        var _ := p.Dup2(got.value, fd);
        var _ := p.Close(got.value);
        forall j | i <= j < |a|
          ensures v[j].Str?
        {
          assert v0[0 + j] == Str(a[j]);
        }
        NullOut(v, i, |a|, v0);
        forall j | 0 <= j < i
          ensures v[..][0 + j] == Str(a[..i][j])
        {
          assert v0[0 + j] == Str(a[j]);
        }
        ArgsAre(v[..], 0, a[..i]);
        assert v[..][i].Null?;
        return Done;
      } else {
        i := i + 1;
      }
    }
    assert v0[0 + i].Null?;
    FirstIs(marker, a, i);
    r := Absent;
  }

  // while(myArgv[i]!=NULL) myArgv[i++]=NULL, from a word up to the terminator at n.
  method NullOut(v: array<Arg>, from: nat, ghost n: nat, ghost v0: seq<Arg>)
    requires from <= n < v.Length && v[..] == v0 && v[n].Null?
    requires forall j :: from <= j < n ==> v[j].Str?
    modifies v
    ensures forall j :: 0 <= j < v.Length ==> v[j] == if from <= j <= n then Null else v0[j]
  {
    var i := from;
    while !v[i].Null?
      invariant from <= i <= n
      invariant forall j :: 0 <= j < v.Length ==> v[j] == if from <= j < i then Null else v0[j]
      decreases n - i
    {
      v[i] := Null;
      i := i + 1;
    }
    assert i == n;
  }

  method RedirectIn(v: array<Arg>, p: Process, openable: set<string>) returns (r: Redirected)
    requires Terminated(v[..], 0) && STD_INPUT in p.fds
    modifies v, p
    ensures
      var a := old(Args(v[..], 0));
      && (r == Exited <==> "<" in a && !MarkerServed(a, "<", openable))
      && (r == Absent <==> "<" !in a)
      && (r != Exited ==>
            Terminated(v[..], 0) && Args(v[..], 0) == AfterIn(a) && p.fds == InputOf(old(p.fds), a, openable))
  {
    r := Redirect(v, p, "<", STD_INPUT, false, openable);
    ghost var a := old(Args(v[..], 0));
    assert a[..|a|] == a;
  }

  method RedirectOut(v: array<Arg>, p: Process, openable: set<string>) returns (r: Redirected)
    requires Terminated(v[..], 0) && STD_OUTPUT in p.fds
    modifies v, p
    ensures
      var a := old(Args(v[..], 0));
      && (r == Exited <==> ">" in a && !MarkerServed(a, ">", openable))
      && (r == Absent <==> ">" !in a)
      && (r != Exited ==>
            Terminated(v[..], 0) && Args(v[..], 0) == AfterOut(a) && p.fds == OutputOf(old(p.fds), a, openable))
  {
    r := Redirect(v, p, ">", STD_OUTPUT, true, openable);
    ghost var a := old(Args(v[..], 0));
    assert a[..|a|] == a;
  }

  // The descriptor table with the input, or the output, taken from a's marker.
  ghost function InputOf(fds: FdTable, a: seq<string>, openable: set<string>): FdTable {
    if MarkerServed(a, "<", openable) then fds[STD_INPUT := File(a[First("<", a) + 1], false)] else fds
  }

  ghost function OutputOf(fds: FdTable, a: seq<string>, openable: set<string>): FdTable {
    if MarkerServed(a, ">", openable) then fds[STD_OUTPUT := File(a[First(">", a) + 1], true)] else fds
  }

  // run_command.c:51-57.  Unless a marker cannot be served, what runs is the longest
  // marker-free prefix, split and wired between the redirected ends.
  method RunChild(k: Kernel, p: Process, v: array<Arg>, openable: set<string>, wholeRight: bool) returns (exited: bool)
    requires Terminated(v[..], 0) && STD_INPUT in p.fds && STD_OUTPUT in p.fds
    modifies k, p, v
    ensures
      var a := old(Args(v[..], 0));
      var b := AfterIn(a);
      exited <==> ("<" in a && !MarkerServed(a, "<", openable)) || (">" in b && !MarkerServed(b, ">", openable))
    ensures
      var a := old(Args(v[..], 0));
      var b := AfterIn(a);
      if exited then k.running == old(k.running)
      else k.running == old(k.running) +
             Launch(OutputOf(InputOf(old(p.fds), a, openable), b, openable), old(k.nextPipe), AfterOut(b), wholeRight).images
    ensures
      var a := old(Args(v[..], 0));
      var b := AfterIn(a);
      if exited then k.refused == old(k.refused)
      else k.refused == old(k.refused) +
             Launch(OutputOf(InputOf(old(p.fds), a, openable), b, openable), old(k.nextPipe), AfterOut(b), wholeRight).refusals
  {
    var r := RedirectIn(v, p, openable);
    if r == Exited {
      return true;
    }
    r := RedirectOut(v, p, openable);
    if r == Exited {
      return true;
    }
    PipeAndExec(k, p, v[..], 0, wholeRight);
    exited := false;
  }

  // The whole chain for a command line whose markers can be served: with no stage
  // empty, the stages of the longest marker-free prefix run as one line, between the
  // "<" file if there is one and the ">" file if its marker comes before any "<".
  lemma CommandLineIsWired(fds: FdTable, first: nat, a: seq<string>, openable: set<string>)
    requires STD_INPUT in fds && STD_OUTPUT in fds
    requires "<" in a ==> MarkerServed(a, "<", openable)
    requires ">" in AfterIn(a) ==> MarkerServed(AfterIn(a), ">", openable)
    requires forall i :: 0 <= i < |Stages(AfterOut(AfterIn(a)))| ==> Stages(AfterOut(AfterIn(a)))[i] != []
    ensures
      var left := AfterOut(AfterIn(a));
      var ends := OutputOf(InputOf(fds, a, openable), AfterIn(a), openable);
      && left <= a && "<" !in left && ">" !in left && (|left| < |a| ==> a[|left|] == "<" || a[|left|] == ">")
      && Launch(ends, first, left, false) ==
           Outcome(Wiring(ends, first, Stages(left), |Stages(left)|), 0)
      && ends[STD_INPUT] == (if "<" in a then File(a[First("<", a) + 1], false) else fds[STD_INPUT])
      && (ends[STD_OUTPUT] ==
            if First(">", a) < First("<", a) then File(a[First(">", a) + 1], true) else fds[STD_OUTPUT])
      && ends.Keys == fds.Keys
  {
    CutsLeaveLongestPrefix(a);
    var left := AfterOut(AfterIn(a));
    StartedMeans(Stages(left));
    LaunchIsWiring(OutputOf(InputOf(fds, a, openable), AfterIn(a), openable), first, left);
  }
}
