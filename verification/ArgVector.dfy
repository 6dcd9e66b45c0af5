// NULL-terminated argument vectors of the shell in SP_HW5/Part2, and what
// splitting at "|" and cutting at "<" and ">" mean for the words in them.
module ArgVector {

  // One slot of a char** vector.
  datatype Arg = Null | Str(s: string)

  // The words from slot off up to the terminating NULL.
  function Args(v: seq<Arg>, off: nat): seq<string>
    requires off <= |v|
    decreases |v| - off
  {
    if off == |v| || v[off].Null? then [] else [v[off].s] + Args(v, off + 1)
  }

  predicate Terminated(v: seq<Arg>, off: nat) {
    exists i :: off <= i < |v| && v[i].Null?
  }

  // The words end where the first NULL stands.
  lemma {:induction false} ArgsEnd(v: seq<Arg>, off: nat)
    requires off <= |v| && Terminated(v, off)
    ensures off + |Args(v, off)| < |v| && v[off + |Args(v, off)|].Null?
    decreases |v| - off
  {
    if !v[off].Null? {
      ArgsEnd(v, off + 1);
    }
  }

  lemma {:induction false} ArgsSuffix(v: seq<Arg>, off: nat, i: nat)
    requires off <= |v| && i <= |Args(v, off)|
    ensures off + i <= |v| && Args(v, off + i) == Args(v, off)[i..]
    decreases i
  {
    if i > 0 {
      var a, b := Args(v, off), Args(v, off + 1);
      assert a == [v[off].s] + b;
      ArgsSuffix(v, off + 1, i - 1);
      assert a[i..] == b[i - 1..];
    }
  }

  // The vector and its words agree slot by slot, and the NULL follows the last word.
  lemma ArgsAt(v: seq<Arg>, off: nat)
    requires off <= |v| && Terminated(v, off)
    ensures var a := Args(v, off);
      off + |a| < |v| && v[off + |a|].Null? &&
      (forall i :: 0 <= i < |a| ==> v[off + i] == Str(a[i])) &&
      (forall i :: 0 <= i <= |a| ==> Args(v, off + i) == a[i..])
  {
    var a := Args(v, off);
    ArgsEnd(v, off);
    forall i | 0 <= i <= |a|
      ensures Args(v, off + i) == a[i..]
    {
      ArgsSuffix(v, off, i);
    }
    forall i | 0 <= i < |a|
      ensures v[off + i] == Str(a[i])
    {
      ArgsSuffix(v, off, i);
      assert a[i..][0] == a[i];
    }
  }

  // The words of a vector are what stands before its first NULL.
  lemma {:induction false} ArgsAre(v: seq<Arg>, off: nat, a: seq<string>)
    requires off + |a| < |v| && v[off + |a|].Null?
    requires forall i :: 0 <= i < |a| ==> v[off + i] == Str(a[i])
    ensures Args(v, off) == a
    decreases |a|
  {
    if a != [] {
      assert v[off + 0] == Str(a[0]);
      forall i | 0 <= i < |a[1..]|
        ensures v[off + 1 + i] == Str(a[1..][i])
      {
        assert v[off + (i + 1)] == Str(a[i + 1]);
      }
      ArgsAre(v, off + 1, a[1..]);
    }
  }

  // i is where x first occurs, or the length if it does not.
  ghost predicate IsFirst(x: string, a: seq<string>, i: nat) {
    i <= |a| && (i < |a| ==> a[i] == x) && forall j :: 0 <= j < i ==> a[j] != x
  }

  lemma {:induction false} FirstExists(x: string, a: seq<string>)
    ensures exists i: nat :: IsFirst(x, a, i)
  {
    if a == [] || a[0] == x {
      assert IsFirst(x, a, 0);
    } else {
      FirstExists(x, a[1..]);
      var i: nat :| IsFirst(x, a[1..], i);
      assert forall j :: 1 <= j < |a| ==> a[j] == a[1..][j - 1];
      assert IsFirst(x, a, i + 1);
    }
  }

  ghost function First(x: string, a: seq<string>): (i: nat)
    ensures IsFirst(x, a, i)
  {
    FirstExists(x, a);
    var i: nat :| IsFirst(x, a, i);
    i
  }

  lemma FirstIs(x: string, a: seq<string>, i: nat)
    requires IsFirst(x, a, i)
    ensures First(x, a) == i
  {
  }

  // --- splitting ---------------------------------------------------------------

  ghost function Stages(a: seq<string>): (ss: seq<seq<string>>)
    ensures ss != []
    decreases |a|
  {
    var i := First("|", a);
    if i == |a| then [a] else [a[..i]] + Stages(a[i + 1..])
  }

  function Join(ss: seq<seq<string>>): seq<string>
    requires ss != []
  {
    if |ss| == 1 then ss[0] else ss[0] + ["|"] + Join(ss[1..])
  }

  predicate PipeFree(ss: seq<seq<string>>) {
    forall i :: 0 <= i < |ss| ==> "|" !in ss[i]
  }

  // Splitting loses nothing.
  lemma {:induction false} JoinOfStages(a: seq<string>)
    ensures PipeFree(Stages(a)) && Join(Stages(a)) == a
    decreases |a|
  {
    var i := First("|", a);
    if i < |a| {
      var rest := Stages(a[i + 1..]);
      JoinOfStages(a[i + 1..]);
      assert Stages(a) == [a[..i]] + rest && Stages(a)[1..] == rest;
      assert a == a[..i] + ["|"] + a[i + 1..];
    }
  }

  // And it is the only way to split: any list of pipe-free stages comes back.
  lemma {:induction false} StagesOfJoin(ss: seq<seq<string>>)
    requires ss != [] && PipeFree(ss)
    ensures Stages(Join(ss)) == ss
    decreases |ss|
  {
    var a := Join(ss);
    if |ss| == 1 {
      FirstIs("|", a, |a|);
    } else {
      assert "|" !in ss[0];
      FirstIs("|", a, |ss[0]|);
      assert a[..|ss[0]|] == ss[0] && a[|ss[0]| + 1..] == Join(ss[1..]);
      assert PipeFree(ss[1..]) by {
        assert forall i :: 0 <= i < |ss[1..]| ==> ss[1..][i] == ss[i + 1];
      }
      StagesOfJoin(ss[1..]);
    }
  }

  // How many stages are started before one is refused.  pipe_present refuses a
  // vector that starts with "|" or is empty, and one whose first "|" comes last.
  ghost function Started(ss: seq<seq<string>>): nat
    requires ss != []
  {
    if ss[0] == [] then 0
    else if |ss| == 1 then 1
    else if |ss| == 2 && ss[1] == [] then 0
    else 1 + Started(ss[1..])
  }

  // Every stage is started exactly when none is empty.  Otherwise those before the
  // first empty one are, except that a trailing "|" takes the stage before it along.
  lemma {:induction false} StartedMeans(ss: seq<seq<string>>)
    requires ss != []
    ensures Started(ss) == |ss| <==> forall i :: 0 <= i < |ss| ==> ss[i] != []
    ensures Started(ss) <= |ss|
    ensures forall e :: 0 <= e < |ss| && ss[e] == [] && (forall i :: 0 <= i < e ==> ss[i] != []) ==>
              Started(ss) == if e == |ss| - 1 && e > 0 then e - 1 else e
    decreases |ss|
  {
    if ss[0] != [] && |ss| > 1 && !(|ss| == 2 && ss[1] == []) {
      var rest := ss[1..];
      StartedMeans(rest);
      assert forall i :: 0 <= i < |rest| ==> rest[i] == ss[i + 1];
      assert (forall i :: 0 <= i < |rest| ==> rest[i] != []) ==> forall i :: 0 <= i < |ss| ==> ss[i] != [] by {
        if forall i :: 0 <= i < |rest| ==> rest[i] != [] {
          forall i | 0 <= i < |ss| ensures ss[i] != [] {
            if i > 0 { assert rest[i - 1] == ss[i]; }
          }
        }
      }
      forall e | 0 <= e < |ss| && ss[e] == [] && forall i :: 0 <= i < e ==> ss[i] != []
        ensures Started(ss) == if e == |ss| - 1 && e > 0 then e - 1 else e
      {
        assert e > 0 && rest[e - 1] == [] && forall i :: 0 <= i < e - 1 ==> rest[i] != [];
      }
    }
  }

  // --- redirection ---------------------------------------------------------------

  ghost function AfterIn(a: seq<string>): seq<string> {
    a[..First("<", a)]
  }

  ghost function AfterOut(a: seq<string>): seq<string> {
    a[..First(">", a)]
  }

  // Cutting at "<" and then at ">" leaves the longest prefix free of both, and a ">"
  // survives the first cut exactly when it comes before the first "<".
  lemma CutsLeaveLongestPrefix(a: seq<string>)
    ensures
      var left := AfterOut(AfterIn(a));
      && left <= a && "<" !in left && ">" !in left
      && (|left| < |a| ==> a[|left|] == "<" || a[|left|] == ">")
      && (">" in AfterIn(a) <==> First(">", a) < First("<", a))
      && (">" in AfterIn(a) ==> First(">", AfterIn(a)) == First(">", a))
  {
    var b := AfterIn(a);
    var left := AfterOut(b);
    if First(">", a) < First("<", a) {
      FirstIs(">", b, First(">", a));
      assert b[First(">", a)] == ">";
    } else {
      FirstIs(">", b, |b|);
    }
  }
}
