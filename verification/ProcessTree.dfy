// dfs_show of SP_HW4/12_2.c: a depth-first walk that rescans the whole list for each
// process, with the two flags f and l deciding how a process is laid out.
module ProcessTree {
  import opened ProcessForest

  // What reaches the screen: a process, after the connector chosen by f, with the
  // recursion depth its indentation is computed from; or an end of line.
  datatype Event = Process(rec: Rec, depth: int, inline: bool) | Newline

  // The globals f and l (12_2.c:41) and the output so far.
  datatype Screen = Screen(f: int, l: nat, out: seq<Event>)

  // --- the program's recursion, as a function on the screen ----------------------

  function EndOfScan(s: Screen): Screen {
    if s.l == 0 then s else Screen(1, 0, s.out + [Newline])
  }

  // The scan for children of p from record i on, and what follows the scan.
  ghost function Show(recs: seq<Rec>, i: nat, p: int, d: int, s: Screen): Screen
    requires Terminates(recs, p) && i <= |recs|
    decreases Room(recs, p), |recs| - i
  {
    if i == |recs| then EndOfScan(s)
    else if recs[i].ppid == p then
      RoomShrinks(recs, i);
      var printed := Screen(0, |recs[i].name|, s.out + [Process(recs[i], d, s.f == 0)]);
      Show(recs, i + 1, p, d, Show(recs, 0, recs[i].pid, d + 1, printed))
    else Show(recs, i + 1, p, d, s)
  }

  // --- the reference: preorder, and one line of layout per process ---------------

  datatype Visit = Visit(rec: nat, depth: int)

  // Preorder: the children of p from record i on in insertion order, each followed
  // by its own descendants.
  ghost function Walk(recs: seq<Rec>, i: nat, p: int, d: int): (w: seq<Visit>)
    requires Terminates(recs, p) && i <= |recs|
    ensures forall k :: 0 <= k < |w| ==> w[k].rec < |recs|
    decreases Room(recs, p), |recs| - i
  {
    if i == |recs| then []
    else if recs[i].ppid == p then
      RoomShrinks(recs, i);
      [Visit(i, d)] + Walk(recs, 0, recs[i].pid, d + 1) + Walk(recs, i + 1, p, d)
    else Walk(recs, i + 1, p, d)
  }

  predicate Leaf(recs: seq<Rec>, x: int) {
    forall j :: 0 <= j < |recs| ==> recs[j].ppid != x
  }

  // The end of line comes right behind a leaf with a name.
  predicate EndsLine(recs: seq<Rec>, v: Visit)
    requires v.rec < |recs|
  {
    Leaf(recs, recs[v.rec].pid) && recs[v.rec].name != ""
  }

  // A process goes on the line of the one before it unless that one ended its line.
  function Render(recs: seq<Rec>, w: seq<Visit>, ended: bool): seq<Event>
    requires forall k :: 0 <= k < |w| ==> w[k].rec < |recs|
  {
    if w == [] then []
    else
      [Process(recs[w[0].rec], w[0].depth, !ended)] + (if EndsLine(recs, w[0]) then [Newline] else []) +
      Render(recs, w[1..], EndsLine(recs, w[0]))
  }

  // Whether a line has just been ended, after rendering w.
  predicate EndedAfter(recs: seq<Rec>, w: seq<Visit>, ended: bool)
    requires forall k :: 0 <= k < |w| ==> w[k].rec < |recs|
  {
    if w == [] then ended else EndsLine(recs, w[|w| - 1])
  }

  lemma RenderFirst(recs: seq<Rec>, v: Visit, w: seq<Visit>, ended: bool)
    requires v.rec < |recs| && forall k :: 0 <= k < |w| ==> w[k].rec < |recs|
    ensures Render(recs, [v] + w, ended) ==
              [Process(recs[v.rec], v.depth, !ended)] + (if EndsLine(recs, v) then [Newline] else []) +
              Render(recs, w, EndsLine(recs, v))
    ensures EndedAfter(recs, [v] + w, ended) == EndedAfter(recs, w, EndsLine(recs, v))
  {
    hide EndsLine;
    assert ([v] + w)[1..] == w;
  }

  lemma Regroup(a: seq<Event>, b: seq<Event>, c: seq<Event>)
    ensures a + (b + c) == (a + b) + c
  {
  }

  lemma {:induction false} RenderConcat(recs: seq<Rec>, a: seq<Visit>, b: seq<Visit>, ended: bool)
    requires forall k :: 0 <= k < |a| ==> a[k].rec < |recs|
    requires forall k :: 0 <= k < |b| ==> b[k].rec < |recs|
    ensures Render(recs, a + b, ended) == Render(recs, a, ended) + Render(recs, b, EndedAfter(recs, a, ended))
    decreases |a|
  {
    if a == [] {
      assert a + b == b;
    } else {
      hide *;
      var v, rest := a[0], a[1..];
      assert a == [v] + rest && a + b == [v] + (rest + b);
      RenderFirst(recs, v, rest, ended);
      RenderFirst(recs, v, rest + b, ended);
      RenderConcat(recs, rest, b, EndsLine(recs, v));
      Regroup(
        [Process(recs[v.rec], v.depth, !ended)] + (if EndsLine(recs, v) then [Newline] else []),
        Render(recs, rest, EndsLine(recs, v)), Render(recs, b, EndedAfter(recs, a, ended)));
    }
  }

  lemma {:induction false} WalkOfLeaf(recs: seq<Rec>, i: nat, p: int, d: int)
    requires Terminates(recs, p) && i <= |recs|
    ensures Walk(recs, i, p, d) == [] <==> forall j :: i <= j < |recs| ==> recs[j].ppid != p
    decreases |recs| - i
  {
    if i < |recs| && recs[i].ppid != p {
      WalkOfLeaf(recs, i + 1, p, d);
    }
  }

  predicate FlagOk(s: Screen, ended: bool) {
    s.f == if ended then 1 else 0
  }

  // t is what drawing w on s leaves: its rendering, or just the end of a line that
  // was still open when there is nothing to draw.
  ghost predicate Draws(recs: seq<Rec>, s: Screen, w: seq<Visit>, ended: bool, t: Screen)
    requires forall k :: 0 <= k < |w| ==> w[k].rec < |recs|
  {
    && t.l == 0
    && (w == [] ==> t == EndOfScan(s))
    && (w != [] ==> t.out == s.out + Render(recs, w, ended) && FlagOk(t, EndedAfter(recs, w, ended)))
  }

  // Printing one process and drawing what is below it.
  lemma DrawsChild(recs: seq<Rec>, s: Screen, v: Visit, below: seq<Visit>, ended: bool, mid: Screen)
    requires v.rec < |recs| && FlagOk(s, ended)
    requires forall k :: 0 <= k < |below| ==> below[k].rec < |recs|
    requires below == [] <==> Leaf(recs, recs[v.rec].pid)
    requires Draws(recs, Screen(0, |recs[v.rec].name|, s.out + [Process(recs[v.rec], v.depth, s.f == 0)]), below, false, mid)
    ensures Draws(recs, s, [v] + below, ended, mid)
  {
    var w := [v] + below;
    assert w[1..] == below;
    assert EndedAfter(recs, w, ended) == EndedAfter(recs, below, EndsLine(recs, v));
    if below != [] {
      assert !EndsLine(recs, v);
    }
  }

  lemma DrawsThen(recs: seq<Rec>, s: Screen, a: seq<Visit>, b: seq<Visit>, ended: bool, mid: Screen, t: Screen)
    requires forall k :: 0 <= k < |a| ==> a[k].rec < |recs|
    requires forall k :: 0 <= k < |b| ==> b[k].rec < |recs|
    requires a != [] && Draws(recs, s, a, ended, mid) && Draws(recs, mid, b, EndedAfter(recs, a, ended), t)
    ensures Draws(recs, s, a + b, ended, t)
  {
    RenderConcat(recs, a, b, ended);
    if b == [] {
      assert a + b == a;
    } else {
      assert (a + b)[|a + b| - 1] == b[|b| - 1];
    }
  }

  // One step of the two recursions.
  lemma WalkStep(recs: seq<Rec>, i: nat, p: int, d: int)
    requires Terminates(recs, p) && i < |recs|
    ensures recs[i].ppid == p ==> Terminates(recs, recs[i].pid)
    ensures Walk(recs, i, p, d) ==
              if recs[i].ppid == p then [Visit(i, d)] + Walk(recs, 0, recs[i].pid, d + 1) + Walk(recs, i + 1, p, d)
              else Walk(recs, i + 1, p, d)
  {
    hide Descendant, Room;
    if recs[i].ppid == p {
      RoomShrinks(recs, i);
    }
  }

  lemma ShowStep(recs: seq<Rec>, i: nat, p: int, d: int, s: Screen)
    requires Terminates(recs, p) && i < |recs|
    ensures recs[i].ppid == p ==> Terminates(recs, recs[i].pid)
    ensures Show(recs, i, p, d, s) ==
              if recs[i].ppid == p then
                Show(recs, i + 1, p, d,
                     Show(recs, 0, recs[i].pid, d + 1,
                          Screen(0, |recs[i].name|, s.out + [Process(recs[i], d, s.f == 0)])))
              else Show(recs, i + 1, p, d, s)
  {
    hide Descendant, Room;
    if recs[i].ppid == p {
      RoomShrinks(recs, i);
    }
  }

  lemma ShowEnds(recs: seq<Rec>, p: int, d: int, s: Screen)
    requires Terminates(recs, p)
    ensures Show(recs, |recs|, p, d, s) == EndOfScan(s)
  {
    hide Descendant, Room;
  }

  lemma DrawsNothing(recs: seq<Rec>, p: int, d: int, s: Screen, ended: bool)
    requires Terminates(recs, p)
    ensures Draws(recs, s, Walk(recs, |recs|, p, d), ended, Show(recs, |recs|, p, d, s))
  {
    hide Descendant, Room;
  }

  // The program draws the walk, from any value of the flags.
  lemma {:induction false} ShowDrawsWalk(recs: seq<Rec>, i: nat, p: int, d: int, s: Screen, ended: bool)
    requires Terminates(recs, p) && i <= |recs| && FlagOk(s, ended)
    ensures Draws(recs, s, Walk(recs, i, p, d), ended, Show(recs, i, p, d, s))
    decreases Room(recs, p), |recs| - i
  {
    hide Terminates, Room, Walk, Show, Leaf, EndsLine, EndedAfter, Render;
    if i == |recs| {
      DrawsNothing(recs, p, d, s, ended);
    } else {
      WalkStep(recs, i, p, d);
      ShowStep(recs, i, p, d, s);
      if recs[i].ppid == p {
        ShowDrawsChild(recs, i, p, d, s, ended);
      } else {
        ShowDrawsWalk(recs, i + 1, p, d, s, ended);
      }
    }
  }

  lemma {:induction false} ShowDrawsChild(recs: seq<Rec>, i: nat, p: int, d: int, s: Screen, ended: bool)
    requires Terminates(recs, p) && i < |recs| && FlagOk(s, ended) && recs[i].ppid == p
    ensures Draws(recs, s, Walk(recs, i, p, d), ended, Show(recs, i, p, d, s))
    decreases Room(recs, p), |recs| - i, 0
  {
    hide Terminates, Room, Walk, Show, EndsLine, Render;
    RoomShrinks(recs, i);
    WalkStep(recs, i, p, d);
    ShowStep(recs, i, p, d, s);
    var c := recs[i].pid;
    var printed := Screen(0, |recs[i].name|, s.out + [Process(recs[i], d, s.f == 0)]);
    var below := Walk(recs, 0, c, d + 1);
    var mid := Show(recs, 0, c, d + 1, printed);
    ShowDrawsWalk(recs, 0, c, d + 1, printed, false);
    WalkOfLeaf(recs, 0, c, d + 1);
    DrawsChild(recs, s, Visit(i, d), below, ended, mid);
    var first := [Visit(i, d)] + below;
    assert FlagOk(mid, EndedAfter(recs, first, ended));
    ShowDrawsWalk(recs, i + 1, p, d, mid, EndedAfter(recs, first, ended));
    DrawsThen(recs, s, first, Walk(recs, i + 1, p, d), ended, mid, Show(recs, i, p, d, s));
  }
}
