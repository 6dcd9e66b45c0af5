// What dfs_show prints: every descendant once, in preorder, and how the flags lay it out.
module ProcessTreeResults {
  import opened Common
  import opened ProcessForest
  import opened ProcessTree

  // --- who is visited ------------------------------------------------------------

  // Every visit lies m steps below one of the children of p from record i on.
  ghost predicate Via(recs: seq<Rec>, i: nat, p: int, d: int, v: Visit, j: nat, m: nat) {
    && v.rec < |recs| && i <= j < |recs| && recs[j].ppid == p
    && Up(recs, recs[v.rec].pid, m) == Some(recs[j].pid) && v.depth == d + m
  }

  lemma {:induction false} VisitsAreBelow(recs: seq<Rec>, i: nat, p: int, d: int, k: nat)
    requires Terminates(recs, p) && i <= |recs| && k < |Walk(recs, i, p, d)|
    ensures exists j: nat, m: nat :: Via(recs, i, p, d, Walk(recs, i, p, d)[k], j, m)
    decreases Room(recs, p), |recs| - i
  {
    hide Descendant, Room, Walk, Find, Parent;
    NothingLeft(recs, i, p, d, k);
    WalkStep(recs, i, p, d);
    if recs[i].ppid == p {
      RoomShrinks(recs, i);
      var c := recs[i].pid;
      var below := Walk(recs, 0, c, d + 1);
      if k == 0 {
        assert Up(recs, recs[i].pid, 0) == Some(recs[i].pid);
        assert Via(recs, i, p, d, Walk(recs, i, p, d)[k], i, 0);
      } else if k <= |below| {
        VisitsAreBelow(recs, 0, c, d + 1, k - 1);
        var j: nat, m: nat :| Via(recs, 0, c, d + 1, below[k - 1], j, m);
        ParentOfRecord(recs, j);
        assert Walk(recs, i, p, d)[k] == below[k - 1];
        assert Up(recs, recs[below[k - 1].rec].pid, m + 1) == Some(c);
        assert Via(recs, i, p, d, below[k - 1], i, m + 1);
      } else {
        var rest := Walk(recs, i + 1, p, d);
        VisitsAreBelow(recs, i + 1, p, d, k - 1 - |below|);
        var j: nat, m: nat :| Via(recs, i + 1, p, d, rest[k - 1 - |below|], j, m);
        assert Walk(recs, i, p, d)[k] == rest[k - 1 - |below|];
        assert Via(recs, i, p, d, rest[k - 1 - |below|], j, m);
      }
    } else {
      VisitsAreBelow(recs, i + 1, p, d, k);
      var j: nat, m: nat :| Via(recs, i + 1, p, d, Walk(recs, i, p, d)[k], j, m);
      assert Via(recs, i, p, d, Walk(recs, i, p, d)[k], j, m);
    }
  }

  // A child from i on is visited, and so is everything its own walk visits.
  lemma {:induction false} ChildIsVisited(recs: seq<Rec>, i: nat, p: int, d: int, j: nat)
    requires Terminates(recs, p) && i <= j < |recs| && recs[j].ppid == p
    ensures Visit(j, d) in Walk(recs, i, p, d)
    ensures Terminates(recs, recs[j].pid)
    ensures forall v :: v in Walk(recs, 0, recs[j].pid, d + 1) ==> v in Walk(recs, i, p, d)
    decreases j - i
  {
    hide Descendant, Room, Walk;
    WalkStep(recs, i, p, d);
    if i < j {
      ChildIsVisited(recs, i + 1, p, d, j);
    }
  }

  lemma {:induction false} DescendantIsVisited(recs: seq<Rec>, q: int, n: nat, p: int, d: int)
    requires Terminates(recs, p) && n > 0 && Up(recs, q, n) == Some(p)
    ensures Find(recs, q) < |recs| && Visit(Find(recs, q), d + n - 1) in Walk(recs, 0, p, d)
    decreases n
  {
    hide Descendant, Room, Walk;
    var c := Up(recs, q, n - 1).value;
    var j := Find(recs, c);
    ChildIsVisited(recs, 0, p, d, j);
    if n > 1 {
      DescendantIsVisited(recs, q, n - 1, c, d + 1);
    }
  }

  // The walk visits exactly the proper descendants of p, each at depth d plus its
  // distance from p, less one.
  lemma WalkIsDescendants(recs: seq<Rec>, p: int, d: int, q: int, n: nat)
    requires Terminates(recs, p) && n > 0
    ensures Up(recs, q, n) == Some(p) <==>
              exists k :: 0 <= k < |Walk(recs, 0, p, d)| &&
                          recs[Walk(recs, 0, p, d)[k].rec].pid == q && Walk(recs, 0, p, d)[k].depth == d + n - 1
  {
    var w := Walk(recs, 0, p, d);
    if Up(recs, q, n) == Some(p) {
      DescendantIsVisited(recs, q, n, p, d);
      var k :| 0 <= k < |w| && w[k] == Visit(Find(recs, q), d + n - 1);
    }
    if k :| 0 <= k < |w| && recs[w[k].rec].pid == q && w[k].depth == d + n - 1 {
      VisitsAreBelow(recs, 0, p, d, k);
      var j: nat, m: nat :| Via(recs, 0, p, d, w[k], j, m);
      ParentOfRecord(recs, j);
      var distance: nat := m + 1;
      if distance != n {
        TwoDistances(recs, q, distance, n, p);
      }
    }
  }

  // So exactly the processes with p among their ancestors are on the screen.
  lemma WalkVisitsDescendants(recs: seq<Rec>, p: int, d: int, q: int)
    requires Terminates(recs, p)
    ensures Descendant(recs, q, p) <==>
              exists k :: 0 <= k < |Walk(recs, 0, p, d)| && recs[Walk(recs, 0, p, d)[k].rec].pid == q
  {
    var w := Walk(recs, 0, p, d);
    if Descendant(recs, q, p) {
      var n: nat :| n > 0 && Up(recs, q, n) == Some(p);
      WalkIsDescendants(recs, p, d, q, n);
    }
    if k :| 0 <= k < |w| && recs[w[k].rec].pid == q {
      VisitsAreBelow(recs, 0, p, d, k);
      var j: nat, m: nat :| Via(recs, 0, p, d, w[k], j, m);
      WalkIsDescendants(recs, p, d, q, m + 1);
    }
  }

  // Two visits below two different children of p are of different processes, and a
  // common parent puts them in the order of those children.
  lemma TwoChildren(recs: seq<Rec>, p: int, d: int, v: Visit, j: nat, m: nat, v': Visit, j': nat, m': nat)
    requires Terminates(recs, p)
    requires Via(recs, 0, p, d, v, j, m) && Via(recs, 0, p, d, v', j', m') && j != j'
    ensures v.rec != v'.rec
    ensures recs[v.rec].ppid == recs[v'.rec].ppid ==> v.rec == j && v'.rec == j'
  {
    hide Descendant, Find, Parent;
    SameDistance(recs, p, d, v, j, m, v', j', m');
    assert recs[j].pid != recs[j'].pid;
    if m > 0 && m' > 0 {
      UpFromParent(recs, recs[v.rec].pid, m - 1);
      UpFromParent(recs, recs[v'.rec].pid, m' - 1);
    }
    ParentOfRecord(recs, v.rec);
    ParentOfRecord(recs, v'.rec);
    ParentOfRecord(recs, j);
    ParentOfRecord(recs, j');
  }

  // Visits of one process, or of siblings, are equally far down.
  lemma SameDistance(recs: seq<Rec>, p: int, d: int, v: Visit, j: nat, m: nat, v': Visit, j': nat, m': nat)
    requires Terminates(recs, p) && Via(recs, 0, p, d, v, j, m) && Via(recs, 0, p, d, v', j', m')
    ensures v.rec == v'.rec || recs[v.rec].ppid == recs[v'.rec].ppid ==> m == m'
  {
    hide Find, Parent, Descendant;
    BelowParent(recs, p, d, v, j, m);
    BelowParent(recs, p, d, v', j', m');
    if recs[v.rec].ppid == recs[v'.rec].ppid && m != m' {
      TwoDistances(recs, recs[v.rec].ppid, m, m', p);
    }
  }

  // The parent of a visit m below a child of p is m below p.
  lemma BelowParent(recs: seq<Rec>, p: int, d: int, v: Visit, j: nat, m: nat)
    requires DistinctPids(recs) && Via(recs, 0, p, d, v, j, m)
    ensures Up(recs, recs[v.rec].ppid, m) == Some(p)
  {
    hide Find, Parent;
    ParentOfRecord(recs, v.rec);
    ParentOfRecord(recs, j);
    UpFromParent(recs, recs[v.rec].pid, m);
    assert Up(recs, recs[v.rec].pid, m + 1) == Some(p);
  }

  predicate Ordered(recs: seq<Rec>, a: Visit, b: Visit)
    requires a.rec < |recs| && b.rec < |recs|
  {
    a.rec != b.rec && (recs[a.rec].ppid == recs[b.rec].ppid ==> a.rec < b.rec)
  }

  // No process is visited twice, and siblings come in insertion order.
  lemma {:induction false} WalkIsOrdered(recs: seq<Rec>, i: nat, p: int, d: int, a: nat, b: nat)
    requires Terminates(recs, p) && i <= |recs| && a < b < |Walk(recs, i, p, d)|
    ensures Ordered(recs, Walk(recs, i, p, d)[a], Walk(recs, i, p, d)[b])
    decreases Room(recs, p), |recs| - i
  {
    hide Terminates, Room, Walk, Ordered;
    NothingLeft(recs, i, p, d, a);
    WalkStep(recs, i, p, d);
    if recs[i].ppid == p {
      RoomShrinks(recs, i);
      var c := recs[i].pid;
      var cut := 1 + |Walk(recs, 0, c, d + 1)|;
      if 0 < a && b < cut {
        WalkIsOrdered(recs, 0, c, d + 1, a - 1, b - 1);
      } else if cut <= a {
        WalkIsOrdered(recs, i + 1, p, d, a - cut, b - cut);
      } else if b < cut {
        ChildBeforeBelow(recs, i, p, d, b - 1);
      } else {
        SubtreeBeforeRest(recs, i, p, d, a, b - cut);
      }
    } else {
      WalkIsOrdered(recs, i + 1, p, d, a, b);
    }
  }

  // A walk that visits anybody has not come to the end of the list.
  lemma NothingLeft(recs: seq<Rec>, i: nat, p: int, d: int, k: nat)
    requires Terminates(recs, p) && i <= |recs| && k < |Walk(recs, i, p, d)|
    ensures i < |recs|
  {
    hide Descendant, Room;
  }

  lemma ChildBeforeBelow(recs: seq<Rec>, i: nat, p: int, d: int, k: nat)
    requires Terminates(recs, p) && i < |recs| && recs[i].ppid == p && Terminates(recs, recs[i].pid)
    requires k < |Walk(recs, 0, recs[i].pid, d + 1)|
    ensures Ordered(recs, Visit(i, d), Walk(recs, 0, recs[i].pid, d + 1)[k])
  {
    hide Descendant, Room, Walk;
    var v := Walk(recs, 0, recs[i].pid, d + 1)[k];
    var m := BelowChild(recs, i, p, d, k);
    assert Up(recs, recs[i].pid, 0) == Some(recs[i].pid);
    assert Via(recs, 0, p, d, Visit(i, d), i, 0);
    SameDistance(recs, p, d, Visit(i, d), i, 0, v, i, m);
  }

  lemma SubtreeBeforeRest(recs: seq<Rec>, i: nat, p: int, d: int, a: nat, k: nat)
    requires Terminates(recs, p) && i < |recs| && recs[i].ppid == p && Terminates(recs, recs[i].pid)
    requires a <= |Walk(recs, 0, recs[i].pid, d + 1)| && k < |Walk(recs, i + 1, p, d)|
    ensures Ordered(recs, Walk(recs, i, p, d)[a], Walk(recs, i + 1, p, d)[k])
  {
    hide Descendant, Room, Walk;
    WalkStep(recs, i, p, d);
    var v, v' := Walk(recs, i, p, d)[a], Walk(recs, i + 1, p, d)[k];
    var m: nat := 0;
    if a > 0 {
      m := BelowChild(recs, i, p, d, a - 1);
      assert v == Walk(recs, 0, recs[i].pid, d + 1)[a - 1];
    } else {
      assert Up(recs, recs[i].pid, 0) == Some(recs[i].pid);
    }
    assert Via(recs, 0, p, d, v, i, m);
    VisitsAreBelow(recs, i + 1, p, d, k);
    var j: nat, m': nat :| Via(recs, i + 1, p, d, v', j, m');
    assert Via(recs, 0, p, d, v', j, m');
    TwoChildren(recs, p, d, v, i, m, v', j, m');
  }

  lemma BelowChild(recs: seq<Rec>, i: nat, p: int, d: int, k: nat) returns (m: nat)
    requires Terminates(recs, p) && i < |recs| && recs[i].ppid == p && Terminates(recs, recs[i].pid)
    requires k < |Walk(recs, 0, recs[i].pid, d + 1)|
    ensures m > 0 && Via(recs, 0, p, d, Walk(recs, 0, recs[i].pid, d + 1)[k], i, m)
  {
    VisitsAreBelow(recs, 0, recs[i].pid, d + 1, k);
    var j: nat, n: nat :| Via(recs, 0, recs[i].pid, d + 1, Walk(recs, 0, recs[i].pid, d + 1)[k], j, n);
    ParentOfRecord(recs, j);
    m := n + 1;
  }

  // --- layout ----------------------------------------------------------------------

  // p has no children in front of record i.
  predicate NoneBefore(recs: seq<Rec>, p: int, i: nat)
    requires i <= |recs|
  {
    forall j :: 0 <= j < i ==> recs[j].ppid != p
  }

  predicate FirstChild(recs: seq<Rec>, r: nat)
    requires r < |recs|
  {
    NoneBefore(recs, recs[r].ppid, r)
  }

  lemma NothingBeforeFirst(recs: seq<Rec>, p: int)
    ensures NoneBefore(recs, p, 0)
  {
  }

  lemma NoneBeforeStep(recs: seq<Rec>, p: int, i: nat)
    requires i < |recs|
    ensures NoneBefore(recs, p, i + 1) <==> NoneBefore(recs, p, i) && recs[i].ppid != p
  {
  }

  lemma {:induction false} WalkEndsInLeaf(recs: seq<Rec>, i: nat, p: int, d: int)
    requires Terminates(recs, p) && i <= |recs| && Walk(recs, i, p, d) != []
    ensures var w := Walk(recs, i, p, d); Leaf(recs, recs[w[|w| - 1].rec].pid)
    decreases Room(recs, p), |recs| - i
  {
    hide Terminates, Room, Walk;
    NothingLeft(recs, i, p, d, 0);
    WalkStep(recs, i, p, d);
    if recs[i].ppid == p {
      RoomShrinks(recs, i);
      if Walk(recs, i + 1, p, d) != [] {
        WalkEndsInLeaf(recs, i + 1, p, d);
      } else if Walk(recs, 0, recs[i].pid, d + 1) != [] {
        WalkEndsInLeaf(recs, 0, recs[i].pid, d + 1);
      } else {
        WalkOfLeaf(recs, 0, recs[i].pid, d + 1);
      }
    } else {
      WalkEndsInLeaf(recs, i + 1, p, d);
    }
  }

  // In preorder, what follows a process with children is its first child, and what
  // follows a leaf is nobody's first child.
  lemma {:induction false} FirstChildFollowsParent(recs: seq<Rec>, i: nat, p: int, d: int, k: nat)
    requires Terminates(recs, p) && i <= |recs| && k < |Walk(recs, i, p, d)|
    ensures
      var w := Walk(recs, i, p, d);
      FirstChild(recs, w[k].rec) <==>
        if k == 0 then NoneBefore(recs, p, i) else !Leaf(recs, recs[w[k - 1].rec].pid)
    decreases Room(recs, p), |recs| - i
  {
    hide Terminates, Room, Walk, Leaf, NoneBefore;
    NothingLeft(recs, i, p, d, k);
    WalkStep(recs, i, p, d);
    NoneBeforeStep(recs, p, i);
    if recs[i].ppid == p {
      RoomShrinks(recs, i);
      var below := Walk(recs, 0, recs[i].pid, d + 1);
      if 0 < k <= |below| {
        FirstChildFollowsParent(recs, 0, recs[i].pid, d + 1, k - 1);
        assert NoneBefore(recs, recs[i].pid, 0) by { NothingBeforeFirst(recs, recs[i].pid); }
        FirstBelow(recs, i, p, d, k);
      } else if k > |below| {
        FirstChildFollowsParent(recs, i + 1, p, d, k - 1 - |below|);
        FirstBehind(recs, i, p, d, k);
      }
    } else {
      FirstChildFollowsParent(recs, i + 1, p, d, k);
    }
  }

  // The visits below the child i are those of its own walk.
  lemma FirstBelow(recs: seq<Rec>, i: nat, p: int, d: int, k: nat)
    requires Terminates(recs, p) && i < |recs| && recs[i].ppid == p && Terminates(recs, recs[i].pid)
    requires 0 < k <= |Walk(recs, 0, recs[i].pid, d + 1)|
    ensures
      var w := Walk(recs, i, p, d);
      var below := Walk(recs, 0, recs[i].pid, d + 1);
      && k < |w| && w[k] == below[k - 1]
      && (if k == 1 then !Leaf(recs, recs[w[0].rec].pid) else w[k - 1] == below[k - 2])
  {
    hide Terminates, Room, Walk;
    WalkStep(recs, i, p, d);
    WalkOfLeaf(recs, 0, recs[i].pid, d + 1);
  }

  // And those behind them are the rest of the walk, entered from a leaf.
  lemma FirstBehind(recs: seq<Rec>, i: nat, p: int, d: int, k: nat)
    requires Terminates(recs, p) && i < |recs| && recs[i].ppid == p && Terminates(recs, recs[i].pid)
    requires |Walk(recs, 0, recs[i].pid, d + 1)| < k < |Walk(recs, i, p, d)|
    ensures
      var w := Walk(recs, i, p, d);
      var rest := Walk(recs, i + 1, p, d);
      var at := k - 1 - |Walk(recs, 0, recs[i].pid, d + 1)|;
      && at < |rest| && w[k] == rest[at]
      && (if at == 0 then Leaf(recs, recs[w[k - 1].rec].pid) else w[k - 1] == rest[at - 1])
  {
    hide Terminates, Room, Walk;
    var c := recs[i].pid;
    var below := Walk(recs, 0, c, d + 1);
    WalkStep(recs, i, p, d);
    if k == 1 + |below| {
      WalkOfLeaf(recs, 0, c, d + 1);
      if below != [] {
        WalkEndsInLeaf(recs, 0, c, d + 1);
        assert Walk(recs, i, p, d)[k - 1] == below[|below| - 1];
      }
    }
  }

  function Processes(out: seq<Event>): seq<Event> {
    if out == [] then [] else (if out[0].Process? then [out[0]] else []) + Processes(out[1..])
  }

  function Lines(out: seq<Event>): nat {
    Count((e: Event) => e == Newline, out)
  }

  // Only here is a line ended, and each process continues an unended one.
  lemma {:induction false} RenderMeans(recs: seq<Rec>, w: seq<Visit>, ended: bool)
    requires forall k :: 0 <= k < |w| ==> w[k].rec < |recs|
    ensures var ps := Processes(Render(recs, w, ended));
      |ps| == |w| &&
      (forall k :: 0 <= k < |w| ==>
        ps[k] == Process(recs[w[k].rec], w[k].depth, if k == 0 then !ended else !EndsLine(recs, w[k - 1])))
    ensures Lines(Render(recs, w, ended)) == Count(EndsLineOf(recs), w)
  {
    if w != [] {
      var v, rest := w[0], w[1..];
      assert w == [v] + rest;
      RenderMeans(recs, rest, EndsLine(recs, v));
      RenderedFirst(recs, v, rest, ended);
      hide EndsLine, Render, Processes, Lines, EndsLineOf;
    }
  }

  lemma RenderedFirst(recs: seq<Rec>, v: Visit, w: seq<Visit>, ended: bool)
    requires v.rec < |recs| && forall k :: 0 <= k < |w| ==> w[k].rec < |recs|
    ensures Processes(Render(recs, [v] + w, ended)) ==
              [Process(recs[v.rec], v.depth, !ended)] + Processes(Render(recs, w, EndsLine(recs, v)))
    ensures Lines(Render(recs, [v] + w, ended)) ==
              (if EndsLine(recs, v) then 1 else 0) + Lines(Render(recs, w, EndsLine(recs, v)))
    ensures Count(EndsLineOf(recs), [v] + w) == (if EndsLine(recs, v) then 1 else 0) + Count(EndsLineOf(recs), w)
  {
    hide Render, Processes, Lines;
    RenderFirst(recs, v, w, ended);
    var shown := Render(recs, w, EndsLine(recs, v));
    FirstProcess(Process(recs[v.rec], v.depth, !ended), EndsLine(recs, v), shown);
    assert Render(recs, [v] + w, ended) ==
           [Process(recs[v.rec], v.depth, !ended)] + ((if EndsLine(recs, v) then [Newline] else []) + shown);
    assert ([v] + w)[1..] == w;
  }

  lemma FirstProcess(e: Event, end: bool, shown: seq<Event>)
    requires e.Process?
    ensures
      var out := [e] + ((if end then [Newline] else []) + shown);
      Processes(out) == [e] + Processes(shown) && Lines(out) == (if end then 1 else 0) + Lines(shown)
  {
    var tail := (if end then [Newline] else []) + shown;
    var out := [e] + tail;
    assert out[1..] == tail;
    if end {
      assert tail[1..] == shown;
      assert Lines(tail) == 1 + Lines(shown);
    } else {
      assert tail == shown;
    }
  }

  function EndsLineOf(recs: seq<Rec>): Visit -> bool {
    (v: Visit) => v.rec < |recs| && EndsLine(recs, v)
  }

  function LeafOf(recs: seq<Rec>): Visit -> bool {
    (v: Visit) => v.rec < |recs| && Leaf(recs, recs[v.rec].pid)
  }

  // The screen of main's call, dfs_show(root, p, d) with f and l still 0.
  ghost function Shown(recs: seq<Rec>, p: int, d: int): seq<Event>
    requires Terminates(recs, p)
  {
    Show(recs, 0, p, d, Screen(0, 0, [])).out
  }

  lemma ShownIsRendered(recs: seq<Rec>, p: int, d: int)
    requires Terminates(recs, p)
    ensures Shown(recs, p, d) == Render(recs, Walk(recs, 0, p, d), false)
  {
    ShowDrawsWalk(recs, 0, p, d, Screen(0, 0, []), false);
  }

  // The processes on the screen are the walk; one is inline exactly when it is a first
  // child or comes behind a leaf without a name.
  lemma InlineRule(recs: seq<Rec>, p: int, d: int, k: nat)
    requires Terminates(recs, p) && k < |Walk(recs, 0, p, d)|
    ensures
      var w := Walk(recs, 0, p, d);
      var ps := Processes(Shown(recs, p, d));
      && |ps| == |w| && ps[k].Process? && ps[k].rec == recs[w[k].rec] && ps[k].depth == w[k].depth
      && (ps[k].inline <==>
            FirstChild(recs, w[k].rec) ||
            (k > 0 && Leaf(recs, recs[w[k - 1].rec].pid) && recs[w[k - 1].rec].name == ""))
  {
    ShownIsRendered(recs, p, d);
    RenderMeans(recs, Walk(recs, 0, p, d), false);
    FirstChildFollowsParent(recs, 0, p, d, k);
  }

  ghost predicate InlineIsFirstChild(recs: seq<Rec>, p: int, d: int)
    requires Terminates(recs, p)
  {
    var w := Walk(recs, 0, p, d);
    var ps := Processes(Shown(recs, p, d));
    |ps| == |w| && forall k :: 0 <= k < |w| ==> ps[k].Process? && (ps[k].inline <==> FirstChild(recs, w[k].rec))
  }

  // So inline means first child throughout exactly when every leaf but the last one
  // printed has a name.
  lemma InlineBoundary(recs: seq<Rec>, p: int, d: int)
    requires Terminates(recs, p)
    ensures
      var w := Walk(recs, 0, p, d);
      InlineIsFirstChild(recs, p, d) <==>
        forall k :: 0 <= k < |w| - 1 && Leaf(recs, recs[w[k].rec].pid) ==> recs[w[k].rec].name != ""
  {
    var w := Walk(recs, 0, p, d);
    ShownIsRendered(recs, p, d);
    RenderMeans(recs, w, false);
    var ps := Processes(Shown(recs, p, d));
    forall k | 0 <= k < |w|
      ensures
        ps[k].Process? &&
        (ps[k].inline <==>
           FirstChild(recs, w[k].rec) ||
           (k > 0 && Leaf(recs, recs[w[k - 1].rec].pid) && recs[w[k - 1].rec].name == ""))
    {
      InlineRule(recs, p, d, k);
    }
    forall k | 0 <= k < |w|
      ensures k > 0 && Leaf(recs, recs[w[k - 1].rec].pid) ==> !FirstChild(recs, w[k].rec)
    {
      FirstChildFollowsParent(recs, 0, p, d, k);
    }
    if InlineIsFirstChild(recs, p, d) {
      forall k | 0 <= k < |w| - 1 && Leaf(recs, recs[w[k].rec].pid)
        ensures recs[w[k].rec].name != ""
      {
        assert !FirstChild(recs, w[k + 1].rec);
      }
    } else {
      var k :| 0 <= k < |w| && !(ps[k].inline <==> FirstChild(recs, w[k].rec));
      assert k > 0 && Leaf(recs, recs[w[k - 1].rec].pid) && recs[w[k - 1].rec].name == "";
    }
  }

  // There are as many ends of line as leaves with a name, hence one for each leaf
  // exactly when every leaf has one.
  lemma LineBoundary(recs: seq<Rec>, p: int, d: int)
    requires Terminates(recs, p)
    ensures
      var w := Walk(recs, 0, p, d);
      && Lines(Shown(recs, p, d)) == Count(EndsLineOf(recs), w) <= Count(LeafOf(recs), w)
      && (Lines(Shown(recs, p, d)) == Count(LeafOf(recs), w) <==>
            forall k :: 0 <= k < |w| && Leaf(recs, recs[w[k].rec].pid) ==> recs[w[k].rec].name != "")
  {
    ShownIsRendered(recs, p, d);
    RenderMeans(recs, Walk(recs, 0, p, d), false);
    NamedLeaves(recs, Walk(recs, 0, p, d));
  }

  lemma {:induction false} NamedLeaves(recs: seq<Rec>, w: seq<Visit>)
    requires forall k :: 0 <= k < |w| ==> w[k].rec < |recs|
    ensures Count(EndsLineOf(recs), w) <= Count(LeafOf(recs), w)
    ensures Count(EndsLineOf(recs), w) == Count(LeafOf(recs), w) <==>
              forall k :: 0 <= k < |w| && Leaf(recs, recs[w[k].rec].pid) ==> recs[w[k].rec].name != ""
  {
    if w != [] {
      NamedLeaves(recs, w[1..]);
      assert forall k :: 1 <= k < |w| ==> w[k] == w[1..][k - 1];
    }
  }
}
