// Where on the screen things stand: behind which process a line ends, and under which
// process another one hangs.
module ProcessTreeLayout {
  import opened ProcessForest
  import opened ProcessTree
  import opened ProcessTreeResults

  // --- ends of lines --------------------------------------------------------------

  predicate NamedLeaf(recs: seq<Rec>, r: Rec) {
    Leaf(recs, r.pid) && r.name != ""
  }

  // In front of k stands a leaf with a name.
  predicate BehindNamedLeaf(recs: seq<Rec>, out: seq<Event>, k: nat)
    requires k <= |out|
  {
    k > 0 && out[k - 1].Process? && NamedLeaf(recs, out[k - 1].rec)
  }

  lemma {:induction false} RenderEndsLines(recs: seq<Rec>, w: seq<Visit>, ended: bool)
    requires forall k :: 0 <= k < |w| ==> w[k].rec < |recs|
    ensures
      var out := Render(recs, w, ended);
      && (forall k :: 0 <= k < |out| ==> (out[k] == Newline <==> BehindNamedLeaf(recs, out, k)))
      && !BehindNamedLeaf(recs, out, |out|)
      && (out != [] ==> out[0].Process?)
    decreases |w|
  {
    hide Leaf;
    if w != [] {
      var v, more := w[0], w[1..];
      assert w == [v] + more;
      RenderFirst(recs, v, more, ended);
      RenderEndsLines(recs, more, EndsLine(recs, v));
      hide Render;
      var head := [Process(recs[v.rec], v.depth, !ended)] + (if EndsLine(recs, v) then [Newline] else []);
      var rest := Render(recs, more, EndsLine(recs, v));
      var out := head + rest;
      assert out == Render(recs, w, ended);
      forall k | 0 <= k < |out|
        ensures out[k] == Newline <==> BehindNamedLeaf(recs, out, k)
      {
        if k > |head| {
          assert out[k] == rest[k - |head|] && out[k - 1] == rest[k - |head| - 1];
          assert BehindNamedLeaf(recs, rest, k - |head|) <==> BehindNamedLeaf(recs, out, k);
        }
      }
      if rest != [] {
        assert out[|out| - 1] == rest[|rest| - 1];
        assert BehindNamedLeaf(recs, rest, |rest|) <==> BehindNamedLeaf(recs, out, |out|);
      }
    }
  }

  // On the screen a line ends right behind every leaf with a name, and nowhere else.
  lemma LinesEndBehindLeaves(recs: seq<Rec>, p: int, d: int)
    requires Terminates(recs, p)
    ensures
      var out := Shown(recs, p, d);
      && (forall k :: 0 <= k < |out| ==> (out[k] == Newline <==> BehindNamedLeaf(recs, out, k)))
      && !BehindNamedLeaf(recs, out, |out|)
  {
    hide Terminates, Shown, Render, BehindNamedLeaf;
    ShownIsRendered(recs, p, d);
    RenderEndsLines(recs, Walk(recs, 0, p, d), false);
  }

  // --- parents --------------------------------------------------------------------

  // Visit j is of the parent of visit k, one level up, and all in between are at least as
  // deep as k.
  predicate HangsUnder(recs: seq<Rec>, w: seq<Visit>, j: nat, k: nat)
    requires j < k < |w| && forall l :: 0 <= l < |w| ==> w[l].rec < |recs|
  {
    && recs[w[j].rec].pid == recs[w[k].rec].ppid && w[j].depth == w[k].depth - 1
    && forall l :: j < l < k ==> w[l].depth >= w[k].depth
  }

  ghost predicate HasPlace(recs: seq<Rec>, w: seq<Visit>, p: int, d: int, k: nat)
    requires k < |w| && forall l :: 0 <= l < |w| ==> w[l].rec < |recs|
  {
    if w[k].depth == d then recs[w[k].rec].ppid == p
    else w[k].depth > d && exists j: nat :: j < k && HangsUnder(recs, w, j, k)
  }

  lemma DeepEnough(recs: seq<Rec>, i: nat, p: int, d: int)
    requires Terminates(recs, p) && i <= |recs|
    ensures forall k :: 0 <= k < |Walk(recs, i, p, d)| ==> Walk(recs, i, p, d)[k].depth >= d
  {
    hide Terminates, Walk;
    forall k | 0 <= k < |Walk(recs, i, p, d)|
      ensures Walk(recs, i, p, d)[k].depth >= d
    {
      VisitsAreBelow(recs, i, p, d, k);
    }
  }

  // A place in a part of the walk is one in the whole.
  lemma PlaceShifts(recs: seq<Rec>, part: seq<Visit>, w: seq<Visit>, off: nat, p: int, d: int, k: nat)
    requires k < |part| && off + |part| <= |w| && part == w[off..off + |part|]
    requires forall l :: 0 <= l < |w| ==> w[l].rec < |recs|
    requires HasPlace(recs, part, p, d, k)
    ensures HasPlace(recs, w, p, d, off + k)
  {
    assert forall l :: 0 <= l < |part| ==> part[l] == w[off + l];
    if part[k].depth != d {
      var j: nat :| j < k && HangsUnder(recs, part, j, k);
      forall l | off + j < l < off + k
        ensures w[l].depth >= w[off + k].depth
      {
        assert part[l - off] == w[l];
      }
      assert HangsUnder(recs, w, off + j, off + k);
    }
  }

  // Directly below the child the walk begins with.
  lemma PlaceUnderFirst(recs: seq<Rec>, w: seq<Visit>, below: seq<Visit>, c: int, p: int, d: int, k: nat)
    requires k < |below| < |w| && below == w[1..1 + |below|]
    requires forall l :: 0 <= l < |w| ==> w[l].rec < |recs|
    requires recs[w[0].rec].pid == c && w[0].depth == d
    requires forall l :: 0 <= l < |below| ==> below[l].depth >= d + 1
    requires HasPlace(recs, below, c, d + 1, k)
    ensures HasPlace(recs, w, p, d, 1 + k)
  {
    assert forall l :: 0 <= l < |below| ==> below[l] == w[1 + l];
    if below[k].depth == d + 1 {
      forall l | 0 < l < 1 + k
        ensures w[l].depth >= w[1 + k].depth
      {
        assert below[l - 1] == w[l];
      }
      assert HangsUnder(recs, w, 0, 1 + k);
    } else {
      PlaceShifts(recs, below, w, 1, c, d + 1, k);
      var j: nat :| j < 1 + k && HangsUnder(recs, w, j, 1 + k);
    }
  }

  // Preorder: whoever is not directly below p hangs under the last process one level up, and
  // that is the parent.
  lemma {:induction false} EveryPlace(recs: seq<Rec>, i: nat, p: int, d: int, k: nat)
    requires Terminates(recs, p) && i <= |recs| && k < |Walk(recs, i, p, d)|
    ensures HasPlace(recs, Walk(recs, i, p, d), p, d, k)
    decreases Room(recs, p), |recs| - i
  {
    hide Terminates, Room, Walk, HasPlace;
    NothingLeft(recs, i, p, d, k);
    WalkStep(recs, i, p, d);
    var w := Walk(recs, i, p, d);
    if recs[i].ppid == p {
      RoomShrinks(recs, i);
      var c := recs[i].pid;
      var below, rest := Walk(recs, 0, c, d + 1), Walk(recs, i + 1, p, d);
      if k == 0 {
        FirstPlace(recs, w, p, d);
      } else if k <= |below| {
        assert below == w[1..1 + |below|];
        EveryPlace(recs, 0, c, d + 1, k - 1);
        DeepEnough(recs, 0, c, d + 1);
        PlaceUnderFirst(recs, w, below, c, p, d, k - 1);
      } else {
        var off := 1 + |below|;
        assert rest == w[off..off + |rest|];
        EveryPlace(recs, i + 1, p, d, k - off);
        PlaceShifts(recs, rest, w, off, p, d, k - off);
      }
    } else {
      EveryPlace(recs, i + 1, p, d, k);
    }
  }

  lemma FirstPlace(recs: seq<Rec>, w: seq<Visit>, p: int, d: int)
    requires w != [] && forall l :: 0 <= l < |w| ==> w[l].rec < |recs|
    requires w[0].depth == d && recs[w[0].rec].ppid == p
    ensures HasPlace(recs, w, p, d, 0)
  {
  }
}
