// The parent relation behind SP_HW4/12_2.c: records in insertion order, chains of
// parents, and what it means for the relation to be a forest.
module ProcessForest {
  import opened Common

  // struct set, without its link.
  datatype Rec = Rec(pid: int, ppid: int, name: string)

  predicate DistinctPids(recs: seq<Rec>) {
    forall i, j :: 0 <= i < j < |recs| ==> recs[i].pid != recs[j].pid
  }

  // The record of a pid, as an index; the length if there is none.
  function Find(recs: seq<Rec>, x: int): (i: nat)
    ensures i <= |recs| && (i < |recs| ==> recs[i].pid == x)
    ensures i == |recs| ==> forall j :: 0 <= j < |recs| ==> recs[j].pid != x
  {
    if recs == [] || recs[0].pid == x then 0
    else
      var i := Find(recs[1..], x);
      assert forall j | 1 <= j < |recs| :: recs[j] == recs[1..][j - 1];
      i + 1
  }

  function Parent(recs: seq<Rec>, x: int): Option<int> {
    var i := Find(recs, x);
    if i < |recs| then Some(recs[i].ppid) else None
  }

  lemma ParentOfRecord(recs: seq<Rec>, i: nat)
    requires DistinctPids(recs) && i < |recs|
    ensures Find(recs, recs[i].pid) == i && Parent(recs, recs[i].pid) == Some(recs[i].ppid)
  {
    var j := Find(recs, recs[i].pid);
    assert recs[j].pid == recs[i].pid;
  }

  // The ancestor of x that is n steps up.
  function Up(recs: seq<Rec>, x: int, n: nat): Option<int> {
    if n == 0 then Some(x)
    else match Up(recs, x, n - 1)
      case None => None
      case Some(y) => Parent(recs, y)
  }

  ghost predicate Descendant(recs: seq<Rec>, x: int, p: int) {
    exists n: nat :: n > 0 && Up(recs, x, n) == Some(p)
  }

  lemma {:induction false} UpFromParent(recs: seq<Rec>, x: int, n: nat)
    ensures Up(recs, x, n + 1) ==
              match Parent(recs, x) { case None => None case Some(y) => Up(recs, y, n) }
  {
    assert Up(recs, x, 1) == Parent(recs, x);
    if n > 0 {
      UpFromParent(recs, x, n - 1);
    }
  }

  lemma {:induction false} UpAdds(recs: seq<Rec>, x: int, m: nat, n: nat)
    requires Up(recs, x, m).Some?
    ensures Up(recs, x, m + n) == Up(recs, Up(recs, x, m).value, n)
  {
    if n > 0 {
      UpAdds(recs, x, m, n - 1);
    }
  }

  // Two distances to the same ancestor make a cycle through it.
  lemma TwoDistances(recs: seq<Rec>, x: int, m: nat, n: nat, p: int)
    requires Up(recs, x, m) == Up(recs, x, n) == Some(p) && m != n
    ensures Descendant(recs, p, p)
  {
    var less, more := if m < n then m else n, if m < n then n else m;
    UpAdds(recs, x, less, more - less);
  }

  // A cycle through a record goes through its parent.
  lemma CycleThroughParent(recs: seq<Rec>, i: nat)
    requires DistinctPids(recs) && i < |recs| && Descendant(recs, recs[i].pid, recs[i].pid)
    ensures Descendant(recs, recs[i].ppid, recs[i].ppid)
  {
    var c := recs[i].pid;
    ParentOfRecord(recs, i);
    var n: nat :| n > 0 && Up(recs, c, n) == Some(c);
    assert Up(recs, c, n + 1) == Some(recs[i].ppid);
    UpFromParent(recs, c, n);
  }

  // --- the recursion ------------------------------------------------------------------

  // Under this the recursion from p ends: pids are unique, and p is not below itself.
  ghost predicate Terminates(recs: seq<Rec>, p: int) {
    DistinctPids(recs) && !Descendant(recs, p, p)
  }

  ghost function Below(recs: seq<Rec>, p: int): set<nat> {
    set i | 0 <= i < |recs| && Descendant(recs, recs[i].pid, p)
  }

  ghost function Room(recs: seq<Rec>, p: int): nat {
    |Below(recs, p)|
  }

  // A child of p is not below itself either, and has fewer descendants.
  lemma RoomShrinks(recs: seq<Rec>, i: nat)
    requires i < |recs| && Terminates(recs, recs[i].ppid)
    ensures Terminates(recs, recs[i].pid) && Room(recs, recs[i].pid) < Room(recs, recs[i].ppid)
  {
    var c, p := recs[i].pid, recs[i].ppid;
    ParentOfRecord(recs, i);
    assert Up(recs, c, 1) == Parent(recs, Up(recs, c, 0).value) == Some(p);
    if Descendant(recs, c, c) {
      CycleThroughParent(recs, i);
    }
    forall j | j in Below(recs, c)
      ensures j in Below(recs, p)
    {
      var n: nat :| n > 0 && Up(recs, recs[j].pid, n) == Some(c);
      assert Up(recs, recs[j].pid, n + 1) == Some(p);
    }
    assert i in Below(recs, p) && i !in Below(recs, c);
    SubsetSize(Below(recs, c), Below(recs, p));
  }

  // The call for x makes one for y.
  predicate Calls(recs: seq<Rec>, x: int, y: int) {
    exists i :: 0 <= i < |recs| && recs[i].pid == y && recs[i].ppid == x
  }

  // The pids of nested calls.
  ghost predicate CallChain(recs: seq<Rec>, xs: seq<int>) {
    forall k :: 0 < k < |xs| ==> Calls(recs, xs[k - 1], xs[k])
  }

  lemma {:induction false} ChainFitsRoom(recs: seq<Rec>, xs: seq<int>)
    requires xs != [] && CallChain(recs, xs) && Terminates(recs, xs[0])
    ensures |xs| <= Room(recs, xs[0]) + 1
    decreases |xs|
  {
    if |xs| > 1 {
      assert Calls(recs, xs[1 - 1], xs[1]);
      var i :| 0 <= i < |recs| && recs[i].pid == xs[1] && recs[i].ppid == xs[0];
      RoomShrinks(recs, i);
      var rest := xs[1..];
      forall k | 0 < k < |rest|
        ensures Calls(recs, rest[k - 1], rest[k])
      {
        assert Calls(recs, xs[(k + 1) - 1], xs[k + 1]);
      }
      ChainFitsRoom(recs, rest);
    }
  }

  // A call of x can have come from one of its ancestor n steps up.
  lemma {:induction false} CallFromAncestor(recs: seq<Rec>, x: int, n: nat, xs: seq<int>) returns (ys: seq<int>)
    requires xs != [] && xs[0] == x && CallChain(recs, xs) && Up(recs, x, n).Some?
    ensures ys != [] && ys[0] == Up(recs, x, n).value && CallChain(recs, ys) && |ys| == |xs| + n
  {
    ys := xs;
    if n > 0 {
      var below := CallFromAncestor(recs, x, n - 1, xs);
      var y := Up(recs, x, n).value;
      var i := Find(recs, below[0]);
      assert recs[i].pid == below[0] && recs[i].ppid == y;
      ys := [y] + below;
      forall k | 0 < k < |ys|
        ensures Calls(recs, ys[k - 1], ys[k])
      {
        assert k > 1 ==> Calls(recs, below[(k - 1) - 1], below[k - 1]);
      }
    }
  }

  // Round a cycle the calls nest as deeply as you like.
  lemma {:induction false} EndlessChain(recs: seq<Rec>, p: int, depth: nat) returns (xs: seq<int>)
    requires Descendant(recs, p, p)
    ensures xs != [] && xs[0] == p && CallChain(recs, xs) && |xs| > depth
    decreases depth
  {
    xs := [p];
    if depth > 0 {
      var shorter := EndlessChain(recs, p, depth - 1);
      var n: nat :| n > 0 && Up(recs, p, n) == Some(p);
      xs := CallFromAncestor(recs, p, n, shorter);
    }
  }

  // No chain of calls from p is longer than bound.
  ghost predicate NestsAtMost(recs: seq<Rec>, p: int, bound: nat) {
    forall xs :: xs != [] && xs[0] == p && CallChain(recs, xs) ==> |xs| <= bound
  }

  // With unique pids the calls nest to a bounded depth exactly when p is not its own proper
  // ancestor; cycles elsewhere do no harm.
  lemma TerminationBoundary(recs: seq<Rec>, p: int)
    requires DistinctPids(recs)
    ensures (exists bound: nat :: NestsAtMost(recs, p, bound)) <==> !Descendant(recs, p, p)
  {
    if Descendant(recs, p, p) {
      forall bound: nat
        ensures !NestsAtMost(recs, p, bound)
      {
        var xs := EndlessChain(recs, p, bound);
      }
    } else {
      forall xs | xs != [] && xs[0] == p && CallChain(recs, xs)
        ensures |xs| <= Room(recs, p) + 1
      {
        ChainFitsRoom(recs, xs);
      }
      assert NestsAtMost(recs, p, Room(recs, p) + 1);
    }
  }
}
