// The ranges of sequence numbers handed out by the two services of SP_HW8.
module Ranges {

  datatype Grant = Grant(pid: int, start: int, len: int)

  function Sum(gs: seq<Grant>): int {
    if gs == [] then 0 else Sum(gs[..|gs| - 1]) + gs[|gs| - 1].len
  }

  // Each grant starts where the ones before it end.
  predicate Chained(gs: seq<Grant>) {
    forall i :: 0 <= i < |gs| ==> gs[i].start == Sum(gs[..i])
  }

  predicate Contains(g: Grant, x: int) {
    g.start <= x < g.start + g.len
  }

  lemma ChainedAppend(gs: seq<Grant>, g: Grant)
    requires Chained(gs) && g.start == Sum(gs)
    ensures Chained(gs + [g]) && Sum(gs + [g]) == Sum(gs) + g.len
  {
    var gs' := gs + [g];
    assert gs'[..|gs|] == gs;
    forall i | 0 <= i < |gs'|
      ensures gs'[i].start == Sum(gs'[..i])
    {
      assert i < |gs| ==> gs'[..i] == gs[..i];
    }
  }

  lemma {:induction false} PrefixSum(gs: seq<Grant>, i: nat, j: nat)
    requires i <= j <= |gs| && forall k :: i <= k < j ==> gs[k].len >= 0
    ensures Sum(gs[..i]) <= Sum(gs[..j])
    decreases j
  {
    if i < j {
      assert gs[..j][..j - 1] == gs[..j - 1];
      PrefixSum(gs, i, j - 1);
    }
  }

  lemma NextStart(gs: seq<Grant>, i: nat)
    requires Chained(gs) && i < |gs|
    ensures Sum(gs[..i + 1]) == gs[i].start + gs[i].len
  {
    assert gs[..i + 1][..i] == gs[..i];
  }

  // With lengths that are not negative, a number belongs to some grant exactly when it
  // lies between 0 and the current number,
  lemma GrantsCover(gs: seq<Grant>, x: int)
    requires Chained(gs) && forall k :: 0 <= k < |gs| ==> gs[k].len >= 0
    ensures 0 <= x < Sum(gs) <==> exists i :: 0 <= i < |gs| && Contains(gs[i], x)
  {
    assert gs[..|gs|] == gs && gs[..0] == [];
    if i :| 0 <= i < |gs| && Contains(gs[i], x) {
      NextStart(gs, i);
      PrefixSum(gs, 0, i);
      PrefixSum(gs, i + 1, |gs|);
    }
    if 0 <= x < Sum(gs) {
      var i := GrantOf(gs, x, |gs|);
    }
  }

  lemma {:induction false} GrantOf(gs: seq<Grant>, x: int, n: nat) returns (i: nat)
    requires Chained(gs) && n <= |gs| && 0 <= x < Sum(gs[..n])
    ensures i < n && Contains(gs[i], x)
    decreases n
  {
    NextStart(gs, n - 1);
    if x < Sum(gs[..n - 1]) {
      i := GrantOf(gs, x, n - 1);
    } else {
      i := n - 1;
    }
  }

  // Each grant starts at or behind 0 and behind the end of every earlier one.
  predicate InOrder(gs: seq<Grant>) {
    && (forall i :: 0 <= i < |gs| ==> 0 <= gs[i].start)
    && (forall i, j :: 0 <= i < j < |gs| ==> gs[i].start + gs[i].len <= gs[j].start)
  }

  // and to no two: the grants lie in order exactly when no length but the last is
  // negative.
  lemma OrderBoundary(gs: seq<Grant>)
    requires Chained(gs)
    ensures InOrder(gs) <==> forall k :: 0 <= k < |gs| - 1 ==> gs[k].len >= 0
  {
    if forall k :: 0 <= k < |gs| - 1 ==> gs[k].len >= 0 {
      forall i | 0 <= i < |gs|
        ensures 0 <= gs[i].start
      {
        PrefixSum(gs, 0, i);
        assert gs[..0] == [];
      }
      forall i, j | 0 <= i < j < |gs|
        ensures gs[i].start + gs[i].len <= gs[j].start
      {
        NextStart(gs, i);
        PrefixSum(gs, i + 1, j);
      }
    } else {
      var k :| 0 <= k < |gs| - 1 && gs[k].len < 0;
      NextStart(gs, k);
      assert gs[k + 1].start < gs[k].start;
      if k == 0 {
        assert gs[..0] == [];
        assert gs[1].start < 0;
      } else {
        NextStart(gs, k - 1);
        assert gs[k - 1].start + gs[k - 1].len > gs[k + 1].start;
      }
    }
  }
}
