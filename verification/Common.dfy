// Small vocabulary shared by the models.
module Common {

  datatype Option<+T> = None | Some(value: T)

  newtype byte = x: int | 0 <= x < 256

  // The indices of s at which p holds, counted.
  function Count<T>(p: T -> bool, s: seq<T>): nat
  {
    if s == [] then 0 else (if p(s[0]) then 1 else 0) + Count(p, s[1..])
  }

  lemma SubsetSize<T>(a: set<T>, b: set<T>)
    requires a <= b
    ensures |a| <= |b|
    ensures |a| == |b| ==> a == b
  {
    assert b == a + (b - a);
  }

  ghost function SumOf<K(!new)>(m: map<K, nat>): nat {
    if m == map[] then 0
    else
      var k :| k in m;
      m[k] + SumOf(m - {k})
  }

  // In whatever order it is taken.
  lemma {:induction false} SumWithout<K(!new)>(m: map<K, nat>, k: K)
    requires k in m
    ensures SumOf(m) == m[k] + SumOf(m - {k})
    decreases |m|
  {
    var j :| j in m && SumOf(m) == m[j] + SumOf(m - {j});
    if j != k {
      SumWithout(m - {j}, k);
      SumWithout(m - {k}, j);
      assert m - {j} - {k} == m - {k} - {j};
    }
  }

  lemma SumChanges<K(!new)>(m: map<K, nat>, k: K, v: nat)
    ensures SumOf(m[k := v]) == SumOf(m - {k}) + v
    ensures SumOf(m) == SumOf(m - {k}) + if k in m then m[k] else 0
  {
    SumWithout(m[k := v], k);
    assert m[k := v] - {k} == m - {k};
    if k in m {
      SumWithout(m, k);
    } else {
      assert m - {k} == m;
    }
  }

  // --- bytes ---------------------------------------------------------------------

  function Zeros(n: nat): seq<byte> {
    seq(n, i => 0)
  }

  predicate NulFree(s: seq<byte>) {
    forall i :: 0 <= i < |s| ==> s[i] != 0
  }

  // How many bytes a read returns that would like to return k: at least one if there are
  // any, and no more than there are or than fit.
  function ReadSize(available: nat, room: nat, k: nat): (n: nat)
    ensures n <= available && n <= room && (available > 0 && room > 0 ==> n > 0)
  {
    var most := if available < room then available else room;
    if k < 1 && most > 0 then 1 else if k > most then most else k
  }
}
