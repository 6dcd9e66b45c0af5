// C strings in fixed buffers: strcmp as an order on what stands before the NUL, and strcpy.
module CStrings {
  import opened Common

  predicate Terminated(b: seq<byte>) {
    0 in b
  }

  // The string in a buffer: everything before its first NUL.
  function CStr(b: seq<byte>): (s: seq<byte>)
    ensures |s| <= |b| && s == b[..|s|] && (forall i :: 0 <= i < |s| ==> s[i] != 0)
    ensures |s| < |b| ==> b[|s|] == 0
  {
    if b == [] || b[0] == 0 then [] else [b[0]] + CStr(b[1..])
  }

  lemma {:induction false} TerminatedString(b: seq<byte>)
    ensures Terminated(b) <==> |CStr(b)| < |b|
  {
    if b != [] && b[0] != 0 {
      TerminatedString(b[1..]);
      assert b == [b[0]] + b[1..];
    }
  }

  // What follows the NUL makes no difference.
  lemma {:induction false} StringOf(s: seq<byte>, rest: seq<byte>)
    requires forall i :: 0 <= i < |s| ==> s[i] != 0
    ensures CStr(s + [0] + rest) == s
  {
    var b := s + [0] + rest;
    if s != [] {
      assert b[1..] == s[1..] + [0] + rest;
      StringOf(s[1..], rest);
    }
  }

  // Negative, zero or positive like strcmp's result on two strings.
  function Compare(a: seq<byte>, b: seq<byte>): int {
    if a == [] then if b == [] then 0 else -1
    else if b == [] then 1
    else if a[0] < b[0] then -1
    else if a[0] > b[0] then 1
    else Compare(a[1..], b[1..])
  }

  // Comparing is a total order on strings: equal means the same,
  lemma {:induction false} CompareEqual(a: seq<byte>, b: seq<byte>)
    ensures Compare(a, b) == 0 <==> a == b
  {
    if a != [] && b != [] {
      CompareEqual(a[1..], b[1..]);
      assert a == [a[0]] + a[1..] && b == [b[0]] + b[1..];
    }
  }

  // the other way round is the opposite,
  lemma {:induction false} CompareOpposite(a: seq<byte>, b: seq<byte>)
    ensures Compare(a, b) == -Compare(b, a)
  {
    if a != [] && b != [] {
      CompareOpposite(a[1..], b[1..]);
    }
  }

  // and less carries over.
  lemma {:induction false} CompareTransitive(a: seq<byte>, b: seq<byte>, c: seq<byte>)
    requires Compare(a, b) <= 0 && Compare(b, c) <= 0
    ensures Compare(a, c) <= 0
    ensures Compare(a, b) < 0 || Compare(b, c) < 0 ==> Compare(a, c) < 0
  {
    if a != [] && b != [] && c != [] && a[0] == b[0] == c[0] {
      CompareTransitive(a[1..], b[1..], c[1..]);
    }
  }

  // a and b are alike in front of i, and there a ends or has the smaller byte.
  predicate LessAt(a: seq<byte>, b: seq<byte>, i: nat) {
    && i <= |a| && i < |b| && a[..i] == b[..i]
    && (i == |a| || a[i] < b[i])
  }

  // The order is that of the first byte in which they differ, taken as unsigned.
  lemma {:induction false} CompareIsLexicographic(a: seq<byte>, b: seq<byte>)
    ensures Compare(a, b) < 0 <==> exists i :: 0 <= i < |b| && LessAt(a, b, i)
  {
    if a != [] && b != [] && a[0] == b[0] {
      var c, d := a[1..], b[1..];
      CompareIsLexicographic(c, d);
      forall i | 0 <= i < |d| && LessAt(c, d, i)
        ensures LessAt(a, b, i + 1)
      {
        assert a[..i + 1] == [a[0]] + c[..i] && b[..i + 1] == [b[0]] + d[..i];
      }
      forall i | 0 < i < |b| && LessAt(a, b, i)
        ensures LessAt(c, d, i - 1)
      {
        assert c[..i - 1] == a[..i][1..] && d[..i - 1] == b[..i][1..];
      }
    } else if b != [] && (a == [] || a[0] < b[0]) {
      assert LessAt(a, b, 0);
    } else {
      forall i | 0 <= i < |b|
        ensures !LessAt(a, b, i)
      {
        if 0 < i <= |a| {
          assert a[..i][0] == a[0] && b[..i][0] == b[0];
        }
      }
    }
  }

  lemma {:induction false} CompareCommon(a: seq<byte>, b: seq<byte>, i: nat)
    requires i <= |a| && i <= |b| && a[..i] == b[..i]
    ensures Compare(a, b) == Compare(a[i..], b[i..])
  {
    if i > 0 {
      assert a[..i][0] == a[0] && b[..i][0] == b[0];
      assert a[1..][..i - 1] == a[..i][1..] && b[1..][..i - 1] == b[..i][1..];
      CompareCommon(a[1..], b[1..], i - 1);
      assert a[1..][i - 1..] == a[i..] && b[1..][i - 1..] == b[i..];
    }
  }

  // The first byte in which the buffers differ, or their common NUL.
  predicate StopsAt(a: seq<byte>, b: seq<byte>, i: nat)
    requires i < |a| && i < |b|
  {
    a[..i] == b[..i] && 0 !in a[..i] && (a[i] != b[i] || a[i] == 0)
  }

  lemma Stops(a: seq<byte>, b: seq<byte>, i: nat)
    requires i <= |CStr(a)| && i <= |CStr(b)| && CStr(a)[..i] == CStr(b)[..i]
    requires i < |a| && i < |b| && (a[i] != b[i] || a[i] == 0)
    ensures StopsAt(a, b, i)
  {
    assert a[..i] == CStr(a)[..i] && b[..i] == CStr(b)[..i];
  }

  // strcmp: looks at the buffers byte by byte, up to a difference or a common NUL.
  method Strcmp(a: seq<byte>, b: seq<byte>) returns (r: int)
    requires Terminated(a) && Terminated(b)
    ensures r < 0 <==> Compare(CStr(a), CStr(b)) < 0
    ensures r == 0 <==> Compare(CStr(a), CStr(b)) == 0
    ensures exists i :: 0 <= i < |a| && i < |b| && StopsAt(a, b, i) && r == a[i] as int - b[i] as int
  {
    ghost var s, t := CStr(a), CStr(b);
    TerminatedString(a);
    TerminatedString(b);
    var i := 0;
    while a[i] == b[i] && a[i] != 0
      invariant i <= |s| && i <= |t| && s[..i] == t[..i]
      decreases |s| - i
    {
      i := i + 1;
    }
    CompareCommon(s, t, i);
    assert i < |s| ==> s[i] == a[i];
    assert i < |t| ==> t[i] == b[i];
    Stops(a, b, i);
    r := a[i] as int - b[i] as int;
  }

  // What strcpy makes of a buffer.
  function Copied(dst: seq<byte>, src: seq<byte>): seq<byte>
    requires |CStr(src)| < |dst|
  {
    CStr(src) + [0] + dst[|CStr(src)| + 1..]
  }

  lemma CopiedString(dst: seq<byte>, src: seq<byte>)
    requires |CStr(src)| < |dst|
    ensures CStr(Copied(dst, src)) == CStr(src) && |Copied(dst, src)| == |dst| && Terminated(Copied(dst, src))
  {
    StringOf(CStr(src), dst[|CStr(src)| + 1..]);
    assert Copied(dst, src)[|CStr(src)|] == 0;
  }

  method Strcpy(dst: array<byte>, src: seq<byte>)
    requires Terminated(src) && |CStr(src)| < dst.Length
    modifies dst
    ensures dst[..] == Copied(old(dst[..]), src)
  {
    ghost var s := CStr(src);
    TerminatedString(src);
    var i := 0;
    while src[i] != 0
      invariant i <= |s|
      invariant forall j :: 0 <= j < dst.Length ==> dst[j] == if j < i then s[j] else old(dst[..])[j]
      decreases |s| - i
    {
      dst[i] := src[i];
      i := i + 1;
    }
    assert i == |s|;
    dst[i] := 0;
  }
}
