// The dictionary over a socket, SP_HW11/part1: a server child answers one connection's
// requests in turn, and lookup7 asks it.
module Relay {
  import opened Common
  import opened CStrings
  import opened Dictionary

  // The record the server sends back for r.
  function Answered(table: seq<Record>, r: Record): Record
    requires TableOk(table) && RecordOk(r)
  {
    if LocalCode(table, r) == FOUND then Looked(table, r)
    else
      MarkerFits();
      r.(text := Copied(r.text, MARKER))
  }

  lemma MarkerFits()
    ensures Terminated(MARKER) && CStr(MARKER) == [88, 88, 88, 88]
  {
    assert MARKER == [88, 88, 88, 88] + [0] + [];
    StringOf([88, 88, 88, 88], []);
    assert MARKER[4] == 0;
  }

  lemma AnsweredOk(table: seq<Record>, r: Record)
    requires TableOk(table) && RecordOk(r)
    ensures RecordOk(Answered(table, r)) && Answered(table, r).word == r.word
    ensures LocalCode(table, r) == FOUND ==>
              CStr(Answered(table, r).text) == CStr(table[Search(table, CStr(r.word)).value].text)
    ensures LocalCode(table, r) == NOTFOUND ==> CStr(Answered(table, r).text) == CStr(MARKER)
  {
    var found := Search(table, CStr(r.word));
    if found.Some? {
      assert RecordOk(table[found.value]);
      TerminatedString(table[found.value].text);
      CopiedString(r.text, table[found.value].text);
    } else {
      MarkerFits();
      CopiedString(r.text, MARKER);
    }
  }

  // What lookup7 returns for r.
  function RemoteCode(table: seq<Record>, r: Record): Code
    requires TableOk(table) && RecordOk(r)
  {
    if CStr(Answered(table, r).text) != CStr(MARKER) then FOUND else NOTFOUND
  }

  // recv of a whole record
  method Recv(into: Dictrec, r: Record)
    requires into.Valid() && RecordOk(r)
    modifies into.word, into.text
    ensures into.Valid() && into.View() == r
  {
    forall i | 0 <= i < into.word.Length {
      into.word[i] := r.word[i];
    }
    forall i | 0 <= i < into.text.Length {
      into.text[i] := r.text[i];
    }
    assert into.word[..] == r.word && into.text[..] == r.text;
  }

  // The child's end of a connection: the record it overwrites and its own lookup.
  class Child {
    const tryit: Dictrec
    const dictionary: Lookup5

    ghost predicate Valid()
      reads this, tryit.word, tryit.text
    {
      tryit.Valid()
    }

    constructor (r: Record)
      requires RecordOk(r)
      ensures fresh(tryit) && fresh(tryit.word) && fresh(tryit.text) && fresh(dictionary)
      ensures Valid() && dictionary.firstTime
    {
      tryit := new Dictrec(r);
      dictionary := new Lookup5();
    }

    // usock_server.c:69-93, one request.
    method Serve(request: Record, files: map<string, seq<Record>>, resource: string) returns (reply: Record)
      requires Valid() && RecordOk(request)
      requires dictionary.Source(files, resource).Some? && TableOk(dictionary.Source(files, resource).value)
      modifies dictionary, tryit.word, tryit.text
      ensures
        var t := old(dictionary.Source(files, resource)).value;
        Valid() && reply == Answered(t, request) && !dictionary.firstTime && dictionary.table == t
    {
      Recv(tryit, request);
      var code := dictionary.Lookup(tryit, files, resource);
      if code == NOTFOUND {
        MarkerFits();
        Strcpy(tryit.text, MARKER);
        AnsweredOk(dictionary.table, request);
      }
      reply := Record(tryit.word[..], tryit.text[..]);
    }

    // The dialogue on one connection: each request gets its own answer, whatever the
    // ones before it left in the record.
    method Dialogue(requests: seq<Record>, files: map<string, seq<Record>>, resource: string) returns (replies: seq<Record>)
      requires Valid() && dictionary.firstTime && resource in files && TableOk(files[resource])
      requires forall i :: 0 <= i < |requests| ==> RecordOk(requests[i])
      modifies dictionary, tryit.word, tryit.text
      ensures |replies| == |requests|
      ensures forall i :: 0 <= i < |requests| ==> replies[i] == Answered(files[resource], requests[i])
    {
      replies := [];
      while |replies| < |requests|
        invariant Valid() && |replies| <= |requests|
        invariant dictionary.Source(files, resource) == Some(files[resource])
        invariant forall i :: 0 <= i < |replies| ==> replies[i] == Answered(files[resource], requests[i])
      {
        var reply := Serve(requests[|replies|], files, resource);
        replies := replies + [reply];
      }
    }
  }

  // lookup7.c:42-58, with the child at the other end of the socket.
  method Lookup7(sought: Dictrec, child: Child, files: map<string, seq<Record>>, resource: string) returns (code: Code)
    requires sought.Valid() && child.Valid()
    requires {sought.word, sought.text} !! {child.tryit.word, child.tryit.text}
    requires child.dictionary.Source(files, resource).Some? && TableOk(child.dictionary.Source(files, resource).value)
    modifies sought.word, sought.text, child.dictionary, child.tryit.word, child.tryit.text
    ensures
      var t := old(child.dictionary.Source(files, resource)).value;
      && code == RemoteCode(t, old(sought.View()))
      && sought.Valid() && sought.View() == Answered(t, old(sought.View()))
      && child.Valid() && !child.dictionary.firstTime && child.dictionary.table == t
  {
    ghost var request := sought.View();
    var reply := child.Serve(Record(sought.word[..], sought.text[..]), files, resource);
    AnsweredOk(child.dictionary.table, request);
    Recv(sought, reply);
    MarkerFits();
    CompareEqual(CStr(sought.text[..]), CStr(MARKER));
    var differs := Strcmp(sought.text[..], MARKER);
    code := if differs != 0 then FOUND else NOTFOUND;
  }

  // Asking the server gives the result of looking up in its table exactly when the text
  // found there, if any, is not the marker; found texts are always the same ones.
  lemma RelayBoundary(table: seq<Record>, r: Record)
    requires TableOk(table) && RecordOk(r)
    ensures
      var found := Search(table, CStr(r.word));
      && (RemoteCode(table, r) == LocalCode(table, r) <==>
            (found.Some? ==> CStr(table[found.value].text) != CStr(MARKER)))
      && (RemoteCode(table, r) == FOUND ==> LocalCode(table, r) == FOUND && Answered(table, r) == Looked(table, r))
      && Answered(table, r).word == r.word
  {
    AnsweredOk(table, r);
  }

  // Every request has the same result here and there.
  ghost predicate Transparent(table: seq<Record>)
    requires TableOk(table)
  {
    forall r :: RecordOk(r) ==> RemoteCode(table, r) == LocalCode(table, r)
  }

  // The search for its own word comes out at record i.
  predicate Findable(table: seq<Record>, i: nat)
    requires i < |table|
  {
    Search(table, CStr(table[i].word)) == Some(i)
  }

  // So the relay is transparent exactly when no record that a search comes out at says
  // "XXXX", in whatever order the table is,
  lemma RelayTransparent(table: seq<Record>)
    requires TableOk(table)
    ensures Transparent(table) <==>
            forall i :: 0 <= i < |table| && Findable(table, i) ==> CStr(table[i].text) != CStr(MARKER)
  {
    if forall i :: 0 <= i < |table| && Findable(table, i) ==> CStr(table[i].text) != CStr(MARKER) {
      forall r | RecordOk(r)
        ensures RemoteCode(table, r) == LocalCode(table, r)
      {
        RelayBoundary(table, r);
        var w := CStr(r.word);
        if Search(table, w).Some? {
          BsearchMatches(table, w, 0, |table|);
          assert Findable(table, Search(table, w).value);
        }
      }
    } else {
      var i :| 0 <= i < |table| && Findable(table, i) && CStr(table[i].text) == CStr(MARKER);
      assert RecordOk(table[i]);
      RelayBoundary(table, table[i]);
    }
  }

  // Whatever the order, what the search comes out at matches.
  lemma {:induction false} BsearchMatches(table: seq<Record>, w: seq<byte>, l: nat, u: nat)
    requires l <= u <= |table|
    ensures Bsearch(table, w, l, u).Some? ==> Matches(table, w, Bsearch(table, w, l, u).value)
    decreases u - l
  {
    if l < u {
      var mid := (l + u) / 2;
      CompareEqual(w, CStr(table[mid].word));
      BsearchMatches(table, w, l, mid);
      BsearchMatches(table, w, mid + 1, u);
    }
  }

  // and on a sorted table without a word twice exactly when no record at all does.
  lemma RelayTransparentSorted(table: seq<Record>)
    requires TableOk(table) && Sorted(table)
    requires forall i, j :: 0 <= i < j < |table| ==> CStr(table[i].word) != CStr(table[j].word)
    ensures Transparent(table) <==> forall i :: 0 <= i < |table| ==> CStr(table[i].text) != CStr(MARKER)
  {
    RelayTransparent(table);
    forall i | 0 <= i < |table|
      ensures Findable(table, i)
    {
      var w := CStr(table[i].word);
      SearchRefinesScan(table, w);
      ScanFinds(table, w);
      assert Matches(table, w, i);
      var k := Search(table, w).value;
      assert Matches(table, w, k);
    }
  }
}
