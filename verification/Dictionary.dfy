// The dictionary behind SP_HW12 and SP_HW11: binary search over a table of fixed-size
// records, and the same lookup through a server at the other end of a socket.
module Dictionary {
  import opened Common
  import opened CStrings

  const WORD: nat := 32
  const TEXT: nat := 480

  // "XXXX" with its NUL.
  const MARKER: seq<byte> := [88, 88, 88, 88, 0]

  datatype Record = Record(word: seq<byte>, text: seq<byte>)

  datatype Code = FOUND | NOTFOUND | DIED

  predicate RecordOk(r: Record) {
    |r.word| == WORD && |r.text| == TEXT && Terminated(r.word) && Terminated(r.text)
  }

  predicate TableOk(table: seq<Record>) {
    forall i :: 0 <= i < |table| ==> RecordOk(table[i])
  }

  // In the order dict_cmp sees.
  predicate Sorted(table: seq<Record>) {
    forall i, j :: 0 <= i < j < |table| ==> Compare(CStr(table[i].word), CStr(table[j].word)) <= 0
  }

  predicate Matches(table: seq<Record>, w: seq<byte>, i: nat)
    requires i < |table|
  {
    CStr(table[i].word) == w
  }

  // --- searching ----------------------------------------------------------------------

  // bsearch on the records from l up to u.
  function Bsearch(table: seq<Record>, w: seq<byte>, l: nat, u: nat): (r: Option<nat>)
    requires l <= u <= |table|
    ensures r.Some? ==> l <= r.value < u
    decreases u - l
  {
    if l == u then None
    else
      var mid := (l + u) / 2;
      var c := Compare(w, CStr(table[mid].word));
      if c < 0 then Bsearch(table, w, l, mid)
      else if c > 0 then Bsearch(table, w, mid + 1, u)
      else Some(mid)
  }

  function Search(table: seq<Record>, w: seq<byte>): (r: Option<nat>)
    ensures r.Some? ==> r.value < |table|
  {
    Bsearch(table, w, 0, |table|)
  }

  // A linear scan, the reference.
  function Scan(table: seq<Record>, w: seq<byte>): (r: Option<nat>)
    ensures r.Some? ==> r.value < |table|
  {
    if table == [] then None
    else if CStr(table[0].word) == w then Some(0)
    else match Scan(table[1..], w) { case None => None case Some(i) => Some(i + 1) }
  }

  // It finds the first record with the word.
  lemma {:induction false} ScanFinds(table: seq<Record>, w: seq<byte>)
    ensures match Scan(table, w)
      case None => forall i :: 0 <= i < |table| ==> !Matches(table, w, i)
      case Some(k) => Matches(table, w, k) && forall i :: 0 <= i < k ==> !Matches(table, w, i)
  {
    if table != [] && CStr(table[0].word) != w {
      var rest := table[1..];
      ScanFinds(rest, w);
      var n := if Scan(rest, w).Some? then Scan(rest, w).value else |rest|;
      forall i | 0 <= i < n + 1
        ensures !Matches(table, w, i)
      {
        assert i > 0 ==> table[i] == rest[i - 1] && !Matches(rest, w, i - 1);
      }
      assert n < |rest| ==> table[n + 1] == rest[n];
    }
  }

  // On a sorted table a record that does not match rules out everything on one side.
  lemma NotOnThisSide(table: seq<Record>, w: seq<byte>, mid: nat, i: nat)
    requires Sorted(table) && mid < |table| && i < |table|
    requires
      var c := Compare(w, CStr(table[mid].word));
      (c < 0 && mid <= i) || (c > 0 && i <= mid)
    ensures !Matches(table, w, i)
  {
    var a, b := CStr(table[i].word), CStr(table[mid].word);
    CompareEqual(a, b);
    CompareOpposite(w, b);
    CompareEqual(w, w);
    CompareOpposite(a, b);
    if i != mid && Compare(w, b) < 0 {
      assert Compare(b, a) <= 0;
      CompareTransitive(w, b, a);
    } else if i != mid {
      assert Compare(a, b) <= 0;
      CompareTransitive(a, b, w);
    }
    CompareEqual(w, a);
    CompareEqual(a, w);
  }

  lemma {:induction false} BsearchFinds(table: seq<Record>, w: seq<byte>, l: nat, u: nat)
    requires Sorted(table) && l <= u <= |table|
    ensures Bsearch(table, w, l, u).Some? ==> Matches(table, w, Bsearch(table, w, l, u).value)
    ensures Bsearch(table, w, l, u) == None ==> forall i :: l <= i < u ==> !Matches(table, w, i)
    decreases u - l
  {
    if l < u {
      var mid := (l + u) / 2;
      var c := Compare(w, CStr(table[mid].word));
      CompareEqual(w, CStr(table[mid].word));
      if c < 0 {
        BsearchFinds(table, w, l, mid);
        forall i | mid <= i < u ensures !Matches(table, w, i) { NotOnThisSide(table, w, mid, i); }
      } else if c > 0 {
        BsearchFinds(table, w, mid + 1, u);
        forall i | l <= i <= mid ensures !Matches(table, w, i) { NotOnThisSide(table, w, mid, i); }
      }
    }
  }

  // Binary search refines the linear scan: it finds a record exactly when the scan does,
  // both match the word, and with no word twice they are the same record.
  lemma SearchRefinesScan(table: seq<Record>, w: seq<byte>)
    requires Sorted(table)
    ensures Search(table, w).Some? <==> Scan(table, w).Some?
    ensures Search(table, w).Some? ==> Matches(table, w, Search(table, w).value)
    ensures (forall i, j :: 0 <= i < j < |table| ==> CStr(table[i].word) != CStr(table[j].word)) ==>
              Search(table, w) == Scan(table, w)
  {
    BsearchFinds(table, w, 0, |table|);
    ScanFinds(table, w);
  }

  // bsearch with dict_cmp, lookup5.c:14-16, 48.
  method FindRecord(key: seq<byte>, table: seq<Record>) returns (found: Option<nat>)
    requires Terminated(key) && TableOk(table)
    ensures found == Search(table, CStr(key))
  {
    var l, u := 0, |table|;
    while l < u
      invariant 0 <= l <= u <= |table|
      invariant Bsearch(table, CStr(key), l, u) == Search(table, CStr(key))
      decreases u - l
    {
      var mid := (l + u) / 2;
      assert RecordOk(table[mid]);
      var c := Strcmp(key, table[mid].word);
      if c < 0 {
        u := mid;
      } else if c > 0 {
        l := mid + 1;
      } else {
        return Some(mid);
      }
    }
    found := None;
  }

  // --- lookup -----------------------------------------------------------------------------

  // What lookup makes of a record.
  function Looked(table: seq<Record>, r: Record): Record
    requires TableOk(table) && RecordOk(r)
  {
    match Search(table, CStr(r.word))
    case None => r
    case Some(i) =>
      assert RecordOk(table[i]);
      TerminatedString(table[i].text);
      r.(text := Copied(r.text, table[i].text))
  }

  function LocalCode(table: seq<Record>, r: Record): Code {
    if Search(table, CStr(r.word)).Some? then FOUND else NOTFOUND
  }

  class Dictrec {
    const word: array<byte>
    const text: array<byte>

    constructor (r: Record)
      requires RecordOk(r)
      ensures fresh(word) && fresh(text) && word.Length == WORD && text.Length == TEXT && View() == r
    {
      word := new byte[WORD](i requires 0 <= i < WORD => r.word[i]);
      text := new byte[TEXT](i requires 0 <= i < TEXT => r.text[i]);
      new;
      assert word[..] == r.word && text[..] == r.text;
    }

    ghost function View(): Record
      reads word, text
    {
      Record(word[..], text[..])
    }

    ghost predicate Valid()
      reads word, text
    {
      word != text && RecordOk(View())
    }
  }

  // The static variables of lookup: the table is mapped once, by the first call.
  class Lookup5 {
    var firstTime: bool
    var table: seq<Record>

    constructor ()
      ensures firstTime
    {
      firstTime, table := true, [];
    }

    // The table this call searches: later calls do not look at their resource.
    ghost function Source(files: map<string, seq<Record>>, resource: string): Option<seq<Record>>
      reads this
    {
      if !firstTime then Some(table) else if resource in files then Some(files[resource]) else None
    }

    // lookup5.c:18-56
    method Lookup(sought: Dictrec, files: map<string, seq<Record>>, resource: string) returns (code: Code)
      requires sought.Valid()
      requires Source(files, resource).Some? ==> TableOk(Source(files, resource).value)
      modifies this, sought.text
      ensures code == DIED <==> old(Source(files, resource)) == None
      ensures code == DIED ==> sought.View() == old(sought.View())
      ensures code != DIED ==>
                var t := old(Source(files, resource)).value;
                && !firstTime && table == t
                && code == LocalCode(t, old(sought.View()))
                && sought.View() == Looked(t, old(sought.View())) && sought.Valid()
    {
      hide Compare, Search, CStr;
      if firstTime {
        if resource !in files {
          return DIED;
        }
        firstTime := false;
        table := files[resource];
      }
      var temp := new byte[WORD](_ => 1);
      TerminatedString(sought.word[..]);
      Strcpy(temp, sought.word[..]);
      CopiedString(seq(WORD, _ => 1), sought.word[..]);
      assert temp[..] == Copied(seq(WORD, _ => 1), sought.word[..]);
      var found := FindRecord(temp[..], table);
      if found.Some? {
        assert RecordOk(table[found.value]);
        TerminatedString(table[found.value].text);
        CopiedString(sought.text[..], table[found.value].text);
        Strcpy(sought.text, table[found.value].text);
        return FOUND;
      }
      return NOTFOUND;
    }
  }

  // FOUND exactly when a linear scan finds the word, with the text of a record that has
  // it; the word, and on NOTFOUND the text, stay as they were.
  lemma LookupMeans(table: seq<Record>, r: Record)
    requires TableOk(table) && Sorted(table) && RecordOk(r)
    ensures
      var w := CStr(r.word);
      && (LocalCode(table, r) == FOUND <==> Scan(table, w).Some?)
      && (LocalCode(table, r) == FOUND ==>
            exists i :: 0 <= i < |table| && Matches(table, w, i) && CStr(Looked(table, r).text) == CStr(table[i].text))
      && Looked(table, r).word == r.word && (LocalCode(table, r) == NOTFOUND ==> Looked(table, r) == r)
      && RecordOk(Looked(table, r))
  {
    var w := CStr(r.word);
    SearchRefinesScan(table, w);
    if Search(table, w).Some? {
      var i := Search(table, w).value;
      assert RecordOk(table[i]);
      TerminatedString(table[i].text);
      CopiedString(r.text, table[i].text);
      assert Matches(table, w, i);
    }
  }
}
