// parse of SP_HW5/Part2: strtok over one line, collected into a growing vector.
module Tokeniser {
  import opened Common

  // SPACE or TAB or NL, parse.c:15
  predicate IsDelim(c: char) {
    c == ' ' || c == '\t' || c == '\n'
  }

  // The end of the delimiters, and of the word, that start at i.
  function Skip(s: string, i: nat): (j: nat)
    requires i <= |s|
    ensures i <= j <= |s| && (forall k :: i <= k < j ==> IsDelim(s[k])) && (j < |s| ==> !IsDelim(s[j]))
    decreases |s| - i
  {
    if i < |s| && IsDelim(s[i]) then Skip(s, i + 1) else i
  }

  function WordEnd(s: string, i: nat): (j: nat)
    requires i <= |s|
    ensures i <= j <= |s| && (forall k :: i <= k < j ==> !IsDelim(s[k])) && (j < |s| ==> IsDelim(s[j]))
    decreases |s| - i
  {
    if i < |s| && !IsDelim(s[i]) then WordEnd(s, i + 1) else i
  }

  // A token's place in the line.
  datatype Span = Span(from: nat, to: nat)

  function Spans(s: string, i: nat): (r: seq<Span>)
    requires i <= |s|
    ensures forall k :: 0 <= k < |r| ==> r[k].from <= r[k].to <= |s|
    decreases |s| - i
  {
    var f := Skip(s, i);
    if f == |s| then [] else [Span(f, WordEnd(s, f))] + Spans(s, WordEnd(s, f))
  }

  function Tokens(s: string, i: nat): seq<string>
    requires i <= |s|
    decreases |s| - i
  {
    var f := Skip(s, i);
    if f == |s| then [] else [s[f..WordEnd(s, f)]] + Tokens(s, WordEnd(s, f))
  }

  lemma {:induction false} TokensAreSpans(s: string, i: nat)
    requires i <= |s|
    ensures |Tokens(s, i)| == |Spans(s, i)|
    ensures forall k :: 0 <= k < |Tokens(s, i)| ==>
              Tokens(s, i)[k] == s[Spans(s, i)[k].from..Spans(s, i)[k].to]
    decreases |s| - i
  {
    var f := Skip(s, i);
    if f < |s| {
      TokensAreSpans(s, WordEnd(s, f));
    }
  }

  // The first token and those behind it.
  lemma TokensStep(s: string, i: nat)
    requires i <= |s|
    ensures
      var f := Skip(s, i);
      Tokens(s, i) == if f == |s| then [] else [s[f..WordEnd(s, f)]] + Tokens(s, WordEnd(s, f))
  {
  }

  // --- strtok ---------------------------------------------------------------------

  // The line under strtok, and strtok's saved position.  What lies at or behind the
  // position is still the line; before it, delimiters may have become NULs.
  class Strtok {
    ghost const line: string
    const buf: array<char>
    var pos: nat

    ghost predicate Valid()
      reads this, buf
    {
      && |line| < buf.Length && buf[|line|] == '\0' && '\0' !in line
      && pos <= |line| && forall k :: pos <= k < |line| ==> buf[k] == line[k]
    }

    // strtok(line, delim), up to the scan it shares with strtok(NULL, delim).
    constructor (buf: array<char>, ghost line: string)
      requires |line| < buf.Length && buf[..|line|] == line && buf[|line|] == '\0' && '\0' !in line
      ensures Valid() && pos == 0 && this.line == line && this.buf == buf
    {
      this.buf, this.line, pos := buf, line, 0;
      new;
      assert forall k :: 0 <= k < |line| ==> buf[..|line|][k] == buf[k];
    }

    // The scan over delimiters.
    method SkipBlanks() returns (start: nat)
      requires Valid()
      ensures start == Skip(line, pos) && (buf[start] == '\0' <==> start == |line|)
    {
      start := pos;
      while IsDelim(buf[start])
        invariant pos <= start <= |line| && Skip(line, start) == Skip(line, pos)
        decreases |line| - start
      {
        start := start + 1;
      }
      assert start < |line| ==> line[start] in line;
    }

    // The scan over a word.
    method ScanWord(start: nat) returns (end: nat)
      requires Valid() && pos <= start <= |line|
      ensures end == WordEnd(line, start) && (buf[end] == '\0' <==> end == |line|)
      ensures buf[start..end] == line[start..end]
    {
      end := start;
      while buf[end] != '\0' && !IsDelim(buf[end])
        invariant start <= end <= |line| && WordEnd(line, end) == WordEnd(line, start)
        decreases |line| - end
      {
        end := end + 1;
      }
      assert end < |line| ==> line[end] in line;
    }

    // The next token, and everything behind it is still to come.
    method Next() returns (token: Option<string>)
      requires Valid()
      modifies this`pos, buf
      ensures Valid() && pos >= old(pos)
      ensures token == None ==> Tokens(line, old(pos)) == []
      ensures token.Some? ==> pos > old(pos) && Tokens(line, old(pos)) == [token.value] + Tokens(line, pos)
    {
      hide Tokens, IsDelim;
      var start := SkipBlanks();
      TokensStep(line, pos);
      if buf[start] == '\0' {
        pos := start;
        return None;
      }
      var end := ScanWord(start);
      TokensFrom(line, pos, start, end);
      token := Some(buf[start..end]);
      pos := end;
      if buf[end] != '\0' {
        buf[end] := '\0';
        pos := end + 1;
      }
    }
  }

  // One token, and the rest from behind the delimiter that ended it.
  lemma TokensFrom(s: string, i: nat, start: nat, end: nat)
    requires i <= |s| && start == Skip(s, i) < |s| && end == WordEnd(s, start)
    ensures Tokens(s, i) == [s[start..end]] + Tokens(s, if end == |s| then |s| else end + 1)
  {
    assert end < |s| ==> Skip(s, end) == Skip(s, end + 1);
  }

  // parse.c:13-86.  None is NULL, both as a line and as a result.
  method Parse(text: array?<char>, ghost line: string) returns (argv: Option<seq<string>>)
    requires text != null ==>
               |line| < text.Length && text[..|line|] == line && text[|line|] == '\0' && '\0' !in line
    modifies text
    ensures argv == if text == null || Tokens(line, 0) == [] then None else Some(Tokens(line, 0))
  {
    hide Tokens;
    if text == null {
      return None;
    }
    assert forall k :: 0 <= k < |line| ==> text[..|line|][k] == text[k];
    assert |line| > 1 ==> line[1] in line;
    if text.Length > 1 && text[0] == '\n' && text[1] == '\0' {
      assert |line| == 1 && line[0] == '\n';
      SkipTo(line, 0, 1);
      TokensStep(line, 0);
      return None;
    }
    var t := new Strtok(text, line);
    var token := t.Next();
    if token == None {
      return None;
    }
    var words := [token.value];
    while token.Some?
      invariant t.Valid() && t.line == line && t.buf == text
      invariant token.Some? && words + Tokens(line, t.pos) == Tokens(line, 0)
      decreases |line| - t.pos
    {
      ghost var before := t.pos;
      token := t.Next();
      if token == None {
        assert words == words + Tokens(line, before);
        break;
      }
      assert words + Tokens(line, before) == words + [token.value] + Tokens(line, t.pos);
      words := words + [token.value];
    }
    argv := Some(words);
  }

  // --- what the tokens are ----------------------------------------------------------

  predicate IsMaximalRun(s: string, f: nat, t: nat) {
    && f < t <= |s| && !IsDelim(s[f])
    && (forall k :: f <= k < t ==> !IsDelim(s[k]))
    && (f == 0 || IsDelim(s[f - 1])) && (t == |s| || IsDelim(s[t]))
  }

  // i does not lie inside a word.
  predicate Boundary(s: string, i: nat)
    requires i <= |s|
  {
    i == 0 || i == |s| || IsDelim(s[i - 1]) || IsDelim(s[i])
  }

  // The spans are maximal runs, in order and apart,
  lemma {:induction false} SpansAreMaximalRuns(s: string, i: nat)
    requires i <= |s| && Boundary(s, i)
    ensures forall k :: 0 <= k < |Spans(s, i)| ==>
              IsMaximalRun(s, Spans(s, i)[k].from, Spans(s, i)[k].to) && i <= Spans(s, i)[k].from
    ensures forall k :: 0 < k < |Spans(s, i)| ==> Spans(s, i)[k - 1].to < Spans(s, i)[k].from
    decreases |s| - i
  {
    hide IsDelim;
    var f := Skip(s, i);
    if f < |s| {
      var e := WordEnd(s, f);
      SpansAreMaximalRuns(s, e);
      var rest := Spans(s, e);
      assert Spans(s, i) == [Span(f, e)] + rest;
      assert f == i || IsDelim(s[f - 1]);
      assert rest != [] ==> !IsDelim(s[rest[0].from]);
    }
  }

  // and every maximal run is one of them.
  lemma {:induction false} MaximalRunsAreSpans(s: string, i: nat, g: nat, t: nat)
    requires i <= g && IsMaximalRun(s, g, t)
    ensures Span(g, t) in Spans(s, i)
    decreases |s| - i
  {
    var f := Skip(s, i);
    assert !IsDelim(s[g]);
    RunStartsAtWord(s, i, g, t);
    if g != f {
      MaximalRunsAreSpans(s, WordEnd(s, f), g, t);
    }
  }

  lemma RunStartsAtWord(s: string, i: nat, g: nat, t: nat)
    requires i <= g && IsMaximalRun(s, g, t)
    ensures var f := Skip(s, i); f < |s| && ((g == f && t == WordEnd(s, f)) || g >= WordEnd(s, f))
  {
    var e := WordEnd(s, Skip(s, i));
    assert !IsDelim(s[g]) && (g == 0 || IsDelim(s[g - 1]));
    assert (e == |s| || IsDelim(s[e])) && (t == |s| || IsDelim(s[t]));
  }

  // --- round trip --------------------------------------------------------------------

  // char delim[] of parse.c:15
  const DELIM := " \t\n"

  lemma DelimIs(c: char)
    ensures IsDelim(c) <==> c in DELIM
  {
    assert DELIM[0] == ' ' && DELIM[1] == '\t' && DELIM[2] == '\n';
  }

  predicate Blank(d: string) {
    forall k :: 0 <= k < |d| ==> d[k] in DELIM
  }

  predicate IsWord(t: string) {
    t != "" && forall k :: 0 <= k < |t| ==> t[k] !in DELIM
  }

  // Words with delimiter strings behind them.
  function Weave(ts: seq<string>, ds: seq<string>): string
    requires |ts| == |ds|
  {
    if ts == [] then "" else ts[0] + ds[0] + Weave(ts[1..], ds[1..])
  }

  // b is what s ends in, from k on.
  predicate Tail(s: string, k: nat, b: string) {
    |s| == k + |b| && forall j :: 0 <= j < |b| ==> s[k + j] == b[j]
  }

  lemma {:induction false} SkipShift(s: string, k: nat, b: string, i: nat)
    requires Tail(s, k, b) && i <= |b|
    ensures Skip(s, k + i) == k + Skip(b, i)
    ensures WordEnd(s, k + i) == k + WordEnd(b, i)
    decreases |b| - i
  {
    if i < |b| {
      assert s[k + i] == b[i];
      SkipShift(s, k, b, i + 1);
    }
  }

  // Tokens depend only on what lies ahead.
  lemma {:induction false} TokensShift(s: string, k: nat, b: string, i: nat)
    requires Tail(s, k, b) && i <= |b|
    ensures Tokens(s, k + i) == Tokens(b, i)
    decreases |b| - i
  {
    hide Tokens, Skip, WordEnd;
    TokensStep(b, i);
    TokensStep(s, k + i);
    SkipShift(s, k, b, i);
    var f := Skip(b, i);
    if f < |b| {
      SkipShift(s, k, b, f);
      var e := WordEnd(b, f);
      assert s[k + f..k + e] == b[f..e];
      TokensShift(s, k, b, e);
    }
  }

  lemma LeadingBlanks(d: string, u: string)
    requires Blank(d)
    ensures Tokens(d + u, 0) == Tokens(u, 0)
  {
    forall c: char ensures IsDelim(c) <==> c in DELIM { DelimIs(c); }
    SkipTo(d + u, 0, |d|);
    TokensShift(d + u, |d|, u, 0);
    assert Skip(d + u, 0) == Skip(d + u, |d|);
  }

  lemma {:induction false} SkipTo(s: string, i: nat, j: nat)
    requires i <= j <= |s| && forall k :: i <= k < j ==> IsDelim(s[k])
    ensures Skip(s, i) == Skip(s, j)
    decreases j - i
  {
    if i < j {
      SkipTo(s, i + 1, j);
    }
  }

  lemma LeadingWord(t: string, u: string)
    requires IsWord(t) && (u == "" || IsDelim(u[0]))
    ensures Tokens(t + u, 0) == [t] + Tokens(u, 0)
  {
    forall c: char ensures IsDelim(c) <==> c in DELIM { DelimIs(c); }
    var s := t + u;
    WordTo(s, 0, |t|);
    assert WordEnd(s, |t|) == |t| && !IsDelim(s[0]) && s[..|t|] == t;
    TokensShift(s, |t|, u, 0);
  }

  lemma {:induction false} WordTo(s: string, i: nat, j: nat)
    requires i <= j <= |s| && forall k :: i <= k < j ==> !IsDelim(s[k])
    ensures WordEnd(s, i) == WordEnd(s, j)
    decreases j - i
  {
    if i < j {
      WordTo(s, i + 1, j);
    }
  }

  // Parsing words joined by any non-empty delimiter strings, with or without
  // delimiters in front and behind, gives the words back.
  lemma {:induction false} TokensOfWeave(lead: string, ts: seq<string>, ds: seq<string>)
    requires Blank(lead) && |ts| == |ds|
    requires forall i :: 0 <= i < |ts| ==> IsWord(ts[i]) && Blank(ds[i]) && (i + 1 < |ts| ==> ds[i] != "")
    ensures Tokens(lead + Weave(ts, ds), 0) == ts
    decreases |ts|
  {
    forall c: char ensures IsDelim(c) <==> c in DELIM { DelimIs(c); }
    LeadingBlanks(lead, Weave(ts, ds));
    if ts != [] {
      var rest := Weave(ts[1..], ds[1..]);
      assert Weave(ts, ds) == ts[0] + (ds[0] + rest);
      assert ds[0] == "" ==> ts[1..] == [] && rest == "";
      LeadingWord(ts[0], ds[0] + rest);
      TokensOfWeave(ds[0], ts[1..], ds[1..]);
    }
  }
}
