// What a client of the file server ends up with, for every file and every way the reads
// can fall.
module FileTransferResults {
  import opened Common
  import opened FileTransfer

  function Reached(acts: seq<Action>): State {
    Run(Init(), acts)
  }

  lemma ReachedInv(acts: seq<Action>)
    ensures Inv(Reached(acts))
  {
    RunKeepsInv(Init(), acts);
  }

  // --- chunks and messages ---------------------------------------------------------------

  // strlen finds a whole chunk exactly when it has no NUL byte, and the client takes it
  // for the end marker exactly when it starts with one.
  lemma PaddedChunk(chunk: seq<byte>)
    requires 1 <= |chunk| < MSG_SIZE
    ensures Strlen(Pad(chunk)) <= |chunk|
    ensures Strlen(Pad(chunk)) == |chunk| <==> NulFree(chunk)
    ensures StartsNul(Pad(chunk)) <==> chunk[0] == 0
  {
    var m := Pad(chunk);
    var n := Strlen(m);
    assert m[|chunk|] == 0;
    assert forall i :: 0 <= i < |chunk| ==> m[i] == chunk[i];
    if NulFree(chunk) {
      assert n >= |chunk|;
    }
  }

  // Padded chunks in order.
  predicate Padded(sent: seq<Message>, chunks: seq<seq<byte>>, n: nat) {
    n <= |sent| && n <= |chunks| && forall i :: 0 <= i < n ==> sent[i] == Pad(chunks[i])
  }

  lemma {:induction false} CountedIsLength(sent: seq<Message>, chunks: seq<seq<byte>>, n: nat)
    requires ChunksOk(chunks) && Padded(sent, chunks, n)
    ensures Counted(sent, n) <= |Flat(chunks[..n])|
    ensures Counted(sent, n) == |Flat(chunks[..n])| <==> NulFree(Flat(chunks[..n]))
  {
    if n > 0 {
      CountedIsLength(sent, chunks, n - 1);
      PaddedChunk(chunks[n - 1]);
      FlatStep(chunks, n - 1);
      NulFreeConcat(Flat(chunks[..n - 1]), chunks[n - 1]);
    }
  }

  lemma NulFreeConcat(a: seq<byte>, b: seq<byte>)
    ensures NulFree(a + b) <==> NulFree(a) && NulFree(b)
  {
    if NulFree(a + b) {
      assert forall i :: 0 <= i < |a| ==> (a + b)[i] == a[i];
      assert forall i :: 0 <= i < |b| ==> (a + b)[|a| + i] == b[i];
    }
  }

  // The first n chunks are the beginning of all of them.
  lemma {:induction false} FlatPrefix(chunks: seq<seq<byte>>, n: nat)
    requires n <= |chunks|
    ensures Flat(chunks[..n]) <= Flat(chunks)
    decreases |chunks|
  {
    if n == |chunks| {
      assert chunks[..n] == chunks;
    } else {
      var init := chunks[..|chunks| - 1];
      assert init[..n] == chunks[..n];
      FlatPrefix(init, n);
    }
  }

  lemma FlatStep(chunks: seq<seq<byte>>, n: nat)
    requires n < |chunks|
    ensures Flat(chunks[..n + 1]) == Flat(chunks[..n]) + chunks[n]
  {
    assert chunks[..n + 1][..n] == chunks[..n];
  }

  lemma NextChunk(chunks: seq<seq<byte>>, n: nat)
    requires n < |chunks|
    ensures Flat(chunks[..n]) + chunks[n] <= Flat(chunks)
  {
    FlatStep(chunks, n);
    FlatPrefix(chunks, n + 1);
  }

  lemma NulFreeMiddle(a: seq<byte>, b: seq<byte>, c: seq<byte>)
    requires a + b <= c && NulFree(c)
    ensures NulFree(b)
  {
    forall j | 0 <= j < |b|
      ensures b[j] != 0
    {
      assert b[j] == (a + b)[|a| + j] == c[|a| + j];
    }
  }

  // A chunk of a file without NUL bytes has none either.
  lemma ChunkOfNulFree(chunks: seq<seq<byte>>, i: nat)
    requires i < |chunks| && NulFree(Flat(chunks))
    ensures NulFree(chunks[i])
  {
    NextChunk(chunks, i);
    NulFreeMiddle(Flat(chunks[..i]), chunks[i], Flat(chunks));
  }

  // --- one client's result -----------------------------------------------------------------

  // A finished client stopped at the message after msgs chunks, the first that starts
  // with NUL; in a file without NUL bytes that is the marker.
  lemma StoppedAt(c: Client, v: Option<View>, queued: bool)
    requires ClientInv(c, v, queued) && c.pc == Done
    ensures c.msgs <= |c.chunks| && Padded(c.sent, c.chunks, c.msgs) && c.file.Some? && Flat(c.chunks) <= c.file.value
    ensures c.msgs < |c.chunks| ==> c.chunks[c.msgs][0] == 0
    ensures c.msgs == |c.chunks| ==> c.stage == Served && Flat(c.chunks) == c.file.value && c.queue == []
  {
    assert c.sent != [];
    if c.msgs < |c.chunks| {
      PaddedChunk(c.chunks[c.msgs]);
    }
  }

  lemma CountsAll(c: Client, v: Option<View>, queued: bool)
    requires ClientInv(c, v, queued) && c.pc == Done
    ensures c.file.Some? && (c.bytes == |c.file.value| <==> NulFree(c.file.value))
    ensures NulFree(c.file.value) ==> c.msgs == |c.chunks|
  {
    StoppedAt(c, v, queued);
    CountedIsLength(c.sent, c.chunks, c.msgs);
    var file, flat := c.file.value, Flat(c.chunks);
    if c.msgs < |c.chunks| {
      NextChunk(c.chunks, c.msgs);
      assert c.bytes < |file|;
      var at := |Flat(c.chunks[..c.msgs])|;
      assert file[at] == flat[at] == c.chunks[c.msgs][0] == 0;
    } else {
      assert c.chunks[..c.msgs] == c.chunks;
    }
  }

  // The byte count a client prints is the length of its file exactly when the file has no
  // NUL byte; and then it has received the chunks of its own file in order, and the
  // marker, and nothing is left over.
  lemma ClientResult(acts: seq<Action>, p: Pid)
    ensures
      var s := Reached(acts);
      p in s.clients && s.clients[p].pc == Done ==>
        var c := s.clients[p];
        && c.file.Some?
        && (c.bytes == |c.file.value| <==> NulFree(c.file.value))
        && (NulFree(c.file.value) ==>
              Flat(c.chunks) == c.file.value && c.msgs == |c.chunks| && c.queue == [] &&
              |c.sent| == c.taken == |c.chunks| + 1 && c.sent[|c.chunks|] == Zeros(MSG_SIZE) &&
              forall i :: 0 <= i < |c.chunks| ==>
                1 <= |c.chunks[i]| < MSG_SIZE && c.sent[i] == Pad(c.chunks[i]) && c.sent[i][0] != 0)
  {
    var s := Reached(acts);
    ReachedInv(acts);
    if p in s.clients && s.clients[p].pc == Done {
      var c := s.clients[p];
      assert Ok(s, p);
      CountsAll(c, ViewOf(s, p), p in s.requests);
      StoppedAt(c, ViewOf(s, p), p in s.requests);
      if NulFree(c.file.value) {
        forall i | 0 <= i < |c.chunks|
          ensures c.sent[i] == Pad(c.chunks[i]) && c.sent[i][0] != 0
        {
          ChunkOfNulFree(c.chunks, i);
        }
      }
    }
  }

  // The message buffer is all zero again before every later request is received, and
  // before every read.
  lemma BufferIsCleared(acts: seq<Action>)
    ensures var s := Reached(acts); s.server == Receive || s.server.Read? ==> s.data == Zeros(MSG_SIZE)
  {
    ReachedInv(acts);
  }
}
