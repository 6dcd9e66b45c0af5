// When nobody is left waiting by the file server, and when the server itself waits for good.
module FileTransferProgress {
  import opened Common
  import opened FileTransfer
  import opened FileTransferResults

  // Nothing can move any more.
  ghost predicate Quiet(s: State) {
    (forall k :: !Enabled(s, ServerStep(k))) && forall p: Pid :: !Enabled(s, ClientStep(p))
  }

  // The server waits for room in the queue of a client that has stopped receiving.
  predicate Held(s: State) {
    && (s.server.Send? || s.server.Finish?)
    && s.server.p in s.clients && s.clients[s.server.p].pc == Done && !HasRoom(s, s.server.p)
  }

  // That is for good, whatever the other clients do and whoever else asks.
  lemma {:induction false} HeldForGood(s: State, acts: seq<Action>)
    requires Held(s)
    ensures Held(Run(s, acts)) && Run(s, acts).server == s.server
    decreases |acts|
  {
    if acts != [] {
      HeldForGood(Step(s, acts[0]), acts[1..]);
    }
  }

  // A NUL byte with a whole queue of bytes behind it.
  predicate LateNul(file: seq<byte>) {
    exists i :: 0 <= i < |file| - MAX_MSG && file[i] == 0
  }

  // --- who can be held up ---------------------------------------------------------------

  // Every chunk has at least one byte.
  lemma {:induction false} FlatGrows(chunks: seq<seq<byte>>, n: nat)
    requires ChunksOk(chunks) && n <= |chunks|
    ensures |Flat(chunks)| >= |Flat(chunks[..n])| + |chunks| - n
    decreases |chunks|
  {
    if n == |chunks| {
      assert chunks[..n] == chunks;
    } else {
      var init := chunks[..|chunks| - 1];
      assert init[..n] == chunks[..n];
      FlatGrows(init, n);
    }
  }

  // The client stopped at a chunk that starts with NUL, and four more are in its queue.
  lemma HeldFile(c: Client, v: Option<View>, queued: bool)
    requires ClientInv(c, v, queued) && v.Some? && (v.value.pc.Send? || v.value.pc.Finish?)
    requires c.pc == Done && |c.queue| >= MAX_MSG
    ensures c.file.Some? && LateNul(c.file.value)
  {
    hide Counted, Pad;
    StoppedAt(c, v, queued);
    assert |c.chunks| > c.msgs + MAX_MSG;
    NextChunk(c.chunks, c.msgs);
    FlatGrows(c.chunks, c.msgs);
    var at := |Flat(c.chunks[..c.msgs])|;
    assert c.file.value[at] == Flat(c.chunks)[at] == c.chunks[c.msgs][0] == 0;
  }

  lemma HeldHasLateNul(acts: seq<Action>)
    ensures
      var s := Reached(acts);
      Held(s) ==> s.clients[s.server.p].file.Some? && LateNul(s.clients[s.server.p].file.value)
  {
    hide ClientInv;
    var s := Reached(acts);
    ReachedInv(acts);
    if Held(s) {
      var p := s.server.p;
      assert Ok(s, p);
      HeldFile(s.clients[p], ViewOf(s, p), p in s.requests);
    }
  }

  // --- when all is quiet ------------------------------------------------------------------

  // A client that has taken everything sent to it is through, or its request is still to
  // be worked on, or its file could not be opened.
  lemma EmptyQueue(c: Client, v: Option<View>, queued: bool)
    requires ClientInv(c, v, queued) && c.pc == Receiving && c.queue == []
    ensures c.stage == Failed || (c.stage == Queued && queued) || (c.stage == Serving && v.Some?)
    ensures c.stage == Failed ==> c.file == None
  {
    hide Counted, Pad, ChunksOk;
    assert c.taken == |c.sent|;
    assert c.sent != [] ==> !StartsNul(c.sent[|c.sent| - 1]);
    assert StartsNul(Zeros(MSG_SIZE));
  }

  // The server waits for a client only if that client can still take something.
  lemma WaitsOnlyIfHeld(s: State)
    requires Inv(s) && Quiet(s) && s.server != Receive
    ensures Held(s)
  {
    var p := s.server.p;
    assert !Enabled(s, ServerStep(0)) && !Enabled(s, ClientStep(p));
    assert Ok(s, p);
  }

  // All is quiet only when the server is held up for good by a file with a late NUL byte, or
  // every client has finished, except those whose file could not be opened: they wait for good.
  lemma QuietMeansDone(acts: seq<Action>, p: Pid)
    ensures
      var s := Reached(acts);
      Quiet(s) ==>
        && (Held(s) <==> s.server != Receive)
        && (s.server != Receive ==>
              var file := s.clients[s.server.p].file; file.Some? && LateNul(file.value))
        && (s.server == Receive ==> s.requests == [])
        && (s.server == Receive && p in s.clients ==>
              if s.clients[p].file.Some? then s.clients[p].pc == Done
              else s.clients[p].pc == Receiving && s.clients[p].stage == Failed)
  {
    hide ClientInv;
    var s := Reached(acts);
    ReachedInv(acts);
    if Quiet(s) && s.server != Receive {
      WaitsOnlyIfHeld(s);
      HeldHasLateNul(acts);
    } else if Quiet(s) {
      assert !Enabled(s, ServerStep(0));
      if p in s.clients {
        assert Ok(s, p) && !Enabled(s, ClientStep(p));
        if s.clients[p].pc == Receiving {
          EmptyQueue(s.clients[p], ViewOf(s, p), p in s.requests);
        } else if s.clients[p].pc == Done {
          CountsAll(s.clients[p], ViewOf(s, p), p in s.requests);
        }
      }
    }
  }

  // --- a run that holds the server up --------------------------------------------------------

  // The server is about to read p's file from at on.
  ghost predicate Reading(s: State, p: Pid, file: seq<byte>, at: nat) {
    && Inv(s) && s.server == Read(p) && s.pos == at <= |file|
    && p in s.clients && s.clients[p].file == Some(file)
  }

  // Reading up to size bytes, sending them and clearing the buffer.
  function OneChunk(size: nat): seq<Action> {
    [ServerStep(size), ServerStep(size), ServerStep(size)]
  }

  // Where the read behind at begins.
  function Next(file: seq<byte>, at: nat, size: nat): (next: nat)
    requires at < |file|
    ensures size >= 1 ==> next > at
  {
    if |file| - at < size then |file| else at + size
  }

  lemma RunThree(s: State, acts: seq<Action>)
    requires |acts| == 3
    ensures Run(s, acts) == Step(Step(Step(s, acts[0]), acts[1]), acts[2])
  {
    var a, b := acts[1..], acts[1..][1..];
    assert b[1..] == [] && a[0] == acts[1] && b[0] == acts[2];
    var s1 := Step(s, acts[0]);
    assert Run(s, acts) == Run(s1, a) == Run(Step(s1, a[0]), b);
    assert Run(Step(s1, a[0]), b) == Run(Step(Step(s1, a[0]), b[0]), []);
  }

  lemma RunOne(s: State, a: Action)
    ensures Run(s, [a]) == Step(s, a)
  {
    assert [a][1..] == [] && Run(s, [a]) == Run(Step(s, a), []);
  }

  lemma {:induction false} RunConcat(s: State, a: seq<Action>, b: seq<Action>)
    ensures Run(s, a + b) == Run(Run(s, a), b)
    decreases |a|
  {
    if a == [] {
      assert a + b == b;
    } else {
      assert (a + b)[1..] == a[1..] + b;
      RunConcat(Step(s, a[0]), a[1..], b);
    }
  }

  lemma SendsChunk(s: State, p: Pid, file: seq<byte>, at: nat, size: nat)
    requires Reading(s, p, file, at) && at < |file| && HasRoom(s, p) && 1 <= size < MSG_SIZE
    ensures
      var t := Run(s, OneChunk(size));
      && Reading(t, p, file, Next(file, at, size))
      && t.clients[p].pc == s.clients[p].pc
      && exists m: Message :: m != [] && m[0] == file[at] && t.clients[p].queue == s.clients[p].queue + [m]
  {
    hide Inv;
    RunThree(s, OneChunk(size));
    RunKeepsInv(s, OneChunk(size));
    var t1 := Step(s, ServerStep(size));
    assert s.data == Zeros(MSG_SIZE) by { BufferAtRead(s); }
    assert t1.data[0] == file[at];
    var t := Step(Step(t1, ServerStep(size)), ServerStep(size));
    assert t.clients[p].queue == s.clients[p].queue + [t1.data];
  }

  lemma BufferAtRead(s: State)
    requires Inv(s) && s.server.Read?
    ensures s.data == Zeros(MSG_SIZE)
  {
  }

  // A client that receives takes the chunk at once, and stops if it starts with NUL.
  lemma TakesChunk(s: State, p: Pid, file: seq<byte>, at: nat, size: nat)
    requires Reading(s, p, file, at) && at < |file| && 1 <= size < MSG_SIZE
    requires s.clients[p].pc == Receiving && s.clients[p].queue == []
    ensures
      var t := Run(s, OneChunk(size) + [ClientStep(p)]);
      && Reading(t, p, file, Next(file, at, size)) && t.clients[p].queue == []
      && t.clients[p].pc == if file[at] == 0 then Done else Receiving
  {
    hide Inv, Run;
    SendsChunk(s, p, file, at, size);
    RunConcat(s, OneChunk(size), [ClientStep(p)]);
    var t := Run(s, OneChunk(size));
    RunOne(t, ClientStep(p));
    StepKeepsInv(t, ClientStep(p));
  }

  // One of the reads from at on begins at a NUL byte and has four more behind it.
  predicate NulAhead(file: seq<byte>, at: nat, size: nat)
    requires size >= 1
    decreases |file| - at
  {
    at + MAX_MSG * size < |file| && (file[at] == 0 || NulAhead(file, at + size, size))
  }

  // The reads from at on that it takes to fill a queue of q messages.
  predicate FillsUp(file: seq<byte>, at: nat, size: nat, q: nat) {
    q == 4 || (q == 3 && at < |file|) || (q == 2 && at + size < |file|) ||
    (q == 1 && at + 2 * size < |file|) || (q == 0 && at + 3 * size < |file|)
  }

  // Read by read up to the first NUL at a beginning, and on until the client's queue is full.
  lemma {:induction false} FillQueue(s: State, p: Pid, file: seq<byte>, at: nat, size: nat) returns (acts: seq<Action>)
    requires Reading(s, p, file, at) && 1 <= size < MSG_SIZE
    requires
      if s.clients[p].pc == Done then FillsUp(file, at, size, |s.clients[p].queue|)
      else s.clients[p].pc == Receiving && s.clients[p].queue == [] && NulAhead(file, at, size)
    ensures Held(Run(s, acts)) && forall i :: 0 <= i < |acts| ==> !acts[i].Start? && Reads(acts[i], size)
    decreases |file| - at
  {
    hide Inv, Run;
    if s.clients[p].pc == Receiving {
      var one := OneChunk(size) + [ClientStep(p)];
      TakesChunk(s, p, file, at, size);
      var rest := FillQueue(Run(s, one), p, file, at + size, size);
      RunConcat(s, one, rest);
      acts := one + rest;
    } else if |s.clients[p].queue| < MAX_MSG {
      SendsChunk(s, p, file, at, size);
      var rest := FillQueue(Run(s, OneChunk(size)), p, file, Next(file, at, size), size);
      RunConcat(s, OneChunk(size), rest);
      acts := OneChunk(size) + rest;
    } else {
      var t := Step(s, ServerStep(size));
      RunOne(s, ServerStep(size));
      acts := [ServerStep(size)];
      if at == |file| {
        RunOne(t, ServerStep(size));
        RunConcat(s, [ServerStep(size)], [ServerStep(size)]);
        acts := [ServerStep(size)] + [ServerStep(size)];
      }
    }
  }

  // Every read would like to return size bytes.
  predicate Reads(a: Action, size: nat) {
    a.ServerStep? ==> a.k == size
  }

  // The client asks, and the server opens its file.
  function Opening(p: Pid, file: seq<byte>, size: nat): seq<Action> {
    [Start(p, Some(file)), ClientStep(p), ServerStep(size)] + [ServerStep(size)]
  }

  lemma OpeningReads(p: Pid, file: seq<byte>, size: nat)
    ensures
      var s := Reached(Opening(p, file, size));
      Reading(s, p, file, 0) && s.clients[p].pc == Receiving && s.clients[p].queue == []
  {
    var s0 := Init();
    var ask := [Start(p, Some(file)), ClientStep(p), ServerStep(size)];
    ReachedInv(Opening(p, file, size));
    hide Inv, Run;
    RunConcat(s0, ask, [ServerStep(size)]);
    RunThree(s0, ask);
    var s1 := Step(s0, ask[0]);
    var s2 := Step(s1, ask[1]);
    assert s2.requests == [p] && s2.server == Receive && s2.clients.Keys == {p};
    var s3 := Step(s2, ask[2]);
    assert s3.server == Open(p) && s3.clients[p].file == Some(file);
    RunOne(s3, ServerStep(size));
  }

  // --- the boundary ----------------------------------------------------------------------------

  // The clients that start are among these, and ask for these files.
  ghost predicate Serves(acts: seq<Action>, files: map<Pid, Option<seq<byte>>>) {
    forall i :: 0 <= i < |acts| && acts[i].Start? ==> acts[i].pid in files && acts[i].file == files[acts[i].pid]
  }

  lemma {:induction false} KeepsFiles(s: State, acts: seq<Action>, files: map<Pid, Option<seq<byte>>>)
    requires Serves(acts, files) && forall p :: p in s.clients ==> p in files && s.clients[p].file == files[p]
    ensures forall p :: p in Run(s, acts).clients ==> p in files && Run(s, acts).clients[p].file == files[p]
    decreases |acts|
  {
    if acts != [] {
      assert acts[0].Start? ==> acts[0].pid in files && acts[0].file == files[acts[0].pid];
      assert forall i :: 0 <= i < |acts[1..]| ==> acts[1..][i] == acts[i + 1];
      KeepsFiles(Step(s, acts[0]), acts[1..], files);
    }
  }

  ghost predicate CanBeHeld(files: map<Pid, Option<seq<byte>>>) {
    exists acts :: Serves(acts, files) && Held(Reached(acts))
  }

  // Some run holds the server up for good exactly when some file that can be opened has a
  // NUL byte with at least four bytes behind it.
  lemma HeldBoundary(files: map<Pid, Option<seq<byte>>>)
    ensures CanBeHeld(files) <==> exists p :: p in files && files[p].Some? && LateNul(files[p].value)
  {
    hide LateNul, Held, Step;
    if p :| p in files && files[p].Some? && LateNul(files[p].value) {
      HasNulAhead(files[p].value);
      var acts := HoldingRun(p, files[p].value, 1);
      assert Serves(acts, files);
    } else {
      forall acts | Serves(acts, files)
        ensures !Held(Reached(acts))
      {
        NotHeld(acts, files);
      }
    }
  }

  lemma HoldingRun(p: Pid, file: seq<byte>, size: nat) returns (acts: seq<Action>)
    requires 1 <= size < MSG_SIZE && NulAhead(file, 0, size)
    ensures Held(Reached(acts))
    ensures forall i :: 0 <= i < |acts| ==> Reads(acts[i], size) && (acts[i].Start? ==> acts[i] == Start(p, Some(file)))
  {
    hide Held, Run, Step, Inv;
    OpeningReads(p, file, size);
    var rest := FillQueue(Reached(Opening(p, file, size)), p, file, 0, size);
    RunConcat(Init(), Opening(p, file, size), rest);
    acts := Opening(p, file, size) + rest;
  }

  lemma HasNulAhead(file: seq<byte>)
    requires LateNul(file)
    ensures NulAhead(file, 0, 1)
  {
    var i :| 0 <= i < |file| - MAX_MSG && file[i] == 0;
    ByteAhead(file, 0, i);
  }

  lemma {:induction false} ByteAhead(file: seq<byte>, at: nat, i: nat)
    requires at <= i < |file| - MAX_MSG && file[i] == 0
    ensures NulAhead(file, at, 1)
    decreases i - at
  {
    if at < i && file[at] != 0 {
      ByteAhead(file, at + 1, i);
    }
  }

  lemma NotHeld(acts: seq<Action>, files: map<Pid, Option<seq<byte>>>)
    requires Serves(acts, files)
    requires forall p :: p in files && files[p].Some? ==> !LateNul(files[p].value)
    ensures !Held(Reached(acts))
  {
    hide LateNul, Run, Step;
    KeepsFiles(Init(), acts, files);
    HeldHasLateNul(acts);
  }

  // --- reads that return all they can ----------------------------------------------------------

  // As many bytes as one read of a regular file returns.
  const CHUNK: nat := MSG_SIZE - 1

  ghost predicate AllWhole(acts: seq<Action>) {
    forall i :: 0 <= i < |acts| && acts[i].ServerStep? ==> acts[i].k >= CHUNK
  }

  // One of those reads begins at a NUL byte and has four more behind it.
  predicate LateNulChunk(file: seq<byte>) {
    exists i :: 0 <= i < |file| && Begins(file, i)
  }

  predicate Begins(file: seq<byte>, i: nat) {
    CHUNK * (i + MAX_MSG) < |file| && file[CHUNK * i] == 0
  }

  // Every chunk but perhaps the last is as long as can be, and the last too while the
  // server is not at the end of the file.
  predicate LongChunks(c: Client, v: Option<View>) {
    && (forall i :: 0 <= i < |c.chunks| - 1 ==> |c.chunks[i]| == CHUNK)
    && (v.Some? && !v.value.pc.Open? && c.file.Some? && v.value.pos < |c.file.value| && c.chunks != [] ==>
          |c.chunks[|c.chunks| - 1]| == CHUNK)
  }

  ghost predicate AllLong(s: State) {
    forall p :: p in s.clients ==> LongChunks(s.clients[p], ViewOf(s, p))
  }

  lemma ServingKeepsLong(s: State, p: Pid, k: nat)
    requires Inv(s) && s.server != Receive && p == s.server.p && k >= CHUNK
    requires LongChunks(s.clients[p], ViewOf(s, p))
    ensures var t := AfterServing(s, p, k); p in t.clients && LongChunks(t.clients[p], ViewOf(t, p))
  {
    hide SentInv, ReceivedInv;
    assert Ok(s, p);
  }

  lemma StepKeepsLong(s: State, a: Action)
    requires Inv(s) && AllLong(s) && (a.ServerStep? ==> a.k >= CHUNK)
    ensures AllLong(Step(s, a))
  {
    hide Inv, LongChunks;
    var t := Step(s, a);
    forall p | p in t.clients
      ensures LongChunks(t.clients[p], ViewOf(t, p))
    {
      OneStaysLong(s, a, p);
    }
  }

  lemma OneStaysLong(s: State, a: Action, p: Pid)
    requires Inv(s) && (a.ServerStep? ==> a.k >= CHUNK) && p in Step(s, a).clients
    requires p in s.clients ==> LongChunks(s.clients[p], ViewOf(s, p))
    ensures LongChunks(Step(s, a).clients[p], ViewOf(Step(s, a), p))
  {
    hide SentInv, ReceivedInv;
    if a.ServerStep? && s.server != Receive && p == s.server.p && Enabled(s, a) {
      ServingKeepsLong(s, p, a.k);
    } else if p in s.clients {
      assert Ok(s, p);
    }
  }

  lemma {:induction false} RunKeepsLong(s: State, acts: seq<Action>)
    requires Inv(s) && AllLong(s) && AllWhole(acts)
    ensures AllLong(Run(s, acts))
    decreases |acts|
  {
    hide Inv, AllLong, Step;
    if acts != [] {
      StepKeepsLong(s, acts[0]);
      StepKeepsInv(s, acts[0]);
      assert forall i :: 0 <= i < |acts[1..]| ==> acts[1..][i] == acts[i + 1];
      RunKeepsLong(Step(s, acts[0]), acts[1..]);
    }
  }

  lemma {:induction false} FlatOfLong(chunks: seq<seq<byte>>, n: nat)
    requires n <= |chunks| && forall i :: 0 <= i < n ==> |chunks[i]| == CHUNK
    ensures |Flat(chunks[..n])| == CHUNK * n
  {
    if n > 0 {
      FlatOfLong(chunks, n - 1);
      FlatStep(chunks, n - 1);
    }
  }

  // Behind m long chunks comes one that starts with NUL, and four more.
  lemma BeginsAtChunk(chunks: seq<seq<byte>>, file: seq<byte>, m: nat)
    requires m + MAX_MSG < |chunks| && ChunksOk(chunks) && Flat(chunks) <= file && chunks[m][0] == 0
    requires forall i :: 0 <= i < m + MAX_MSG ==> |chunks[i]| == CHUNK
    ensures Begins(file, m) && m < |file|
  {
    hide Flat;
    var flat := Flat(chunks);
    FlatOfLong(chunks, m);
    FlatOfLong(chunks, m + MAX_MSG);
    NextChunk(chunks, m);
    NextChunk(chunks, m + MAX_MSG);
    var front := Flat(chunks[..m]) + chunks[m];
    assert front[CHUNK * m] == chunks[m][0];
    assert file[CHUNK * m] == flat[CHUNK * m] == front[CHUNK * m];
  }

  // The chunk the client stopped at.
  lemma HeldChunk(c: Client, v: Option<View>, queued: bool)
    requires ClientInv(c, v, queued) && v.Some? && (v.value.pc.Send? || v.value.pc.Finish?)
    requires c.pc == Done && |c.queue| >= MAX_MSG && LongChunks(c, v)
    ensures c.file.Some? && LateNulChunk(c.file.value)
  {
    hide Counted, Pad, Flat, Begins;
    StoppedAt(c, v, queued);
    assert |c.chunks| > c.msgs + MAX_MSG;
    BeginsAtChunk(c.chunks, c.file.value, c.msgs);
  }

  lemma HeldHasLateChunk(acts: seq<Action>)
    requires AllWhole(acts)
    ensures
      var s := Reached(acts);
      Held(s) ==> s.clients[s.server.p].file.Some? && LateNulChunk(s.clients[s.server.p].file.value)
  {
    hide ClientInv, LongChunks;
    var s := Reached(acts);
    ReachedInv(acts);
    RunKeepsLong(Init(), acts);
    if Held(s) {
      var p := s.server.p;
      assert Ok(s, p);
      HeldChunk(s.clients[p], ViewOf(s, p), p in s.requests);
    }
  }

  lemma {:induction false} ChunkAhead(file: seq<byte>, at: nat, j: nat, i: nat)
    requires at == CHUNK * j && j <= i && Begins(file, i)
    ensures NulAhead(file, at, CHUNK)
    decreases i - j
  {
    if j < i && file[at] != 0 {
      ChunkAhead(file, at + CHUNK, j + 1, i);
    }
  }

  lemma HasChunkAhead(file: seq<byte>)
    requires LateNulChunk(file)
    ensures NulAhead(file, 0, CHUNK)
  {
    var i :| 0 <= i < |file| && Begins(file, i);
    ChunkAhead(file, 0, 0, i);
  }

  ghost predicate CanBeHeldByWholeReads(files: map<Pid, Option<seq<byte>>>) {
    exists acts :: Serves(acts, files) && AllWhole(acts) && Held(Reached(acts))
  }

  // With reads that return 2047 bytes as long as there are so many, some run holds the server
  // up exactly when some file that can be opened has a NUL byte at a multiple of 2047 and
  // reaches behind the fourth multiple from there.
  lemma WholeReadHeldBoundary(files: map<Pid, Option<seq<byte>>>)
    ensures CanBeHeldByWholeReads(files) <==> exists p :: p in files && files[p].Some? && LateNulChunk(files[p].value)
  {
    hide LateNulChunk, Held, Step;
    if p :| p in files && files[p].Some? && LateNulChunk(files[p].value) {
      HasChunkAhead(files[p].value);
      var acts := HoldingRun(p, files[p].value, CHUNK);
      assert Serves(acts, files);
      assert AllWhole(acts);
    } else {
      forall acts | Serves(acts, files) && AllWhole(acts)
        ensures !Held(Reached(acts))
      {
        NotHeldByWholeReads(acts, files);
      }
    }
  }

  lemma NotHeldByWholeReads(acts: seq<Action>, files: map<Pid, Option<seq<byte>>>)
    requires Serves(acts, files) && AllWhole(acts)
    requires forall p :: p in files && files[p].Some? ==> !LateNulChunk(files[p].value)
    ensures !Held(Reached(acts))
  {
    hide LateNulChunk, Run, Step;
    KeepsFiles(Init(), acts, files);
    HeldHasLateChunk(acts);
  }
}
