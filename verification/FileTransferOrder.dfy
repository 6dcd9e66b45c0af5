// The order in the file transfer: messages reach a client as they were read, and requests
// are worked on as they were sent.
module FileTransferOrder {
  import opened Common
  import opened CStrings
  import opened FileTransfer
  import opened FileTransferResults

  // --- messages -----------------------------------------------------------------------

  // The messages for a client, in order: its chunks, padded, and the marker.
  function MessageOf(c: Client, i: nat): Message {
    if i < |c.chunks| then Pad(c.chunks[i]) else Zeros(MSG_SIZE)
  }

  // A client's queue holds what comes next behind the messages it has taken; all the chunks
  // together are the beginning of its file, in its order.
  lemma NextMessages(acts: seq<Action>, p: Pid)
    ensures
      var s := Reached(acts);
      p in s.clients ==>
        var c := s.clients[p];
        && (forall i :: 0 <= i < |c.queue| ==> c.queue[i] == MessageOf(c, c.taken + i))
        && (c.chunks != [] ==> c.file.Some? && Flat(c.chunks) <= c.file.value)
  {
    hide ClientInv, MessageOf, Flat;
    var s := Reached(acts);
    ReachedInv(acts);
    if p in s.clients {
      assert Ok(s, p);
      NextOf(s.clients[p], ViewOf(s, p), p in s.requests);
      ChunksOfFile(s.clients[p], ViewOf(s, p), p in s.requests);
    }
  }

  lemma NextOf(c: Client, v: Option<View>, queued: bool)
    requires ClientInv(c, v, queued)
    ensures forall i :: 0 <= i < |c.queue| ==> c.queue[i] == MessageOf(c, c.taken + i)
  {
    hide Pad, Counted, StageInv;
    forall i | 0 <= i < |c.queue|
      ensures c.queue[i] == MessageOf(c, c.taken + i)
    {
      assert c.queue[i] == c.sent[c.taken + i];
    }
  }

  lemma ChunksOfFile(c: Client, v: Option<View>, queued: bool)
    requires ClientInv(c, v, queued)
    ensures c.chunks != [] ==> c.file.Some? && Flat(c.chunks) <= c.file.value
  {
    hide Pad, SentInv, ReceivedInv;
  }

  // What a client sees of n chunks: of each what stands in front of its first NUL.
  function Visible(chunks: seq<seq<byte>>, n: nat): nat
    requires n <= |chunks|
  {
    if n == 0 then 0 else Visible(chunks, n - 1) + |CStr(chunks[n - 1])|
  }

  lemma VisibleChunk(chunk: seq<byte>)
    requires 1 <= |chunk| < MSG_SIZE
    ensures Strlen(Pad(chunk)) == |CStr(chunk)|
  {
    var m, n, k := Pad(chunk), Strlen(Pad(chunk)), |CStr(chunk)|;
    assert m[k] == 0;
    assert forall i :: 0 <= i < k ==> m[i] == chunk[i] == CStr(chunk)[i];
  }

  lemma {:induction false} CountedIsVisible(sent: seq<Message>, chunks: seq<seq<byte>>, n: nat)
    requires ChunksOk(chunks) && Padded(sent, chunks, n)
    ensures Counted(sent, n) == Visible(chunks, n)
  {
    if n > 0 {
      CountedIsVisible(sent, chunks, n - 1);
      VisibleChunk(chunks[n - 1]);
    }
  }

  // For any file: a client that has stopped has counted the visible bytes of the chunks in
  // front of the first one that starts with NUL, and those chunks.
  lemma CountMeans(acts: seq<Action>, p: Pid)
    ensures
      var s := Reached(acts);
      p in s.clients && s.clients[p].pc == Done ==>
        var c := s.clients[p];
        && c.msgs <= |c.chunks| && c.bytes == Visible(c.chunks, c.msgs)
        && (forall i :: 0 <= i < c.msgs ==> c.chunks[i] != [] && c.chunks[i][0] != 0)
        && (c.msgs < |c.chunks| ==> c.chunks[c.msgs] != [] && c.chunks[c.msgs][0] == 0)
  {
    hide Pad;
    var s := Reached(acts);
    ReachedInv(acts);
    if p in s.clients && s.clients[p].pc == Done {
      var c := s.clients[p];
      assert Ok(s, p);
      StoppedAt(c, ViewOf(s, p), p in s.requests);
      CountedIsVisible(c.sent, c.chunks, c.msgs);
      forall i | 0 <= i < c.msgs
        ensures c.chunks[i][0] != 0
      {
        PaddedChunk(c.chunks[i]);
      }
    }
  }

  // --- requests -----------------------------------------------------------------------

  predicate HasAsked(s: State, p: Pid) {
    p in s.clients && s.clients[p].stage != NotAsked
  }

  predicate WorkedOn(s: State, p: Pid) {
    HasAsked(s, p) && s.clients[p].stage != Queued
  }

  predicate Finished(s: State, p: Pid) {
    p in s.clients && (s.clients[p].stage == Served || s.clients[p].stage == Failed)
  }

  // p's request is in the queue, with none of q's in front of it.
  predicate InFront(requests: seq<Pid>, p: Pid, q: Pid) {
    exists i :: 0 <= i < |requests| && requests[i] == p && forall k :: 0 <= k <= i ==> requests[k] != q
  }

  predicate Ahead(s: State, p: Pid, q: Pid) {
    && HasAsked(s, p)
    && (WorkedOn(s, q) ==> Finished(s, p))
    && (!WorkedOn(s, p) ==> InFront(s.requests, p, q))
  }

  lemma FirstIsAhead(s: State, p: Pid, q: Pid)
    requires Inv(s) && HasAsked(s, p) && !HasAsked(s, q)
    ensures Ahead(s, p, q)
  {
    hide SentInv, ReceivedInv;
    assert Ok(s, p);
    if !WorkedOn(s, p) {
      var i :| 0 <= i < |s.requests| && s.requests[i] == p;
      assert forall k :: 0 <= k <= i ==> s.requests[k] != q;
    }
  }

  lemma AsksOnce(s: State, c: Pid)
    requires Inv(s) && c in s.clients
    ensures s.clients[c].pc == Ask <==> s.clients[c].stage == NotAsked
  {
    hide SentInv, ReceivedInv;
    assert Ok(s, c);
  }

  lemma ClientStaysAhead(s: State, c: Pid, p: Pid, q: Pid)
    requires Inv(s) && Ahead(s, p, q) && Enabled(s, ClientStep(c))
    ensures Ahead(AfterClient(s, c), p, q)
  {
    hide Inv;
    AsksOnce(s, c);
    var t := AfterClient(s, c);
    assert s.requests <= t.requests;
    if !WorkedOn(s, p) {
      StaysInFront(s.requests, t.requests, p, q);
    }
    hide InFront;
  }

  lemma StaysInFront(a: seq<Pid>, b: seq<Pid>, p: Pid, q: Pid)
    requires InFront(a, p, q) && a <= b
    ensures InFront(b, p, q)
  {
    var i :| 0 <= i < |a| && a[i] == p && forall k :: 0 <= k <= i ==> a[k] != q;
    assert b[i] == p && forall k :: 0 <= k <= i ==> b[k] == a[k];
  }

  lemma ReceiveStaysAhead(s: State, k: nat, p: Pid, q: Pid)
    requires Inv(s) && Ahead(s, p, q) && s.server == Receive && s.requests != []
    ensures Ahead(AfterServer(s, k), p, q)
  {
    hide SentInv, ReceivedInv;
    assert Ok(s, p);
    var t := AfterServer(s, k);
    if !WorkedOn(s, p) {
      var i :| 0 <= i < |s.requests| && s.requests[i] == p && forall k :: 0 <= k <= i ==> s.requests[k] != q;
      if i > 0 {
        assert t.requests[i - 1] == p && forall k :: 0 <= k <= i - 1 ==> t.requests[k] == s.requests[k + 1];
      }
    }
  }

  lemma ServingStaysAhead(s: State, k: nat, p: Pid, q: Pid)
    requires Inv(s) && Ahead(s, p, q) && s.server != Receive
    ensures Ahead(AfterServer(s, k), p, q)
  {
    hide SentInv, ReceivedInv, InFront;
    assert Ok(s, s.server.p) && Ok(s, p);
    assert AfterServer(s, k).requests == s.requests;
  }

  lemma StepStaysAhead(s: State, a: Action, p: Pid, q: Pid)
    requires Inv(s) && Ahead(s, p, q)
    ensures Ahead(Step(s, a), p, q)
  {
    hide Inv, InFront;
    if Enabled(s, a) {
      match a
      case Start(_, _) =>
      case ClientStep(c) => ClientStaysAhead(s, c, p, q);
      case ServerStep(k) => if s.server == Receive { ReceiveStaysAhead(s, k, p, q); } else { ServingStaysAhead(s, k, p, q); }
    }
  }

  lemma {:induction false} RunStaysAhead(s: State, acts: seq<Action>, p: Pid, q: Pid)
    requires Inv(s) && Ahead(s, p, q)
    ensures Ahead(Run(s, acts), p, q)
    decreases |acts|
  {
    hide Inv, Ahead, Step;
    if acts != [] {
      StepStaysAhead(s, acts[0], p, q);
      StepKeepsInv(s, acts[0]);
      RunStaysAhead(Step(s, acts[0]), acts[1..], p, q);
    }
  }

  // First come, first served: if p has asked and q has not, then ever after the server works
  // on q's request only when it is through with p's.
  lemma FirstComeFirstServed(acts: seq<Action>, more: seq<Action>, p: Pid, q: Pid)
    requires HasAsked(Reached(acts), p) && !HasAsked(Reached(acts), q)
    ensures var t := Run(Reached(acts), more); WorkedOn(t, q) ==> Finished(t, p)
  {
    ReachedInv(acts);
    FirstIsAhead(Reached(acts), p, q);
    RunStaysAhead(Reached(acts), more, p, q);
  }
}
