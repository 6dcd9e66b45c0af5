// The shared-memory dictionary of SP_HW12: any number of clients and one server
// share a single record and two System V semaphores.  A state is what the kernel
// and the processes hold between two atomic operations; a run is a schedule.
module Rendezvous {

  // What the server stores when the word is unknown (shm_server.c:71).
  const NOT_FOUND_TEXT := "XXXX"

  // The repository reads the answer after giving the mutex back (lookup6.c:49-58).
  // The other order is the repair it is compared with.
  datatype Order = ReleaseThenRead | ReadThenRelease

  // The next operation of a client's lookup call; Returned is the caller's side.
  datatype ClientPc = Grab | Write | Alert | Await | Release | Compare | Copy | Returned

  datatype ServerPc = Wait | Search | Mark | Notify

  datatype Outcome = Unset | Found(text: string) | NotFound

  // One client and its latest call.  The fields from alertedAt on are history:
  // how many answers the server had written when the client passed each point.
  datatype Client = Client(
    pc: ClientPc, word: string, outcome: Outcome,
    calls: nat, alertedAt: nat, answeredAt: nat, comparedAt: nat, copiedAt: nat, loggedAt: nat)

  function NewClient(w: string, calls: nat): Client {
    Client(Grab, w, Unset, calls, 0, 0, 0, 0, 0)
  }

  // A lookup, as the atomic dictionary sees it.
  datatype Entry = Entry(client: nat, word: string, text: string)

  // answers and log are history: the texts the server stored, and the lookups in
  // the order in which their callers passed the await operation.
  datatype State = State(
    order: Order, db: map<string, string>,
    sem0: int, sem1: int, word: string, text: string,
    server: ServerPc, clients: map<nat, Client>,
    answers: seq<string>, log: seq<Entry>)

  datatype Action = Call(client: nat, sought: string) | ClientStep(who: nat) | ServerStep

  // The text an atomic dictionary answers a word with.
  function Answer(db: map<string, string>, word: string): string {
    if word in db then db[word] else NOT_FOUND_TEXT
  }

  // What a caller concludes from the text it compared and the text it copied.
  function Conclude(compared: string, copied: string): Outcome {
    if compared == NOT_FOUND_TEXT then NotFound else Found(copied)
  }

  function Init(order: Order, db: map<string, string>, word: string, text: string): State {
    State(order, db, 1, 0, word, text, Wait, map[], [], [])
  }

  // --- one atomic operation -------------------------------------------------

  predicate Enabled(s: State, a: Action) {
    match a
    case Call(c, w) => c !in s.clients || s.clients[c].pc == Returned
    case ClientStep(c) =>
      c in s.clients &&
      (match s.clients[c].pc
       case Grab => s.sem0 >= 1
       case Await => s.sem1 == 0
       case Returned => false
       case _ => true)
    case ServerStep => s.server == Wait || s.server == Notify ==> s.sem1 >= 1
  }

  function AfterCall(s: State, c: nat, w: string): State {
    var calls := if c in s.clients then s.clients[c].calls + 1 else 1;
    s.(clients := s.clients[c := NewClient(w, calls)])
  }

  // Where a client goes once it has its outcome.
  function PcWithOutcome(order: Order): ClientPc {
    if order == ReleaseThenRead then Returned else Release
  }

  function AfterClient(s: State, c: nat): State
    requires c in s.clients
  {
    var r := s.clients[c];
    match r.pc
    case Grab => s.(sem0 := s.sem0 - 1, clients := s.clients[c := r.(pc := Write)])
    case Write => s.(word := r.word, clients := s.clients[c := r.(pc := Alert)])
    case Alert => s.(sem1 := s.sem1 + 2, clients := s.clients[c := r.(pc := Await, alertedAt := |s.answers|)])
    case Await =>
      var next := if s.order == ReleaseThenRead then Release else Compare;
      s.(log := s.log + [Entry(c, r.word, s.text)],
         clients := s.clients[c := r.(pc := next, answeredAt := |s.answers|, loggedAt := |s.log|)])
    case Release =>
      var next := if s.order == ReleaseThenRead then Compare else Returned;
      s.(sem0 := s.sem0 + 1, clients := s.clients[c := r.(pc := next)])
    case Compare =>
      var r' := r.(comparedAt := |s.answers|, copiedAt := |s.answers|);
      s.(clients := s.clients[c :=
        if s.text != NOT_FOUND_TEXT then r'.(pc := Copy)
        else r'.(pc := PcWithOutcome(s.order), outcome := NotFound)])
    case Copy =>
      s.(clients := s.clients[c :=
        r.(pc := PcWithOutcome(s.order), outcome := Found(s.text), copiedAt := |s.answers|)])
    case Returned => s
  }

  function AfterServer(s: State): State {
    match s.server
    case Wait => s.(sem1 := s.sem1 - 1, server := Search)
    case Search =>
      if s.word in s.db then
        s.(text := s.db[s.word], answers := s.answers + [s.db[s.word]], server := Notify)
      else s.(server := Mark)
    case Mark => s.(text := NOT_FOUND_TEXT, answers := s.answers + [NOT_FOUND_TEXT], server := Notify)
    case Notify => s.(sem1 := s.sem1 - 1, server := Wait)
  }

  // A process scheduled while it is blocked stays where it is.
  function Step(s: State, a: Action): State {
    if !Enabled(s, a) then s else
    match a
    case Call(c, w) => AfterCall(s, c, w)
    case ClientStep(c) => AfterClient(s, c)
    case ServerStep => AfterServer(s)
  }

  function Run(s: State, acts: seq<Action>): State
    decreases |acts|
  {
    if acts == [] then s else Run(Step(s, acts[0]), acts[1..])
  }

  // --- the invariant ---------------------------------------------------------

  // c is between its grab and its release.
  predicate Holding(s: State, c: nat) {
    c in s.clients &&
    (match s.clients[c].pc
     case Write | Alert | Await | Release => true
     case Compare | Copy => s.order == ReadThenRelease
     case _ => false)
  }

  function Holders(s: State): set<nat> {
    set c | c in s.clients && Holding(s, c)
  }

  // The record holds the answer to the word in it, and it is the latest answer.
  predicate Answered(s: State) {
    s.text == Answer(s.db, s.word) && s.answers != [] && s.answers[|s.answers| - 1] == s.text
  }

  predicate HolderInv(s: State, c: nat)
    requires c in s.clients
  {
    var r := s.clients[c];
    (r.pc != Write ==> s.word == r.word) &&
    match r.pc
    case Write | Alert => s.server == Wait && s.sem1 == 0
    case Await =>
      (match s.server
       case Wait =>
         if |s.answers| == r.alertedAt then s.sem1 == 2
         else s.sem1 == 0 && Answered(s) && |s.answers| == r.alertedAt + 1
       case Search => s.sem1 == 1 && |s.answers| == r.alertedAt
       case Mark => s.sem1 == 1 && |s.answers| == r.alertedAt && s.word !in s.db
       case Notify => s.sem1 == 1 && Answered(s) && |s.answers| == r.alertedAt + 1)
    case _ => s.server == Wait && s.sem1 == 0 && Answered(s)
  }

  ghost predicate MutexInv(s: State) {
    && 0 <= s.sem0 <= 1
    && (forall c, d :: Holding(s, c) && Holding(s, d) ==> c == d)
    && (s.sem0 == 0 ==> exists c: nat :: Holding(s, c))
    && (s.sem0 == 1 ==> (forall c :: !Holding(s, c)) && s.server == Wait && s.sem1 == 0)
    && (forall c :: Holding(s, c) ==> HolderInv(s, c))
  }

  predicate PastAwait(r: Client) {
    r.pc == Release || r.pc == Compare || r.pc == Copy || r.pc == Returned
  }

  // c has compared, so comparedAt means something.
  predicate HasCompared(s: State, r: Client) {
    r.pc == Copy || r.pc == Returned || (r.pc == Release && s.order == ReadThenRelease)
  }

  predicate ClientHistory(s: State, c: nat)
    requires c in s.clients
  {
    var r := s.clients[c];
    var n := |s.answers|;
    && (PastAwait(r) ==> 1 <= r.answeredAt <= n && s.answers[r.answeredAt - 1] == Answer(s.db, r.word))
    && (PastAwait(r) && s.order == ReadThenRelease && r.pc != Returned ==> r.answeredAt == n)
    && (HasCompared(s, r) ==>
          r.answeredAt <= r.comparedAt <= r.copiedAt <= n &&
          (r.pc == Copy ==> s.answers[r.comparedAt - 1] != NOT_FOUND_TEXT) &&
          (r.pc != Copy ==> r.outcome == Conclude(s.answers[r.comparedAt - 1], s.answers[r.copiedAt - 1])) &&
          (s.order == ReadThenRelease ==> r.copiedAt == r.answeredAt))
  }

  ghost predicate HistoryInv(s: State) {
    && (s.answers != [] ==> s.text == s.answers[|s.answers| - 1])
    && (forall c :: c in s.clients ==> ClientHistory(s, c))
  }

  // Lookups logged for c.
  function Logged(log: seq<Entry>, c: nat): nat {
    if log == [] then 0
    else Logged(log[..|log| - 1], c) + (if log[|log| - 1].client == c then 1 else 0)
  }

  predicate ClientLogged(s: State, c: nat)
    requires c in s.clients
  {
    var r := s.clients[c];
    if PastAwait(r) then
      Logged(s.log, c) == r.calls && r.loggedAt < |s.log| &&
      s.log[r.loggedAt] == Entry(c, r.word, Answer(s.db, r.word)) &&
      (forall i :: r.loggedAt < i < |s.log| ==> s.log[i].client != c)
    else Logged(s.log, c) + 1 == r.calls
  }

  ghost predicate LogInv(s: State) {
    && (forall i :: 0 <= i < |s.log| ==> s.log[i].text == Answer(s.db, s.log[i].word))
    && (forall c :: c in s.clients ==> ClientLogged(s, c))
    && (forall c :: c !in s.clients ==> Logged(s.log, c) == 0)
  }

  ghost predicate Inv(s: State) {
    MutexInv(s) && HistoryInv(s) && LogInv(s)
  }

  lemma CallKeepsMutex(s: State, c: nat, w: string)
    requires MutexInv(s) && Enabled(s, Call(c, w))
    ensures MutexInv(AfterCall(s, c, w))
  {
    var t := AfterCall(s, c, w);
    assert forall d :: Holding(t, d) <==> Holding(s, d);
  }

  // What is known of a client at its call.
  lemma NewCall(s: State, c: nat, w: string)
    requires Enabled(s, Call(c, w)) && if c in s.clients then ClientLogged(s, c) else Logged(s.log, c) == 0
    ensures var t := AfterCall(s, c, w); ClientHistory(t, c) && ClientLogged(t, c)
  {
  }

  lemma CallKeepsRecords(s: State, c: nat, w: string)
    requires HistoryInv(s) && LogInv(s) && Enabled(s, Call(c, w))
    ensures HistoryInv(AfterCall(s, c, w)) && LogInv(AfterCall(s, c, w))
  {
    hide ClientHistory, ClientLogged;
    var t := AfterCall(s, c, w);
    NewCall(s, c, w);
    forall d | d in t.clients && d != c
      ensures ClientHistory(t, d) && ClientLogged(t, d)
    {
      HistoryFrame(s, t, d);
      LogFrame(s, t, d);
    }
  }

  // A holder's own step: it goes on holding or releases.
  lemma HolderSteps(s: State, c: nat)
    requires Enabled(s, ClientStep(c))
    requires if Holding(s, c) then HolderInv(s, c) else s.clients[c].pc == Grab ==> s.server == Wait && s.sem1 == 0
    ensures
      var t := AfterClient(s, c);
      && (Holding(t, c) ==> HolderInv(t, c))
      && (Holding(s, c) ==> t.sem0 == s.sem0 + if Holding(t, c) then 0 else 1)
      && (Holding(s, c) && !Holding(t, c) ==> t.server == Wait && t.sem1 == 0)
      && (!Holding(s, c) ==> (if Holding(t, c) then s.sem0 == t.sem0 + 1 else s.sem0 == t.sem0) && s.sem1 == t.sem1)
      && (!Holding(s, c) && s.clients[c].pc != Grab ==> !Holding(t, c))
  {
  }

  lemma ClientKeepsMutex(s: State, c: nat)
    requires MutexInv(s) && Enabled(s, ClientStep(c))
    ensures MutexInv(AfterClient(s, c))
  {
    var t := AfterClient(s, c);
    HolderSteps(s, c);
    forall d | d != c
      ensures Holding(t, d) <==> Holding(s, d)
      ensures Holding(t, d) ==> HolderInv(t, d)
    {
      OtherHolder(s, c, d);
    }
    hide HolderInv, AfterClient, Holding;
    if s.sem0 == 0 && !Holding(s, c) {
      var h: nat :| Holding(s, h);
      assert Holding(t, h);
    }
  }

  lemma OtherHolder(s: State, c: nat, d: nat)
    requires MutexInv(s) && Enabled(s, ClientStep(c)) && d != c
    ensures var t := AfterClient(s, c);
      (Holding(t, d) <==> Holding(s, d)) && (Holding(t, d) ==> HolderInv(t, d))
  {
    assert Holding(s, d) ==> HolderInv(s, d) && !Holding(s, c) && s.sem0 == 0;
  }

  lemma ServerKeepsMutex(s: State)
    requires MutexInv(s) && Enabled(s, ServerStep)
    ensures MutexInv(AfterServer(s))
  {
    var t := AfterServer(s);
    assert forall d :: Holding(t, d) <==> Holding(s, d);
    assert s.sem0 == 0;
    var c: nat :| Holding(s, c);
    assert HolderInv(s, c) && HolderInv(t, c);
  }

  // A client's history survives further answers, unless it still reads under the mutex.
  lemma HistoryFrame(s: State, t: State, c: nat)
    requires c in s.clients && c in t.clients && s.clients[c] == t.clients[c]
    requires s.order == t.order && s.db == t.db && s.answers <= t.answers
    requires s.answers == t.answers || !Holding(s, c) || s.clients[c].pc == Await
    requires ClientHistory(s, c)
    ensures ClientHistory(t, c)
  {
  }

  lemma ClientKeepsHistory(s: State, c: nat)
    requires MutexInv(s) && HistoryInv(s) && Enabled(s, ClientStep(c))
    ensures HistoryInv(AfterClient(s, c))
  {
    hide ClientHistory;
    var t := AfterClient(s, c);
    assert Holding(s, c) ==> HolderInv(s, c);
    OwnHistory(s, c);
    forall d | d in t.clients && d != c
      ensures ClientHistory(t, d)
    {
      HistoryFrame(s, t, d);
    }
  }

  lemma OwnHistory(s: State, c: nat)
    requires Enabled(s, ClientStep(c)) && ClientHistory(s, c)
    requires Holding(s, c) ==> HolderInv(s, c)
    requires s.answers != [] ==> s.text == s.answers[|s.answers| - 1]
    ensures ClientHistory(AfterClient(s, c), c)
  {
    hide Answer;
    var t := AfterClient(s, c);
    var r, r' := s.clients[c], t.clients[c];
    assert t.answers == s.answers && t.db == s.db && t.order == s.order && r'.word == r.word;
    match r.pc
    case Await => assert r'.answeredAt == |s.answers|;
    case Compare => assert r'.answeredAt == r.answeredAt && r'.comparedAt == r'.copiedAt == |s.answers|;
    case Copy => assert r'.answeredAt == r.answeredAt && r'.comparedAt == r.comparedAt && r'.copiedAt == |s.answers|;
    case _ =>
  }

  lemma ServerKeepsHistory(s: State)
    requires MutexInv(s) && HistoryInv(s) && Enabled(s, ServerStep)
    ensures HistoryInv(AfterServer(s))
  {
    hide ClientHistory;
    var t := AfterServer(s);
    assert s.sem0 == 0;
    var h: nat :| Holding(s, h);
    assert HolderInv(s, h) && s.clients[h].pc == Await;
    assert s.answers <= t.answers;
    forall c | c in t.clients
      ensures ClientHistory(t, c)
    {
      HistoryFrame(s, t, c);
    }
  }

  lemma LogFrame(s: State, t: State, c: nat)
    requires c in s.clients && c in t.clients && s.db == t.db && ClientLogged(s, c)
    requires PastAwait(s.clients[c]) == PastAwait(t.clients[c])
    requires s.clients[c].word == t.clients[c].word
    requires s.clients[c].calls == t.clients[c].calls
    requires s.clients[c].loggedAt == t.clients[c].loggedAt
    requires t.log == s.log || (|s.log| + 1 == |t.log| && t.log[..|s.log|] == s.log && t.log[|s.log|].client != c)
    ensures ClientLogged(t, c)
  {
  }

  // Passing the await puts the caller's lookup at the end of the log.
  lemma AwaitLogs(s: State, c: nat)
    requires Enabled(s, ClientStep(c)) && s.clients[c].pc == Await && ClientLogged(s, c)
    requires s.text == Answer(s.db, s.clients[c].word)
    ensures ClientLogged(AfterClient(s, c), c)
  {
    assert AfterClient(s, c).log[..|s.log|] == s.log;
  }

  lemma LoggedElsewhere(log: seq<Entry>, e: Entry, d: nat)
    requires d != e.client
    ensures Logged(log + [e], d) == Logged(log, d)
  {
    assert (log + [e])[..|log|] == log;
  }

  lemma ClientKeepsLog(s: State, c: nat)
    requires MutexInv(s) && LogInv(s) && Enabled(s, ClientStep(c))
    ensures LogInv(AfterClient(s, c))
  {
    hide ClientLogged;
    var t := AfterClient(s, c);
    if s.clients[c].pc == Await {
      assert Holding(s, c) && HolderInv(s, c);
      AwaitLogs(s, c);
      assert t.log[..|s.log|] == s.log;
    } else {
      LogFrame(s, t, c);
    }
    forall d | d in t.clients && d != c
      ensures ClientLogged(t, d)
    {
      LogFrame(s, t, d);
    }
    forall d | d !in t.clients
      ensures Logged(t.log, d) == 0
    {
      assert s.clients[c].pc == Await ==> t.log == s.log + [Entry(c, s.clients[c].word, s.text)];
      LoggedElsewhere(s.log, Entry(c, s.clients[c].word, s.text), d);
    }
  }

  lemma ServerKeepsLog(s: State)
    requires LogInv(s)
    ensures LogInv(AfterServer(s))
  {
    hide ClientLogged;
    var t := AfterServer(s);
    forall c | c in t.clients
      ensures ClientLogged(t, c)
    {
      LogFrame(s, t, c);
    }
  }

  lemma StepKeepsInv(s: State, a: Action)
    requires Inv(s)
    ensures Inv(Step(s, a))
  {
    if Enabled(s, a) {
      match a
      case Call(c, w) =>
        CallKeepsMutex(s, c, w);
        CallKeepsRecords(s, c, w);
      case ClientStep(c) =>
        ClientKeepsMutex(s, c);
        ClientKeepsHistory(s, c);
        ClientKeepsLog(s, c);
      case ServerStep =>
        ServerKeepsMutex(s);
        ServerKeepsHistory(s);
        ServerKeepsLog(s);
    }
  }

  lemma {:induction false} RunKeepsInv(s: State, acts: seq<Action>)
    requires Inv(s)
    ensures Inv(Run(s, acts))
    decreases |acts|
  {
    if acts != [] {
      StepKeepsInv(s, acts[0]);
      RunKeepsInv(Step(s, acts[0]), acts[1..]);
    }
  }
}
