// What every run of the rendezvous keeps, how long a granted request can take,
// and when the coded release-then-read order still behaves like an atomic dictionary.
module RendezvousResults {
  import opened Common
  import opened Rendezvous

  // The state after a schedule, from freshly set semaphores {1, 0} (shm_server.c:20)
  // and a record with arbitrary contents.
  function Reached(order: Order, db: map<string, string>, word: string, text: string, acts: seq<Action>): State {
    Run(Init(order, db, word, text), acts)
  }

  lemma ReachedInv(order: Order, db: map<string, string>, word: string, text: string, acts: seq<Action>)
    ensures Inv(Reached(order, db, word, text, acts))
  {
    RunKeepsInv(Init(order, db, word, text), acts);
  }

  // --- safety ------------------------------------------------------------------

  // Semaphore 0 and the lock holders always add up to 1.
  lemma MutualExclusion(order: Order, db: map<string, string>, word: string, text: string, acts: seq<Action>)
    ensures var s := Reached(order, db, word, text, acts); s.sem0 + |Holders(s)| == 1
  {
    var s := Reached(order, db, word, text, acts);
    ReachedInv(order, db, word, text, acts);
    if s.sem0 == 0 {
      var c: nat :| Holding(s, c);
      assert Holders(s) == {c};
    } else {
      assert Holders(s) == {};
    }
  }

  // c is at its await and the server has written nothing since c's alert.
  predicate Unanswered(s: State, c: nat) {
    Holding(s, c) && s.clients[c].pc == Await && |s.answers| == s.clients[c].alertedAt
  }

  // Semaphore 1 is 1 while the server works.  While it waits, the semaphore is 2 if the
  // holder has alerted it and not been answered since, and otherwise 0.  It is nonzero
  // only while the holder awaits, and back at 0 that holder has its answer.
  lemma SignalCounter(order: Order, db: map<string, string>, word: string, text: string, acts: seq<Action>)
    ensures
      var s := Reached(order, db, word, text, acts);
      && s.sem1 == (if s.server != Wait then 1 else if exists c: nat :: Unanswered(s, c) then 2 else 0)
      && (s.sem1 > 0 ==> exists c: nat :: Holding(s, c) && s.clients[c].pc == Await)
      && (s.sem1 == 0 ==> forall c: nat :: Holding(s, c) && s.clients[c].pc == Await ==>
            |s.answers| == s.clients[c].alertedAt + 1 && Answered(s))
  {
    var s := Reached(order, db, word, text, acts);
    ReachedInv(order, db, word, text, acts);
    if s.sem0 == 0 {
      var c: nat :| Holding(s, c);
      assert HolderInv(s, c);
      assert (exists d: nat :: Unanswered(s, d)) <==> Unanswered(s, c);
    }
  }

  // The server is off its wait only for the one holder, which is itself stopped
  // between alert and await and whose word is the one in the record.
  lemma ServerWorksForHolder(order: Order, db: map<string, string>, word: string, text: string, acts: seq<Action>)
    ensures
      var s := Reached(order, db, word, text, acts);
      s.server != Wait ==>
        exists c: nat :: Holders(s) == {c} && s.clients[c].pc == Await && s.clients[c].word == s.word &&
                    !Enabled(s, ClientStep(c))
  {
    var s := Reached(order, db, word, text, acts);
    ReachedInv(order, db, word, text, acts);
    if s.server != Wait {
      assert s.sem0 == 0;
      var c: nat :| Holding(s, c);
      assert HolderInv(s, c) && Holders(s) == {c};
    }
  }

  // A client that has passed its await and not yet released finds in the record
  // the answer to its own word.
  lemma AnswerIsOwn(order: Order, db: map<string, string>, word: string, text: string, acts: seq<Action>, c: nat)
    ensures
      var s := Reached(order, db, word, text, acts);
      Holding(s, c) && PastAwait(s.clients[c]) ==>
        s.word == s.clients[c].word && s.text == Answer(db, s.clients[c].word)
  {
    ReachedInv(order, db, word, text, acts);
    KeepsConstants(Init(order, db, word, text), acts);
    var s := Reached(order, db, word, text, acts);
    if Holding(s, c) {
      assert HolderInv(s, c);
    }
  }

  lemma {:induction false} KeepsConstants(s: State, acts: seq<Action>)
    ensures Run(s, acts).db == s.db && Run(s, acts).order == s.order
    decreases |acts|
  {
    if acts != [] {
      KeepsConstants(Step(s, acts[0]), acts[1..]);
    }
  }

  // Only the server writes the text and only a holder writes the word, so neither
  // changes under a holder that has its answer.
  lemma AnswerSurvivesStep(s: State, a: Action, c: nat)
    requires MutexInv(s) && Holding(s, c) && PastAwait(s.clients[c]) && a != ClientStep(c)
    ensures
      var t := Step(s, a);
      t.text == s.text && t.word == s.word && c in t.clients && t.clients[c] == s.clients[c] && t.order == s.order
  {
    assert HolderInv(s, c) && !Enabled(s, ServerStep);
    if a.ClientStep? && Enabled(s, a) {
      assert !Holding(s, a.who);
    }
  }

  // And it stays there, whatever the others do, until that client steps again.
  lemma {:induction false} AnswerIsStable(s: State, acts: seq<Action>, c: nat)
    requires Inv(s) && Holding(s, c) && PastAwait(s.clients[c]) && ClientStep(c) !in acts
    ensures
      var t := Run(s, acts);
      t.text == s.text && t.word == s.word && c in t.clients && t.clients[c] == s.clients[c]
    decreases |acts|
  {
    if acts != [] {
      assert acts[0] != ClientStep(c);
      AnswerSurvivesStep(s, acts[0], c);
      StepKeepsInv(s, acts[0]);
      AnswerIsStable(Step(s, acts[0]), acts[1..], c);
    }
  }

  // --- progress ----------------------------------------------------------------

  // While any call is unfinished, some process can move without a new call.
  lemma NeverStuck(order: Order, db: map<string, string>, word: string, text: string, acts: seq<Action>, c: nat)
    ensures
      var s := Reached(order, db, word, text, acts);
      c in s.clients && s.clients[c].pc != Returned ==>
        Enabled(s, ServerStep) || exists d: nat :: Enabled(s, ClientStep(d))
  {
    ReachedInv(order, db, word, text, acts);
    var s := Reached(order, db, word, text, acts);
    if c in s.clients && s.clients[c].pc != Returned && s.sem0 == 0 {
      var h: nat :| Holding(s, h);
      HolderOrServerMoves(s, h);
    } else if c in s.clients && s.clients[c].pc != Returned {
      assert !Holding(s, c);
      assert Enabled(s, ClientStep(c));
    }
  }

  lemma HolderOrServerMoves(s: State, c: nat)
    requires Inv(s) && Holding(s, c)
    ensures Enabled(s, ClientStep(c)) || Enabled(s, ServerStep)
  {
    assert HolderInv(s, c);
  }

  // How many operations of c and the server are left before c has released.
  function Rank(s: State, c: nat): nat
    requires c in s.clients
  {
    var reading := if s.order == ReadThenRelease then 2 else 0;
    match s.clients[c].pc
    case Write => 8 + reading
    case Alert => 7 + reading
    case Await =>
      (match s.server
       case Wait => (if s.sem1 == 2 then 6 else 2) + reading
       case Search => 5 + reading
       case Mark => 4 + reading
       case Notify => 3 + reading)
    case Compare => 3
    case Copy => 2
    case Release => 1
    case _ => 0
  }

  predicate Effective(s: State, a: Action, c: nat) {
    Enabled(s, a) && (a == ClientStep(c) || a == ServerStep)
  }

  // Operations of c and the server in a run.
  function EffectiveSteps(s: State, acts: seq<Action>, c: nat): nat
    decreases |acts|
  {
    if acts == [] then 0
    else (if Effective(s, acts[0], c) then 1 else 0) + EffectiveSteps(Step(s, acts[0]), acts[1..], c)
  }

  // Another client, while c holds the mutex, can do nothing that Rank looks at.
  lemma OthersLeaveRank(s: State, a: Action, c: nat)
    requires MutexInv(s) && Holding(s, c) && a != ClientStep(c) && a != ServerStep
    ensures
      var t := Step(s, a);
      c in t.clients && t.clients[c] == s.clients[c] && t.order == s.order && t.sem1 == s.sem1 && t.server == s.server
  {
    if a.ClientStep? && Enabled(s, a) {
      assert !Holding(s, a.who);
    }
  }

  // Other clients never touch the rank of the holder; its own and the server's
  // operations lower it.
  lemma RankDecreases(s: State, a: Action, c: nat)
    requires MutexInv(s) && Holding(s, c) && Holding(Step(s, a), c)
    ensures Rank(Step(s, a), c) + (if Effective(s, a, c) then 1 else 0) <= Rank(s, c)
  {
    if a != ClientStep(c) && a != ServerStep {
      OthersLeaveRank(s, a, c);
    } else {
      assert HolderInv(s, c);
    }
  }

  lemma RankPositive(s: State, c: nat)
    requires Inv(s) && Holding(s, c)
    ensures Rank(s, c) >= 1
  {
    assert HolderInv(s, c);
  }

  // Whatever the other clients do, a holder has released before it and the server
  // have taken Rank operations.
  lemma {:induction false} GrantedRequestFinishes(s: State, acts: seq<Action>, c: nat)
    requires Inv(s) && Holding(s, c) && EffectiveSteps(s, acts, c) >= Rank(s, c)
    ensures exists k :: 0 <= k <= |acts| && !Holding(Run(s, acts[..k]), c)
    decreases |acts|
  {
    hide MutexInv, HistoryInv, LogInv, Rank;
    RankPositive(s, c);
    var t := Step(s, acts[0]);
    StepKeepsInv(s, acts[0]);
    if !Holding(t, c) {
      assert acts[..1] == [acts[0]];
      assert Run(t, []) == t && [acts[0]][1..] == [];
      assert Run(s, acts[..1]) == t;
    } else {
      RankDecreases(s, acts[0], c);
      GrantedRequestFinishes(t, acts[1..], c);
      var k :| 0 <= k <= |acts[1..]| && !Holding(Run(t, acts[1..][..k]), c);
      assert acts[..k + 1][1..] == acts[1..][..k];
      assert Run(s, acts[..k + 1]) == Run(t, acts[1..][..k]);
    }
  }

  // In the coded order eight operations are enough after the grab.
  lemma EightOperationsSuffice(db: map<string, string>, word: string, text: string, before: seq<Action>, acts: seq<Action>, c: nat)
    requires
      var s := Reached(ReleaseThenRead, db, word, text, before);
      Holding(s, c) && EffectiveSteps(s, acts, c) >= 8
    ensures
      var s := Reached(ReleaseThenRead, db, word, text, before);
      exists k :: 0 <= k <= |acts| && !Holding(Run(s, acts[..k]), c)
  {
    ReachedInv(ReleaseThenRead, db, word, text, before);
    KeepsConstants(Init(ReleaseThenRead, db, word, text), before);
    var s := Reached(ReleaseThenRead, db, word, text, before);
    assert HolderInv(s, c);
    GrantedRequestFinishes(s, acts, c);
  }

  // --- linearization -----------------------------------------------------------

  // A step of the atomic dictionary: one client's lookup, answered at once.
  predicate AtomicStep(db: map<string, string>, log: seq<Entry>, log': seq<Entry>, c: nat, w: string) {
    log' == log + [Entry(c, w, Answer(db, w))]
  }

  // Every step of the protocol is a step of the atomic dictionary, taken inside the
  // caller's own pending call and with its own word, or changes nothing there.
  lemma StepRefinesAtomic(s: State, a: Action)
    requires Inv(s)
    ensures
      var t := Step(s, a);
      t.log == s.log ||
      (a.ClientStep? && a.who in s.clients && s.clients[a.who].pc == Await && PastAwait(t.clients[a.who]) &&
       AtomicStep(s.db, s.log, t.log, a.who, s.clients[a.who].word))
  {
    if a.ClientStep? && Enabled(s, a) && s.clients[a.who].pc == Await {
      assert Holding(s, a.who) && HolderInv(s, a.who);
    }
  }

  // Every returned call has exactly one atomic lookup, and it is the caller's latest.
  lemma OneLookupPerCall(order: Order, db: map<string, string>, word: string, text: string, acts: seq<Action>, c: nat)
    ensures
      var s := Reached(order, db, word, text, acts);
      c in s.clients && s.clients[c].pc == Returned ==>
        var r := s.clients[c];
        Logged(s.log, c) == r.calls && r.loggedAt < |s.log| &&
        s.log[r.loggedAt] == Entry(c, r.word, Answer(db, r.word)) &&
        (forall i :: r.loggedAt < i < |s.log| ==> s.log[i].client != c)
  {
    ReachedInv(order, db, word, text, acts);
    KeepsConstants(Init(order, db, word, text), acts);
    var s := Reached(order, db, word, text, acts);
    if c in s.clients {
      assert ClientLogged(s, c);
    }
  }

  // Real-time order: a call still short of its await is logged after every lookup
  // already in the log, so after every call that has returned.
  lemma {:induction false} LaterCallsLoggedLater(s: State, acts: seq<Action>, c: nat, n: nat)
    requires n <= |s.log|
    requires c in s.clients && PastAwait(s.clients[c]) ==> s.clients[c].loggedAt >= n
    ensures
      var t := Run(s, acts);
      s.log <= t.log && (c in t.clients && PastAwait(t.clients[c]) ==> t.clients[c].loggedAt >= n)
    decreases |acts|
  {
    if acts != [] {
      LaterCallsLoggedLater(Step(s, acts[0]), acts[1..], c, n);
    }
  }

  // Read-then-release: every returned call has the outcome of an atomic lookup.
  lemma ReadThenReleaseIsAtomic(db: map<string, string>, word: string, text: string, acts: seq<Action>, c: nat)
    ensures
      var s := Reached(ReadThenRelease, db, word, text, acts);
      c in s.clients && s.clients[c].pc == Returned ==>
        var own := Answer(db, s.clients[c].word);
        s.clients[c].outcome == Conclude(own, own)
  {
    ReachedInv(ReadThenRelease, db, word, text, acts);
    KeepsConstants(Init(ReadThenRelease, db, word, text), acts);
    var s := Reached(ReadThenRelease, db, word, text, acts);
    if c in s.clients {
      assert ClientHistory(s, c);
    }
  }

  // Release-then-read, as coded: the outcome comes from the answers that were the
  // latest when the client compared and when it copied.  It is the atomic outcome
  // exactly when those two answers agree with its own, in the part it looks at.
  lemma ReleaseThenReadOutcome(db: map<string, string>, word: string, text: string, acts: seq<Action>, c: nat)
    ensures
      var s := Reached(ReleaseThenRead, db, word, text, acts);
      c in s.clients && s.clients[c].pc == Returned ==>
        var r := s.clients[c];
        var own := Answer(db, r.word);
        && 1 <= r.answeredAt <= r.comparedAt <= r.copiedAt <= |s.answers|
        && s.answers[r.answeredAt - 1] == own
        && r.outcome == Conclude(s.answers[r.comparedAt - 1], s.answers[r.copiedAt - 1])
        && (r.outcome == Conclude(own, own) <==>
              (s.answers[r.comparedAt - 1] == NOT_FOUND_TEXT <==> own == NOT_FOUND_TEXT) &&
              (own != NOT_FOUND_TEXT ==> s.answers[r.copiedAt - 1] == own))
        && (r.copiedAt == r.answeredAt ==> r.outcome == Conclude(own, own))
  {
    ReachedInv(ReleaseThenRead, db, word, text, acts);
    KeepsConstants(Init(ReleaseThenRead, db, word, text), acts);
    var s := Reached(ReleaseThenRead, db, word, text, acts);
    if c in s.clients {
      assert ClientHistory(s, c);
    }
  }

  // --- the boundary of the coded order -------------------------------------------

  lemma {:induction false} RunConcat(s: State, a: seq<Action>, b: seq<Action>)
    ensures Run(s, a + b) == Run(Run(s, a), b)
    decreases |a|
  {
    if a == [] {
      assert a + b == b;
    } else {
      assert (a + b)[1..] == a[1..] + b;
      RunConcat(Step(s, a[0]), a[1..], b);
    }
  }

  lemma RunOne(s: State, a: Action, rest: seq<Action>)
    ensures Run(s, [a] + rest) == Run(Step(s, a), rest)
  {
    assert ([a] + rest)[1..] == rest;
  }

  // A call up to its await, the server's work for it, and its way out: one call
  // served with nobody else about.
  function Asking(c: nat, w: string): seq<Action> {
    [Call(c, w)] + ([ClientStep(c)] + ([ClientStep(c)] + ([ClientStep(c)] + [])))
  }

  function Serving(): seq<Action> {
    [ServerStep] + ([ServerStep] + ([ServerStep] + ([ServerStep] + [])))
  }

  function Leaving(c: nat): seq<Action> {
    [ClientStep(c)] + ([ClientStep(c)] + [])
  }

  function Served(c: nat, w: string): seq<Action> {
    Asking(c, w) + Serving() + Leaving(c)
  }

  predicate Idle(s: State) {
    s.order == ReleaseThenRead && s.sem0 == 1 && s.sem1 == 0 && s.server == Wait
  }

  // Everyone but c is where they were.
  ghost predicate OthersSame(s: State, t: State, c: nat) {
    (forall d :: d in s.clients && d != c ==> d in t.clients && t.clients[d] == s.clients[d]) &&
    (forall d :: d in t.clients ==> d in s.clients || d == c)
  }

  lemma AskingReachesAwait(s: State, c: nat, w: string)
    requires Idle(s) && Enabled(s, Call(c, w))
    ensures
      var t := Run(s, Asking(c, w));
      t.order == s.order && t.db == s.db && t.sem0 == 0 && t.sem1 == 2 && t.server == Wait && t.word == w &&
      c in t.clients && t.clients[c].pc == Await && t.clients[c].word == w && OthersSame(s, t, c)
  {
    var me := ClientStep(c);
    RunOne(s, Call(c, w), [me] + ([me] + ([me] + [])));
    var s1 := Step(s, Call(c, w));
    RunOne(s1, me, [me] + ([me] + []));
    var s2 := Step(s1, me);
    RunOne(s2, me, [me] + []);
    var s3 := Step(s2, me);
    RunOne(s3, me, []);
  }

  lemma ServingAnswers(s: State)
    requires s.sem1 == 2 && s.server == Wait
    ensures
      var t := Run(s, Serving());
      t == s.(sem1 := 0, text := Answer(s.db, s.word), answers := s.answers + [Answer(s.db, s.word)])
  {
    RunOne(s, ServerStep, [ServerStep] + ([ServerStep] + ([ServerStep] + [])));
    var s1 := Step(s, ServerStep);
    RunOne(s1, ServerStep, [ServerStep] + ([ServerStep] + []));
    var s2 := Step(s1, ServerStep);
    RunOne(s2, ServerStep, [ServerStep] + []);
    RunOne(Step(s2, ServerStep), ServerStep, []);
  }

  lemma LeavingReleases(s: State, c: nat)
    requires s.order == ReleaseThenRead && s.sem1 == 0 && c in s.clients && s.clients[c].pc == Await
    ensures
      var t := Run(s, Leaving(c));
      t.order == s.order && t.db == s.db && t.text == s.text &&
      t.sem0 == s.sem0 + 1 && t.sem1 == 0 && t.server == s.server &&
      c in t.clients && t.clients[c].pc == Compare && t.clients[c].word == s.clients[c].word && OthersSame(s, t, c)
  {
    RunOne(s, ClientStep(c), [ClientStep(c)] + []);
    RunOne(Step(s, ClientStep(c)), ClientStep(c), []);
  }

  lemma ServedLeavesAnswer(s: State, c: nat, w: string)
    requires Idle(s) && Enabled(s, Call(c, w))
    ensures
      var t := Run(s, Served(c, w));
      Idle(t) && t.db == s.db && t.text == Answer(s.db, w) &&
      c in t.clients && t.clients[c].pc == Compare && t.clients[c].word == w && OthersSame(s, t, c)
  {
    RunConcat(s, Asking(c, w) + Serving(), Leaving(c));
    RunConcat(s, Asking(c, w), Serving());
    AskingReachesAwait(s, c, w);
    ServingAnswers(Run(s, Asking(c, w)));
    LeavingReleases(Run(s, Asking(c, w) + Serving()), c);
  }

  // Two clients: client c is answered and releases; client d is answered; only then does c
  // look.  It returns d's answer as its own.
  function Overtaken(c: nat, w: string, d: nat, u: string): seq<Action> {
    Served(c, w) + Served(d, u) + [ClientStep(c)]
  }

  lemma StaleRead(db: map<string, string>, c: nat, w: string, d: nat, u: string)
    requires c != d && Answer(db, w) != NOT_FOUND_TEXT && Answer(db, u) == NOT_FOUND_TEXT
    ensures
      var s := Reached(ReleaseThenRead, db, "", "", Overtaken(c, w, d, u));
      c in s.clients && s.clients[c].pc == Returned && s.clients[c].word == w &&
      s.clients[c].outcome == NotFound && Conclude(Answer(db, w), Answer(db, w)) == Found(db[w])
  {
    var s0 := Init(ReleaseThenRead, db, "", "");
    var s1 := Run(s0, Served(c, w));
    var s2 := Run(s1, Served(d, u));
    ServedLeavesAnswer(s0, c, w);
    ServedLeavesAnswer(s1, d, u);
    RunConcat(s0, Served(c, w), Served(d, u));
    RunConcat(s0, Served(c, w) + Served(d, u), [ClientStep(c)]);
    RunOne(s2, ClientStep(c), []);
    assert [ClientStep(c)] + [] == [ClientStep(c)];
  }

  // A word longer than every key is in no dictionary.
  lemma {:induction false} UnknownWord(keys: set<string>) returns (u: string)
    ensures u !in keys && forall k :: k in keys ==> |k| < |u|
    decreases |keys|
  {
    if keys == {} {
      u := "a";
    } else {
      var k :| k in keys;
      var v := UnknownWord(keys - {k});
      u := v + k + "a";
      assert forall x :: x in keys ==> x == k || x in keys - {k};
    }
  }

  // Only these clients call.
  ghost predicate CallsFrom(acts: seq<Action>, ids: set<nat>) {
    forall i :: 0 <= i < |acts| && acts[i].Call? ==> acts[i].client in ids
  }

  predicate AtomicOutcome(s: State, c: nat)
    requires c in s.clients
  {
    s.clients[c].outcome == Conclude(Answer(s.db, s.clients[c].word), Answer(s.db, s.clients[c].word))
  }

  // Every returned call of every run of these clients has its atomic outcome.
  ghost predicate CodedOrderAtomic(db: map<string, string>, ids: set<nat>) {
    forall word: string, text: string, acts: seq<Action>, c: nat | CallsFrom(acts, ids) ::
      var s := Reached(ReleaseThenRead, db, word, text, acts);
      c in s.clients && s.clients[c].pc == Returned ==> AtomicOutcome(s, c)
  }

  lemma {:induction false} OnlyNotFoundAnswers(db: map<string, string>, s: State, acts: seq<Action>)
    requires forall w :: w in db ==> db[w] == NOT_FOUND_TEXT
    requires s.db == db && forall i :: 0 <= i < |s.answers| ==> s.answers[i] == NOT_FOUND_TEXT
    ensures forall i :: 0 <= i < |Run(s, acts).answers| ==> Run(s, acts).answers[i] == NOT_FOUND_TEXT
    decreases |acts|
  {
    if acts != [] {
      OnlyNotFoundAnswers(db, Step(s, acts[0]), acts[1..]);
    }
  }

  // With a single client nobody answers after it has been answered.
  ghost predicate Alone(s: State, ids: set<nat>) {
    s.clients.Keys <= ids && forall c :: c in s.clients && PastAwait(s.clients[c]) ==> s.clients[c].answeredAt == |s.answers|
  }

  lemma StepKeepsAlone(s: State, a: Action, ids: set<nat>)
    requires MutexInv(s) && Alone(s, ids) && |ids| <= 1 && s.order == ReleaseThenRead
    requires a.Call? ==> a.client in ids
    ensures Alone(Step(s, a), ids)
  {
    hide HolderInv;
    forall c, d | c in ids && d in ids
      ensures c == d
    {
      SubsetSize({c, d}, ids);
    }
    if s.server != Wait {
      assert s.sem0 == 0;
      var h: nat :| Holding(s, h);
      WorkMeansAwait(s, h);
    }
  }

  // The server is off its wait, or can leave it, only while the holder awaits.
  lemma WorkMeansAwait(s: State, h: nat)
    requires MutexInv(s) && Holding(s, h) && (s.server != Wait || s.sem1 > 0)
    ensures s.clients[h].pc == Await
  {
    assert HolderInv(s, h);
  }

  lemma {:induction false} RunKeepsAlone(s: State, acts: seq<Action>, ids: set<nat>)
    requires Inv(s) && Alone(s, ids) && |ids| <= 1 && s.order == ReleaseThenRead && CallsFrom(acts, ids)
    ensures Alone(Run(s, acts), ids)
    decreases |acts|
  {
    hide Inv, Alone;
    if acts != [] {
      assert acts[0].Call? ==> acts[0].client in ids;
      assert forall i :: 0 <= i < |acts[1..]| ==> acts[1..][i] == acts[i + 1];
      assert MutexInv(s) by { InvHasMutex(s); }
      StepKeepsAlone(s, acts[0], ids);
      StepKeepsInv(s, acts[0]);
      RunKeepsAlone(Step(s, acts[0]), acts[1..], ids);
    }
  }

  lemma InitHasInv(order: Order, db: map<string, string>, word: string, text: string)
    ensures Inv(Init(order, db, word, text))
  {
  }

  lemma InvHasMutex(s: State)
    requires Inv(s)
    ensures MutexInv(s)
  {
  }

  // The coded order is an atomic dictionary exactly when there is at most one client, or
  // the dictionary never has anything to say: two clients and one text other than "XXXX"
  // are enough for a run that goes wrong.
  lemma CodedOrderBoundary(db: map<string, string>, ids: set<nat>)
    ensures CodedOrderAtomic(db, ids) <==> |ids| <= 1 || forall w :: w in db ==> db[w] == NOT_FOUND_TEXT
  {
    if |ids| > 1 && exists w :: w in db && db[w] != NOT_FOUND_TEXT {
      var w :| w in db && db[w] != NOT_FOUND_TEXT;
      var c :| c in ids;
      assert ids - {c} != {} by {
        if ids <= {c} {
          SubsetSize(ids, {c});
        }
      }
      var d :| d in ids - {c};
      GoesWrong(db, ids, c, w, d);
    } else {
      forall word: string, text: string, acts: seq<Action>, c: nat |
        CallsFrom(acts, ids) &&
        var s := Reached(ReleaseThenRead, db, word, text, acts); c in s.clients && s.clients[c].pc == Returned
        ensures AtomicOutcome(Reached(ReleaseThenRead, db, word, text, acts), c)
      {
        GoesRight(db, ids, word, text, acts, c);
      }
    }
  }

  lemma GoesWrong(db: map<string, string>, ids: set<nat>, c: nat, w: string, d: nat)
    requires c in ids && d in ids && c != d && w in db && db[w] != NOT_FOUND_TEXT
    ensures !CodedOrderAtomic(db, ids)
  {
    hide Run, Overtaken;
    var u := UnknownWord(db.Keys);
    StaleRead(db, c, w, d, u);
    KeepsConstants(Init(ReleaseThenRead, db, "", ""), Overtaken(c, w, d, u));
    OvertakenCalls(c, w, d, u, ids);
  }

  lemma OvertakenCalls(c: nat, w: string, d: nat, u: string, ids: set<nat>)
    requires c in ids && d in ids
    ensures CallsFrom(Overtaken(c, w, d, u), ids)
  {
    assert CallsFrom(Served(c, w), ids) && CallsFrom(Served(d, u), ids);
    hide Served;
  }

  lemma GoesRight(db: map<string, string>, ids: set<nat>, word: string, text: string, acts: seq<Action>, c: nat)
    requires CallsFrom(acts, ids) && (|ids| <= 1 || forall w :: w in db ==> db[w] == NOT_FOUND_TEXT)
    requires var s := Reached(ReleaseThenRead, db, word, text, acts); c in s.clients && s.clients[c].pc == Returned
    ensures AtomicOutcome(Reached(ReleaseThenRead, db, word, text, acts), c)
  {
    hide Run;
    var s0 := Init(ReleaseThenRead, db, word, text);
    KeepsConstants(s0, acts);
    ReleaseThenReadOutcome(db, word, text, acts, c);
    if |ids| <= 1 {
      InitHasInv(ReleaseThenRead, db, word, text);
      RunKeepsAlone(s0, acts, ids);
    } else {
      OnlyNotFoundAnswers(db, s0, acts);
    }
  }

  // The two program counters alone do not fix semaphore 1: with the holder at its
  // await and the server at its wait it is 2 in one run and 0 in another.
  lemma CountersDoNotFixSignal(db: map<string, string>, w: string)
    ensures
      var before := Reached(ReleaseThenRead, db, "", "", Asking(0, w));
      var after := Reached(ReleaseThenRead, db, "", "", Asking(0, w) + Serving());
      0 in before.clients && 0 in after.clients &&
      before.clients[0].pc == after.clients[0].pc == Await && before.server == after.server == Wait &&
      before.sem1 == 2 && after.sem1 == 0
  {
    var s := Init(ReleaseThenRead, db, "", "");
    AskingReachesAwait(s, 0, w);
    RunConcat(s, Asking(0, w), Serving());
    ServingAnswers(Run(s, Asking(0, w)));
  }
}
