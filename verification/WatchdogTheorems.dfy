/** What holds after every sequence of watchdog runs and crashes. */
module WatchdogTheorems {
  import opened Optional
  import opened WatchdogTypes
  import opened WatchdogClassify
  import opened WatchdogIncidents
  import opened WatchdogAccounting
  import opened WatchdogDispatch
  import opened WatchdogSafety
  import opened WatchdogProtocol

  /** The worlds passed through by a sequence of turns, from an empty output root. */
  ghost predicate Trace(ws: seq<World>, ts: seq<Turn>) {
    && |ws| == |ts| + 1
    && ws[0] == EMPTY_WORLD
    && forall i :: 0 <= i < |ts| ==> TurnAt(ws, ts, i)
  }

  ghost predicate TurnAt(ws: seq<World>, ts: seq<Turn>, i: nat)
    requires i < |ts| < |ws|
  {
    Possible(ws[i], ts[i]) && ws[i + 1] == Play(ws[i], ts[i])
  }

  /** What a trace says about one of its turns. */
  lemma TurnOf(ws: seq<World>, ts: seq<Turn>, i: nat)
    requires Trace(ws, ts) && i < |ts|
    ensures Possible(ws[i], ts[i]) && ws[i + 1] == Play(ws[i], ts[i])
  {
    assert TurnAt(ws, ts, i);
  }

  ghost predicate Linked(w: World) {
    if w.commits == [] then w.state == EMPTY_STATE else w.state == w.commits[|w.commits| - 1]
  }

  /** A call was made for a message of the state last committed before it, which stood behind it. */
  ghost predicate Backed(commits: seq<State>, c: Call) {
    && 1 <= c.epoch <= |commits|
    && CurrentIn(commits[c.epoch - 1], c.message)
    && (c.message.Alert? ==> c.message.event in commits[c.epoch - 1].outbox)
  }

  ghost predicate OutboxOnDisk(w: World) {
    forall i :: 0 <= i < |w.commits| ==> forall e :: e in w.commits[i].outbox ==> e in w.events
  }

  ghost predicate StateOk(s: State) {
    OneEntryPerRule(s.active) && Generated(s.active) && PollConsistent(s.poll)
  }

  ghost predicate Safe(w: World) {
    && Linked(w)
    && StateOk(w.state)
    && (forall i :: 0 <= i < |w.commits| ==> StateOk(w.commits[i]))
    && OutboxOnDisk(w)
    && Sound(w.disk, w.calls)
    && (forall i :: 0 <= i < |w.calls| ==> Backed(w.commits, w.calls[i]))
  }

  lemma {:induction false} CandidatesOfMembers(s: State, config: Config, events: seq<Event>, c: Candidate)
    requires c in CandidatesOf(s, config, events)
    ensures c == CandidateOf(s, config, c.message) && c.message.Alert? && c.message.event in events
  {
    var front, last := events[..|events| - 1], events[|events| - 1];
    assert events == front + [last];
    if c in CandidatesOf(s, config, front) {
      CandidatesOfMembers(s, config, front, c);
    }
  }

  /** Only messages the committed state stands behind are planned as current. */
  lemma PlanMembers(w: World, t: Turn, c: Candidate)
    requires Arranges(t.arrange)
    requires Plan(w, t).Some? && c in Plan(w, t).value
    ensures c.current == CurrentIn(w.state, c.message)
    ensures c.message.Alert? ==> c.message.event in w.state.outbox
  {
    var arranged := t.arrange(w.state.outbox);
    var alerts := CandidatesOf(w.state, t.config.value, arranged);
    if c in alerts {
      CandidatesOfMembers(w.state, t.config.value, arranged, c);
      assert c.message.event in multiset(arranged);
      assert c.message.event in multiset(w.state.outbox);
    }
  }

  /** A dispatch only adds calls that the last committed state backs, and keeps the receipts sound. */
  lemma DispatchIsSafe(w: World, t: Turn, fuel: nat)
    requires Arranges(t.arrange)
    requires w.commits != [] && w.state == w.commits[|w.commits| - 1]
    requires Sound(w.disk, w.calls)
    requires forall i :: 0 <= i < |w.calls| ==> Backed(w.commits, w.calls[i])
    ensures var after := DispatchTurn(w, t, fuel);
      && after == w.(disk := after.disk, calls := after.calls)
      && Sound(after.disk, after.calls)
      && (forall i :: 0 <= i < |after.calls| ==> Backed(w.commits, after.calls[i]))
      && |w.calls| <= |after.calls| <= |w.calls| + MAX_SENDS_PER_RUN
  {
    if Plan(w, t).Some? {
      var candidates, start := Plan(w, t).value, Run(w.disk, w.calls, 0, fuel);
      CarryAllIsSound(start, candidates, t.now, |w.commits|, t.sender);
      CarryAllCalls(start, candidates, t.now, |w.commits|, t.sender);
      var after := DispatchTurn(w, t, fuel);
      forall i | |w.calls| <= i < |after.calls| ensures Backed(w.commits, after.calls[i]) {
        PlanMembers(w, t, Candidate(after.calls[i].message, true, true));
      }
    }
  }

  /** The state a poll commits is well formed and its outbox is on disk by then. */
  lemma NextStateIsOk(w: World, t: Turn)
    requires Safe(w) && Possible(w, t)
    ensures var o := ObservedBy(w.state, t);
      var written, next := NewEvents(w.state, o, t.listing), NextState(w.state, o, t.listing);
      && StateOk(next)
      && next.poll.pollAt == Some(t.now)
      && (forall e :: e in next.outbox ==> e in w.state.outbox || e in written)
  {
    var o := ObservedBy(w.state, t);
    var i := Input(t.now, t.session, t.report, t.probeError, w.state.poll);
    IncidentsWellRaised(i);
    PollStaysConsistent(i);
    OneEntryPerRuleKept(w.state, o, t.listing);
    NextGenerations(w.state, o, t.listing);
  }

  lemma AfterCommitIsSafe(w: World, t: Turn, fuel: nat)
    requires Safe(w) && w.commits != []
    requires Arranges(t.arrange)
    ensures var after := AfterCommit(w, t, fuel);
      && Safe(after)
      && after.commits == w.commits && after.state == w.state
      && |w.calls| <= |after.calls| <= |w.calls| + MAX_SENDS_PER_RUN
  {
    var day := DateOf(t.now);
    if day in w.selfChecks {
      DispatchIsSafe(w, t, fuel);
    } else if fuel > 0 {
      DispatchIsSafe(w.(selfChecks := w.selfChecks[day := t.now]), t, fuel - 1);
    }
  }

  lemma CommittedIsSafe(w: World, written: seq<Event>, next: State)
    requires Safe(w) && StateOk(next)
    requires forall e :: e in next.outbox ==> e in w.state.outbox || e in written
    ensures Safe(Committed(w, written, next))
  {
    var after := Committed(w, written, next);
    assert written[..|written|] == written;
    forall e | e in next.outbox ensures e in after.events {
      assert e in w.state.outbox ==> w.commits != [] && e in w.commits[|w.commits| - 1].outbox;
    }
    forall i | 0 <= i < |after.calls| ensures Backed(after.commits, after.calls[i]) {
      assert Backed(w.commits, w.calls[i]);
    }
  }

  lemma PublishIsSafe(w: World, t: Turn, written: seq<Event>, next: State)
    requires Safe(w) && StateOk(next)
    requires Arranges(t.arrange)
    requires forall e :: e in next.outbox ==> e in w.state.outbox || e in written
    ensures var after := Publish(w, t, written, next);
      && Safe(after)
      && |w.calls| <= |after.calls| <= |w.calls| + MAX_SENDS_PER_RUN
      && (|| (after.commits == w.commits && after.state == w.state)
          || (after.commits == w.commits + [next] && after.state == next))
  {
    if t.fuel > |written| {
      CommittedIsSafe(w, written, next);
      AfterCommitIsSafe(Committed(w, written, next), t, t.fuel - |written| - 1);
    }
  }

  /** One turn, wherever it stops: safety is kept, the sender is called at most three times, and the
      state is the old one or the one the poll computed. */
  lemma PlayIsSafe(w: World, t: Turn)
    requires Safe(w) && Possible(w, t)
    ensures var after, next := Play(w, t), NextState(w.state, ObservedBy(w.state, t), t.listing);
      && Safe(after)
      && |w.calls| <= |after.calls| <= |w.calls| + MAX_SENDS_PER_RUN
      && (|| (after.commits == w.commits && after.state == w.state)
          || (after.commits == w.commits + [next] && after.state == next))
  {
    NextStateIsOk(w, t);
    var o := ObservedBy(w.state, t);
    PublishIsSafe(w, t, NewEvents(w.state, o, t.listing), NextState(w.state, o, t.listing));
  }

  lemma EmptyIsSafe()
    ensures Safe(EMPTY_WORLD)
  {
    EmptyIsSound();
  }

  lemma SafetyStays(ws: seq<World>, ts: seq<Turn>, k: nat)
    requires Trace(ws, ts) && k < |ts| && Safe(ws[k])
    ensures Safe(ws[k + 1])
  {
    TurnOf(ws, ts, k);
    PlayIsSafe(ws[k], ts[k]);
  }

  /** Safety after every sequence of runs and crashes. */
  lemma {:induction false} TraceIsSafe(ws: seq<World>, ts: seq<Turn>, n: nat)
    requires Trace(ws, ts) && n < |ws|
    ensures Safe(ws[n])
  {
    if n == 0 {
      EmptyIsSafe();
    } else {
      TraceIsSafe(ws, ts, n - 1);
      SafetyStays(ws, ts, n - 1);
    }
  }

  /** Whatever a turn does to receipts, pointers and calls, one candidate loop did it. */
  lemma PlayCarries(w: World, t: Turn) returns (candidates: seq<Candidate>, epoch: nat, fuel: nat)
    requires Possible(w, t)
    ensures var run := CarryAll(Run(w.disk, w.calls, 0, fuel), candidates, t.now, epoch, t.sender);
      Play(w, t).disk == run.disk && Play(w, t).calls == run.calls
  {
    var o := ObservedBy(w.state, t);
    candidates, epoch, fuel :=
      PublishCarries(w, t, NewEvents(w.state, o, t.listing), NextState(w.state, o, t.listing));
  }

  lemma PublishCarries(w: World, t: Turn, written: seq<Event>, next: State)
    returns (candidates: seq<Candidate>, epoch: nat, fuel: nat)
    ensures var run := CarryAll(Run(w.disk, w.calls, 0, fuel), candidates, t.now, epoch, t.sender);
      Publish(w, t, written, next).disk == run.disk && Publish(w, t, written, next).calls == run.calls
  {
    candidates, epoch, fuel := [], 0, 0;
    if t.fuel > |written| {
      candidates, epoch, fuel := AfterCommitCarries(Committed(w, written, next), t, t.fuel - |written| - 1);
    }
  }

  lemma AfterCommitCarries(w: World, t: Turn, left: nat) returns (candidates: seq<Candidate>, epoch: nat, fuel: nat)
    ensures var run := CarryAll(Run(w.disk, w.calls, 0, fuel), candidates, t.now, epoch, t.sender);
      AfterCommit(w, t, left).disk == run.disk && AfterCommit(w, t, left).calls == run.calls
  {
    candidates, epoch, fuel := [], |w.commits|, 0;
    var day := DateOf(t.now);
    if day in w.selfChecks || left > 0 {
      var checked := if day in w.selfChecks then w else w.(selfChecks := w.selfChecks[day := t.now]);
      if Plan(checked, t).Some? {
        candidates, fuel := Plan(checked, t).value, if day in w.selfChecks then left else left - 1;
      }
    }
  }

  lemma PlayKeepsDoubt(w: World, t: Turn, m: Message)
    requires Possible(w, t) && Sound(w.disk, w.calls) && InDoubt(w.disk, w.calls, m)
    ensures var after := Play(w, t); InDoubt(after.disk, after.calls, m) && NoCallSince(w.calls, after.calls, m)
  {
    var candidates, epoch, fuel := PlayCarries(w, t);
    CarryAllKeepsDoubt(Run(w.disk, w.calls, 0, fuel), candidates, t.now, epoch, t.sender, m);
  }

  lemma PlayKeepsFinalReceipts(w: World, t: Turn, m: Message)
    requires Possible(w, t) && m in w.disk.receipts && w.disk.receipts[m].status.Final()
    ensures var d := Play(w, t).disk; m in d.receipts && d.receipts[m] == w.disk.receipts[m]
  {
    var candidates, epoch, fuel := PlayCarries(w, t);
    FinalReceiptsStay(Run(w.disk, w.calls, 0, fuel), candidates, t.now, epoch, t.sender, m);
  }

  lemma PlayKeepsReadable(w: World, t: Turn)
    requires Possible(w, t) && AllReadable(w.disk) && EvidencedSender(t.sender)
    ensures AllReadable(Play(w, t).disk)
  {
    var candidates, epoch, fuel := PlayCarries(w, t);
    ReceiptsStayReadable(Run(w.disk, w.calls, 0, fuel), candidates, t.now, epoch, t.sender);
  }

  /** Quarantine: once a message is in doubt it stays in doubt, holds the pointer of its subject, and no
      later run calls the sender for that subject. */
  lemma {:induction false} DoubtIsForever(ws: seq<World>, ts: seq<Turn>, n: nat, k: nat, m: Message)
    requires Trace(ws, ts) && n <= k < |ws| && InDoubt(ws[n].disk, ws[n].calls, m)
    ensures InDoubt(ws[k].disk, ws[k].calls, m) && Quarantined(ws[k].disk, m)
    ensures NoCallSince(ws[n].calls, ws[k].calls, m)
    decreases k
  {
    if n < k {
      DoubtIsForever(ws, ts, n, k - 1, m);
      DoubtStays(ws, ts, k - 1, m);
      NoCallChain(ws[n].calls, ws[k - 1].calls, ws[k].calls, m);
    }
    DoubtHoldsThePointer(ws, ts, k, m);
  }

  lemma DoubtStays(ws: seq<World>, ts: seq<Turn>, k: nat, m: Message)
    requires Trace(ws, ts) && k < |ts| && InDoubt(ws[k].disk, ws[k].calls, m)
    ensures InDoubt(ws[k + 1].disk, ws[k + 1].calls, m) && NoCallSince(ws[k].calls, ws[k + 1].calls, m)
  {
    TurnOf(ws, ts, k);
    TraceIsSafe(ws, ts, k);
    PlayKeepsDoubt(ws[k], ts[k], m);
  }

  lemma DoubtHoldsThePointer(ws: seq<World>, ts: seq<Turn>, k: nat, m: Message)
    requires Trace(ws, ts) && k < |ws| && InDoubt(ws[k].disk, ws[k].calls, m)
    ensures Quarantined(ws[k].disk, m)
  {
    TraceIsSafe(ws, ts, k);
  }

  lemma NoCallChain(a: seq<Call>, b: seq<Call>, c: seq<Call>, m: Message)
    requires NoCallSince(a, b, m) && NoCallSince(b, c, m)
    ensures NoCallSince(a, c, m)
  {
  }

  lemma {:induction false} LastOfIs(calls: seq<Call>, m: Message, i: nat)
    requires LastOf(calls, m.SubjectOf()) == Some(m) && i < |calls| && calls[i].message.SubjectOf() == m.SubjectOf()
    ensures exists j :: i <= j < |calls| && calls[j].message == m
  {
    var n := |calls| - 1;
    if calls[n].message.SubjectOf() != m.SubjectOf() {
      LastOfIs(calls[..n], m, i);
      var j :| i <= j < n && calls[..n][j].message == m;
      assert calls[j].message == m;
    }
  }

  /** Two ways to be in doubt that the call alone shows: it did not return an outcome, or it returned Unknown. */
  lemma UncertainCallIsInDoubt(d: Disk, calls: seq<Call>, i: nat)
    requires Sound(d, calls) && i < |calls| && calls[i].reply.Uncertain()
    ensures InDoubt(d, calls, calls[i].message)
  {
    var m, h := calls[i].message, CallsFor(calls, calls[i].message);
    assert Recorded(d, calls, m);
    CallIndex(calls, i);
    var a :| 0 <= a < |h| && h[a] == calls[i];
    MatchedDoubt(m, h, d.receipts[m], a);
  }

  lemma MatchedDoubt(m: Message, h: seq<Call>, r: Receipt, a: nat)
    requires Matches(m, h, r) && a < |h| && h[a].reply.Uncertain()
    ensures (r.status == InFlight || r.status == Unknown) && |h| == r.attempts
  {
    if r.status == InFlight || r.status == Unknown {
      forall i | 0 <= i < r.attempts - 1 ensures h[i].reply.ProvenUnsent() {
        assert h[..r.attempts - 1][i] == h[i];
      }
    }
  }

  /** A call that returned Unknown, raised or was cut short is the last call of its subject, over all later
      runs, and its pointer and receipt still say so. */
  lemma UncertainCallIsLastOfItsSubject(ws: seq<World>, ts: seq<Turn>, n: nat, i: nat)
    requires Trace(ws, ts) && n < |ws| && i < |ws[n].calls|
    requires ws[n].calls[i].reply.Uncertain()
    ensures Quarantined(ws[n].disk, ws[n].calls[i].message)
    ensures forall j :: i < j < |ws[n].calls| ==>
      ws[n].calls[j].message.SubjectOf() != ws[n].calls[i].message.SubjectOf()
  {
    TraceIsSafe(ws, ts, n);
    var calls := ws[n].calls;
    var m := calls[i].message;
    UncertainCallIsInDoubt(ws[n].disk, calls, i);
    forall j | i < j < |calls| ensures calls[j].message.SubjectOf() != m.SubjectOf() {
      if calls[j].message.SubjectOf() == m.SubjectOf() {
        LastOfIs(calls, m, j);
        var k :| j <= k < |calls| && calls[k].message == m;
        EarlierCallOfSound(ws[n].disk, calls, i, k);
      }
    }
  }

  predicate FinalReceipt(d: Disk, m: Message, r: Receipt) {
    m in d.receipts && d.receipts[m] == r && r.status.Final()
  }

  lemma FinalReceiptStays(ws: seq<World>, ts: seq<Turn>, k: nat, m: Message, r: Receipt)
    requires Trace(ws, ts) && k < |ts| && FinalReceipt(ws[k].disk, m, r)
    ensures FinalReceipt(ws[k + 1].disk, m, r)
  {
    TurnOf(ws, ts, k);
    PlayKeepsFinalReceipts(ws[k], ts[k], m);
  }

  /** A final receipt is never rewritten, by whatever run. */
  lemma {:induction false} FinalReceiptsAreForever(ws: seq<World>, ts: seq<Turn>, n: nat, k: nat, m: Message)
    requires Trace(ws, ts) && n <= k < |ws| && m in ws[n].disk.receipts && ws[n].disk.receipts[m].status.Final()
    ensures FinalReceipt(ws[k].disk, m, ws[n].disk.receipts[m])
    decreases k
  {
    if n < k {
      FinalReceiptsAreForever(ws, ts, n, k - 1, m);
      FinalReceiptStays(ws, ts, k - 1, m, ws[n].disk.receipts[m]);
    }
  }

  lemma ReadabilityStays(ws: seq<World>, ts: seq<Turn>, k: nat)
    requires Trace(ws, ts) && k < |ts| && AllReadable(ws[k].disk) && EvidencedSender(ts[k].sender)
    ensures AllReadable(ws[k + 1].disk)
  {
    TurnOf(ws, ts, k);
    PlayKeepsReadable(ws[k], ts[k]);
  }

  /** If every sender supplies its evidence, every receipt of every trace can be read back. */
  lemma {:induction false} TraceReceiptsAreReadable(ws: seq<World>, ts: seq<Turn>, n: nat)
    requires Trace(ws, ts) && n < |ws| && forall i :: 0 <= i < n ==> EvidencedSender(ts[i].sender)
    ensures AllReadable(ws[n].disk)
  {
    if n > 0 {
      TraceReceiptsAreReadable(ws, ts, n - 1);
      ReadabilityStays(ws, ts, n - 1);
    }
  }

  lemma {:induction false} EarlierCallIndex(calls: seq<Call>, i: nat, j: nat)
    requires i < j < |calls| && calls[i].message == calls[j].message
    ensures var h := CallsFor(calls, calls[i].message); exists a :: 0 <= a < |h| - 1 && h[a] == calls[i]
  {
    var m, front := calls[i].message, calls[..|calls| - 1];
    if j < |calls| - 1 {
      EarlierCallIndex(front, i, j);
      var a :| 0 <= a < |CallsFor(front, m)| - 1 && CallsFor(front, m)[a] == calls[i];
      assert CallsFor(calls, m)[a] == calls[i];
    } else {
      CallIndex(front, i);
      var a :| 0 <= a < |CallsFor(front, m)| && CallsFor(front, m)[a] == calls[i];
      assert CallsFor(calls, m)[a] == calls[i];
    }
  }

  lemma {:induction false} CallIndex(calls: seq<Call>, i: nat)
    requires i < |calls|
    ensures exists a :: 0 <= a < |CallsFor(calls, calls[i].message)| && CallsFor(calls, calls[i].message)[a] == calls[i]
  {
    var m, front := calls[i].message, calls[..|calls| - 1];
    if i < |calls| - 1 {
      CallIndex(front, i);
      var a :| 0 <= a < |CallsFor(front, m)| && CallsFor(front, m)[a] == calls[i];
      assert CallsFor(calls, m)[a] == calls[i];
    } else {
      assert CallsFor(calls, m)[|CallsFor(front, m)|] == calls[i];
    }
  }

  /** At most once: a message is handed to the sender at most three times over all runs, each attempt
      inside its fifteen minutes and after the back-off of the one before. */
  lemma MessageIsTriedAtMostThrice(ws: seq<World>, ts: seq<Turn>, n: nat, m: Message)
    requires Trace(ws, ts) && n < |ws|
    ensures |CallsFor(ws[n].calls, m)| <= MAX_ATTEMPTS
    ensures Timed(m, CallsFor(ws[n].calls, m))
  {
    TraceIsSafe(ws, ts, n);
    assert Recorded(ws[n].disk, ws[n].calls, m);
  }

  lemma EarlierOfMatched(m: Message, h: seq<Call>, r: Receipt, a: nat)
    requires Matches(m, h, r) && a + 1 < |h|
    ensures h[a].reply.ProvenUnsent()
  {
    assert r.status == InFlight || r.status == Unknown ==> h[..r.attempts - 1][a] == h[a];
  }

  /** Of two calls for one message the earlier provably sent nothing, so at most one call per message
      can ever have transmitted. */
  lemma EarlierCallProvablySentNothing(ws: seq<World>, ts: seq<Turn>, n: nat, i: nat, j: nat)
    requires Trace(ws, ts) && n < |ws|
    requires i < j < |ws[n].calls| && ws[n].calls[i].message == ws[n].calls[j].message
    ensures ws[n].calls[i].reply.ProvenUnsent()
  {
    TraceIsSafe(ws, ts, n);
    EarlierCallOfSound(ws[n].disk, ws[n].calls, i, j);
  }

  lemma EarlierCallOfSound(d: Disk, calls: seq<Call>, i: nat, j: nat)
    requires Sound(d, calls)
    requires i < j < |calls| && calls[i].message == calls[j].message
    ensures calls[i].reply.ProvenUnsent()
  {
    var m, h := calls[i].message, CallsFor(calls, calls[i].message);
    assert Recorded(d, calls, m);
    EarlierCallIndex(calls, i, j);
    var a :| 0 <= a < |h| - 1 && h[a] == calls[i];
    EarlierOfMatched(m, h, d.receipts[m], a);
  }

  /** A recovery is only sent while neither its key nor, outside `capability`, its rule is active in
      the state last committed before the call. */
  lemma RecoveryIsSentOnlyWhileInactive(ws: seq<World>, ts: seq<Turn>, n: nat, i: nat)
    requires Trace(ws, ts) && n < |ws| && i < |ws[n].calls|
    requires ws[n].calls[i].message.Alert? && ws[n].calls[i].message.event.action == Recovery
    ensures var c := ws[n].calls[i];
      && 1 <= c.epoch <= |ws[n].commits|
      && var s, key := ws[n].commits[c.epoch - 1], c.message.event.key;
         key !in s.active && (key.rule != Capability ==> forall k :: k in s.active ==> k.rule != key.rule)
  {
    TraceIsSafe(ws, ts, n);
    assert Backed(ws[n].commits, ws[n].calls[i]);
  }

  /** Every event any committed outbox ever referred to is on disk, so building the candidate list
      never fails on a missing event. */
  lemma CommittedEventsAreOnDisk(ws: seq<World>, ts: seq<Turn>, n: nat, i: nat, e: Event)
    requires Trace(ws, ts) && n < |ws| && i < |ws[n].commits| && e in ws[n].commits[i].outbox
    ensures e in ws[n].events
  {
    TraceIsSafe(ws, ts, n);
  }

  /** In every committed state of every run, a rule other than `capability` has one entry at most, and
      every key active before a commit is accounted for by it. */
  lemma CommitsAccountForEveryKey(ws: seq<World>, ts: seq<Turn>, n: nat, key: Key)
    requires Trace(ws, ts) && n < |ts| && key in ws[n].state.active
    requires ws[n + 1].commits != ws[n].commits
    ensures OneEntryPerRule(ws[n + 1].state.active)
    ensures TurnAt(ws, ts, n) && var o := ObservedBy(ws[n].state, ts[n]);
      var events, next := NewEvents(ws[n].state, o, ts[n].listing), ws[n + 1].state;
      || key in next.active
      || (key.rule != Capability && |OfRule(events, key.rule)| == 1 &&
          OfRule(events, key.rule)[0].action == Changed && OfRule(events, key.rule)[0].key in next.active)
      || (ResolvedBy(Input(ts[n].now, ts[n].session, ts[n].report, ts[n].probeError, ws[n].state.poll), key.rule) &&
          OfKey(events, key) == [RecoveryOf(ws[n].state.active, key, ts[n].now)])
  {
    TurnOf(ws, ts, n);
    TraceIsSafe(ws, ts, n);
    TraceIsSafe(ws, ts, n + 1);
    PlayIsSafe(ws[n], ts[n]);
    var i := Input(ts[n].now, ts[n].session, ts[n].report, ts[n].probeError, ws[n].state.poll);
    IncidentsWellRaised(i);
    ResolvedRulesMembers(i, key.rule);
    EveryActiveKeyIsAccountedFor(ws[n].state, ObservedBy(ws[n].state, ts[n]), ts[n].listing, key);
  }
}
