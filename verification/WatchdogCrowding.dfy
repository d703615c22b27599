/** The limit on the outbox: what it takes to exceed it, and which alerts are lost while it is exceeded. */
module WatchdogCrowding {
  import opened Optional
  import opened WatchdogTypes
  import opened WatchdogClassify
  import opened WatchdogIncidents
  import opened WatchdogDispatch
  import opened WatchdogSafety
  import opened WatchdogProtocol
  import opened WatchdogTheorems
  import opened WatchdogInstants

  // ----- when a committed poll dispatches nothing

  /** The world in which a dispatch begins: the state is committed and the day has its self-check. */
  function Checked(w: World, now: Time): World {
    if DateOf(now) in w.selfChecks then w else w.(selfChecks := w.selfChecks[DateOf(now) := now])
  }

  function Dispatching(w: World, t: Turn): World
    requires Possible(w, t)
  {
    var o := ObservedBy(w.state, t);
    Checked(Committed(w, NewEvents(w.state, o, t.listing), NextState(w.state, o, t.listing)), t.now)
  }

  /** In a safe world the plan can fail for two reasons only. */
  lemma PlanFailsIff(w: World, t: Turn)
    requires Linked(w) && OutboxOnDisk(w) && w.commits != [] && DateOf(t.now) in w.selfChecks
    ensures Plan(w, t).None? <==> t.config.None? || |w.state.outbox| > MAX_OUTBOX
  {
    forall e | e in w.state.outbox ensures e in w.events {
      assert e in w.commits[|w.commits| - 1].outbox;
    }
  }

  /** A poll that commits dispatches nothing at all exactly when there is no configuration or its outbox has
      more than 4096 events. */
  lemma PollPlansNothingIff(w: World, t: Turn)
    requires Safe(w) && Possible(w, t)
    ensures Plan(Dispatching(w, t), t).None? <==>
      t.config.None? || |NextState(w.state, ObservedBy(w.state, t), t.listing).outbox| > MAX_OUTBOX
  {
    var o := ObservedBy(w.state, t);
    NextStateIsOk(w, t);
    CommitPlansNothingIff(w, t, NewEvents(w.state, o, t.listing), NextState(w.state, o, t.listing));
  }

  lemma CommitPlansNothingIff(w: World, t: Turn, written: seq<Event>, next: State)
    requires Safe(w) && StateOk(next) && forall e :: e in next.outbox ==> e in w.state.outbox || e in written
    ensures Plan(Checked(Committed(w, written, next), t.now), t).None? <==>
      t.config.None? || |next.outbox| > MAX_OUTBOX
  {
    CommittedIsSafe(w, written, next);
    PlanFailsIff(Checked(Committed(w, written, next), t.now), t);
  }

  lemma CrowdedCommitIsSilent(w: World, t: Turn, fuel: nat)
    requires |w.state.outbox| > MAX_OUTBOX
    ensures var after := AfterCommit(w, t, fuel); after.disk == w.disk && after.calls == w.calls
  {
  }

  /** A turn that calls the sender has committed an outbox within the limit. */
  lemma CallingTurnIsNotCrowded(w: World, t: Turn)
    requires Possible(w, t) && Play(w, t).calls != w.calls
    ensures |Play(w, t).state.outbox| <= MAX_OUTBOX
  {
    var o := ObservedBy(w.state, t);
    CallingPublishIsNotCrowded(w, t, NewEvents(w.state, o, t.listing), NextState(w.state, o, t.listing));
  }

  lemma CallingPublishIsNotCrowded(w: World, t: Turn, written: seq<Event>, next: State)
    ensures var after := Publish(w, t, written, next); after.calls != w.calls ==> |after.state.outbox| <= MAX_OUTBOX
  {
    if t.fuel > |written| {
      var c, left := Committed(w, written, next), t.fuel - |written| - 1;
      CommitStays(c, t, left);
      if |next.outbox| > MAX_OUTBOX {
        CrowdedCommitIsSilent(c, t, left);
      }
    }
  }

  lemma CommitStays(w: World, t: Turn, fuel: nat)
    ensures AfterCommit(w, t, fuel).state == w.state && AfterCommit(w, t, fuel).events == w.events
  {
  }

  // ----- events of a period

  /** How many of the events were observed in the period. */
  function Held(outbox: seq<Event>, from: Time, to: Time): nat {
    if outbox == [] then 0
    else Held(outbox[..|outbox| - 1], from, to) + if from <= outbox[|outbox| - 1].observedAt <= to then 1 else 0
  }

  lemma {:induction false} HeldAtMost(outbox: seq<Event>, from: Time, to: Time)
    ensures Held(outbox, from, to) <= |outbox|
  {
    if outbox != [] {
      HeldAtMost(outbox[..|outbox| - 1], from, to);
    }
  }

  lemma {:induction false} HeldAll(outbox: seq<Event>, from: Time, to: Time)
    requires forall e :: e in outbox ==> from <= e.observedAt <= to
    ensures Held(outbox, from, to) == |outbox|
  {
    if outbox != [] {
      var front, last := outbox[..|outbox| - 1], outbox[|outbox| - 1];
      assert last in outbox && forall e :: e in front ==> e in outbox;
      HeldAll(front, from, to);
    }
  }

  lemma {:induction false} HeldGrows(a: seq<Event>, b: seq<Event>, from: Time, to: Time)
    ensures Held(a + b, from, to) >= Held(a, from, to)
  {
    if b == [] {
      assert a + b == a;
    } else {
      assert (a + b)[..|a + b| - 1] == a + b[..|b| - 1];
      HeldGrows(a, b[..|b| - 1], from, to);
    }
  }

  lemma HeldStep(outbox: seq<Event>, e: Event, from: Time, to: Time)
    ensures Held(outbox + [e], from, to) == Held(outbox, from, to) + if from <= e.observedAt <= to then 1 else 0
  {
    assert (outbox + [e])[..|outbox|] == outbox;
  }

  /** Pruning at an instant after the period drops none of its events before a day has passed. */
  lemma {:induction false} HeldPruned(outbox: seq<Event>, now: Time, from: Time, to: Time)
    requires now - DAY <= from && to <= now
    ensures Held(Pruned(outbox, now), from, to) == Held(outbox, from, to)
  {
    if outbox != [] {
      var front, last := outbox[..|outbox| - 1], outbox[|outbox| - 1];
      HeldPruned(front, now, from, to);
      if Recent(last.observedAt, now) {
        HeldStep(Pruned(front, now), last, from, to);
      } else {
        assert Pruned(outbox, now) == Pruned(front, now);
      }
    }
  }

  lemma NextStateHolds(s: State, o: Observed, order: seq<Key>, from: Time, to: Time)
    requires (forall k :: k in order ==> k in s.active) && o.now - DAY <= from && to <= o.now
    ensures Held(NextState(s, o, order).outbox, from, to) >= Held(s.outbox, from, to)
  {
    HeldPruned(s.outbox, o.now, from, to);
    HeldGrows(Pruned(s.outbox, o.now), NewEvents(s, o, order), from, to);
  }

  // ----- alerts that are crowded out

  /** The clock does not go back. */
  ghost predicate Orderly(ts: seq<Turn>) {
    forall i, j :: 0 <= i <= j < |ts| ==> ts[i].now <= ts[j].now
  }

  ghost predicate Crowded(s: State, from: Time, to: Time) {
    Held(s.outbox, from, to) > MAX_OUTBOX
  }

  lemma CrowdStaysOneTurn(ws: seq<World>, ts: seq<Turn>, k: nat, from: Time, to: Time)
    requires Trace(ws, ts) && k < |ts| && Crowded(ws[k].state, from, to)
    requires to <= ts[k].now <= from + DAY
    ensures Crowded(ws[k + 1].state, from, to)
  {
    TurnOf(ws, ts, k);
    TraceIsSafe(ws, ts, k);
    PlayIsSafe(ws[k], ts[k]);
    NextStateHolds(ws[k].state, ObservedBy(ws[k].state, ts[k]), ts[k].listing, from, to);
  }

  /** Once there are more than 4096 events of a period in the outbox, they stay until a day after its start. */
  lemma {:induction false} CrowdStays(ws: seq<World>, ts: seq<Turn>, n: nat, k: nat, from: Time, to: Time)
    requires Trace(ws, ts) && Orderly(ts) && 0 < n <= k < |ws| && Crowded(ws[n].state, from, to)
    requires to <= ts[n - 1].now && ts[k - 1].now <= from + DAY
    ensures Crowded(ws[k].state, from, to)
    decreases k
  {
    if n < k {
      CrowdStays(ws, ts, n, k - 1, from, to);
      CrowdStaysOneTurn(ws, ts, k - 1, from, to);
    }
  }

  /** A call is made at the clock of its turn, within the life of its message, from an outbox within the limit. */
  lemma NewCallIsTimely(ws: seq<World>, ts: seq<Turn>, k: nat, i: nat)
    requires Trace(ws, ts) && k < |ts| && |ws[k].calls| <= i < |ws[k + 1].calls|
    ensures 0 <= ts[k].now - ws[k + 1].calls[i].message.At() < EVENT_TTL
    ensures |ws[k + 1].state.outbox| <= MAX_OUTBOX
  {
    TurnOf(ws, ts, k);
    var candidates, epoch, fuel := PlayCarries(ws[k], ts[k]);
    CarryAllCalls(Run(ws[k].disk, ws[k].calls, 0, fuel), candidates, ts[k].now, epoch, ts[k].sender);
    TraceIsSafe(ws, ts, k + 1);
    CallIsTimed(ws[k + 1].disk, ws[k + 1].calls, i);
    CallingTurnIsNotCrowded(ws[k], ts[k]);
  }

  lemma CallIsTimed(d: Disk, calls: seq<Call>, i: nat)
    requires Sound(d, calls) && i < |calls|
    ensures 0 <= calls[i].at - calls[i].message.At() < EVENT_TTL
  {
    assert Recorded(d, calls, calls[i].message);
    CallIndex(calls, i);
  }

  lemma CallsArePrefix(ws: seq<World>, ts: seq<Turn>, k: nat)
    requires Trace(ws, ts) && k < |ts|
    ensures ws[k].calls <= ws[k + 1].calls
  {
    TurnOf(ws, ts, k);
    var candidates, epoch, fuel := PlayCarries(ws[k], ts[k]);
    CarryAllCalls(Run(ws[k].disk, ws[k].calls, 0, fuel), candidates, ts[k].now, epoch, ts[k].sender);
  }

  ghost predicate NeverCalled(calls: seq<Call>, m: Message) {
    forall i :: 0 <= i < |calls| ==> calls[i].message != m
  }

  /** The alert was observed while the crowd is certain to last longer than the alert. */
  predicate CrowdedOut(e: Event, last: Time, from: Time) {
    last < e.observedAt && e.observedAt + EVENT_TTL <= from + DAY
  }

  lemma TurnCannotCall(ws: seq<World>, ts: seq<Turn>, n: nat, k: nat, from: Time, to: Time, e: Event, i: nat)
    requires Trace(ws, ts) && Orderly(ts) && 0 < n < |ws| && k < |ts| && Crowded(ws[n].state, from, to)
    requires to <= ts[n - 1].now && CrowdedOut(e, ts[n - 1].now, from)
    requires |ws[k].calls| <= i < |ws[k + 1].calls|
    ensures ws[k + 1].calls[i].message != Alert(e)
  {
    NewCallIsTimely(ws, ts, k, i);
    if ws[k + 1].calls[i].message == Alert(e) && n <= k {
      CrowdStays(ws, ts, n, k + 1, from, to);
      HeldAtMost(ws[k + 1].state.outbox, from, to);
    }
  }

  /** Crowded out: once the outbox holds more than 4096 events of a period, an alert observed later, but
      fifteen minutes or more before the period is a day old, is never sent, whatever the polls do then. */
  lemma {:induction false} CrowdedOutAlertIsNeverSent(ws: seq<World>, ts: seq<Turn>, n: nat, k: nat,
                                                      from: Time, to: Time, e: Event)
    requires Trace(ws, ts) && Orderly(ts) && 0 < n < |ws| && k < |ws| && Crowded(ws[n].state, from, to)
    requires to <= ts[n - 1].now && CrowdedOut(e, ts[n - 1].now, from)
    ensures NeverCalled(ws[k].calls, Alert(e))
    decreases k
  {
    if k > 0 {
      CrowdedOutAlertIsNeverSent(ws, ts, n, k - 1, from, to, e);
      CallsArePrefix(ws, ts, k - 1);
      forall i | 0 <= i < |ws[k].calls| ensures ws[k].calls[i].message != Alert(e) {
        if i < |ws[k - 1].calls| {
          assert ws[k].calls[i] == ws[k - 1].calls[i];
        } else {
          TurnCannotCall(ws, ts, n, k - 1, from, to, e, i);
        }
      }
    }
  }

  // ----- five capabilities that come and go

  const MINUTE: int := 60 * SECOND
  /** Polls until the outbox is over the limit. */
  const FLAPS: nat := 820

  /** Everything is in order, except that the five capabilities may be missing. */
  function FlapReport(now: Time, missing: bool): Report {
    HealthyReport(now).(data := DataView(Ok, Some(now), if missing then CAPABILITIES else []))
  }

  function FlapTurn(now: Time, missing: bool, listing: seq<Key>, config: Option<Config>, fuel: nat): Turn {
    DownTurn(now, config, fuel).(report := Some(FlapReport(now, missing)), listing := listing)
  }

  function FlapInput(s: State, now: Time, missing: bool): Input {
    Input(now, Some(Closed), Some(FlapReport(now, missing)), None, s.poll)
  }

  lemma {:induction false} AllMissing(i: Input, names: seq<string>)
    requires i.report.Some? && forall n :: n in names ==> n in i.report.value.data.missing
    ensures |MissingAmong(i, names)| == |names|
    ensures forall x :: x in MissingAmong(i, names) ==> x.key.rule == Capability
  {
    if names != [] {
      assert names[|names| - 1] in names;
      AllMissing(i, names[..|names| - 1]);
    }
  }

  lemma OthersInOrder(s: State, now: Time, missing: bool, rule: Rule)
    requires rule != Capability
    ensures RaisedBy(FlapInput(s, now, missing), rule) == []
  {
    assert "Quote" !in CAPABILITIES;
  }

  lemma FlapRaises(s: State, now: Time, missing: bool)
    ensures var raised := Incidents(FlapInput(s, now, missing));
      |raised| == (if missing then 5 else 0) && forall x :: x in raised ==> x.key.rule == Capability
  {
    var i := FlapInput(s, now, missing);
    forall rule: Rule | rule != Capability ensures RaisedBy(i, rule) == [] {
      OthersInOrder(s, now, missing, rule);
    }
    if missing {
      AllMissing(i, CAPABILITIES);
    } else {
      NothingMissing(i, CAPABILITIES);
    }
    assert Incidents(i) == MissingAmong(i, CAPABILITIES);
  }

  lemma {:induction false} FreshAlerts(raised: seq<Incident>, now: Time)
    ensures |Alerts(map[], raised, now)| == |raised|
    ensures forall e :: e in Alerts(map[], raised, now) ==> e.observedAt == now
  {
    if raised != [] {
      FreshAlerts(raised[..|raised| - 1], now);
    }
  }

  lemma {:induction false} AllRecover(was: map<Key, Entry>, resolved: seq<Rule>, now: Time, order: seq<Key>)
    requires forall k :: k in order ==> k in was && k.rule in resolved
    ensures |Recoveries(was, [], resolved, now, order)| == |order|
    ensures forall e :: e in Recoveries(was, [], resolved, now, order) ==> e.observedAt == now
  {
    if order != [] {
      var last := order[|order| - 1];
      assert last in order;
      AllRecover(was, resolved, now, order[..|order| - 1]);
      assert FateOf([], resolved, last) == Recovered;
    }
  }

  function KeysOf(raised: seq<Incident>): seq<Key> {
    seq(|raised|, i requires 0 <= i < |raised| => raised[i].key)
  }

  lemma KeysAreListed(raised: seq<Incident>, keys: set<Key>)
    requires WellRaised(raised) && forall k :: k in keys <==> KeyRaised(raised, k)
    ensures Lists(KeysOf(raised), keys)
  {
    forall k ensures k in KeysOf(raised) <==> k in keys {
      if KeyRaised(raised, k) {
        var x :| x in raised && x.key == k;
        var i :| 0 <= i < |raised| && raised[i] == x;
        assert KeysOf(raised)[i] == k;
      }
      if k in KeysOf(raised) {
        var i :| 0 <= i < |raised| && KeysOf(raised)[i] == k;
        assert raised[i] in raised;
      }
    }
  }

  /** What the state looks like after k polls, one a minute. */
  ghost predicate Flapped(s: State, start: Time, k: nat, listing: seq<Key>) {
    && Lists(listing, s.active.Keys) && |listing| == (if k % 2 == 0 then 0 else 5)
    && (forall x :: x in listing ==> x.rule == Capability)
    && |s.outbox| == 5 * k && forall e :: e in s.outbox ==> start <= e.observedAt <= start + (k - 1) * MINUTE
  }

  lemma FlappedIsRecent(s: State, start: Time, k: nat, listing: seq<Key>)
    requires Flapped(s, start, k, listing) && k < FLAPS
    ensures forall e :: e in s.outbox ==> Recent(e.observedAt, start + k * MINUTE)
  {
  }

  lemma OutboxGrows(s: State, o: Observed, listing: seq<Key>, start: Time, k: nat)
    requires Flapped(s, start, k, listing) && k < FLAPS && o.now == start + k * MINUTE
    requires var written := NewEvents(s, o, listing);
      |written| == 5 && forall e :: e in written ==> e.observedAt == o.now
    ensures var outbox := NextState(s, o, listing).outbox;
      |outbox| == 5 * (k + 1) && forall e :: e in outbox ==> start <= e.observedAt <= start + k * MINUTE
  {
    FlappedIsRecent(s, start, k, listing);
    NothingPruned(s.outbox, o.now);
  }

  /** The five incidents of a poll that finds the capabilities missing. */
  predicate FiveMissing(raised: seq<Incident>) {
    WellRaised(raised) && |raised| == 5 && forall x :: x in raised ==> x.key.rule == Capability
  }

  lemma FlapDown(s: State, start: Time, k: nat, o: Observed)
    requires Flapped(s, start, k, []) && k % 2 == 0 && k < FLAPS && o.now == start + k * MINUTE
    requires FiveMissing(o.raised)
    ensures |NewEvents(s, o, [])| == 5 && Flapped(NextState(s, o, []), start, k + 1, KeysOf(o.raised))
  {
    assert s.active == map[];
    FreshAlerts(o.raised, o.now);
    AllOpened(s, o);
    OutboxGrows(s, o, [], start, k);
    CurrentKeys(map[], o.raised, o.now);
    FlappedDown(NextState(s, o, []), start, k, o.raised);
  }

  lemma AllOpened(s: State, o: Observed)
    requires s.active == map[]
    ensures NewEvents(s, o, []) == Alerts(map[], o.raised, o.now)
    ensures NextState(s, o, []).active == Current(map[], o.raised, o.now)
  {
  }

  lemma FlappedDown(s: State, start: Time, k: nat, raised: seq<Incident>)
    requires FiveMissing(raised) && (forall x :: x in s.active <==> KeyRaised(raised, x))
    requires k % 2 == 0 && |s.outbox| == 5 * (k + 1)
    requires forall e :: e in s.outbox ==> start <= e.observedAt <= start + k * MINUTE
    ensures Flapped(s, start, k + 1, KeysOf(raised))
  {
    KeysAreListed(raised, s.active.Keys);
    forall x | x in KeysOf(raised) ensures x.rule == Capability {
      var j :| 0 <= j < |raised| && KeysOf(raised)[j] == x;
      assert raised[j] in raised;
    }
  }

  lemma NothingKept(was: map<Key, Entry>, resolved: seq<Rule>)
    requires forall x :: x in was ==> x.rule in resolved
    ensures KeptAmong(was, [], resolved, was.Keys) == map[]
  {
    forall x | x in was ensures FateOf([], resolved, x) == Recovered {
      assert !KeyRaised([], x) && !RuleRaised([], x.rule);
    }
  }

  lemma AllClosed(s: State, o: Observed, listing: seq<Key>)
    requires Lists(listing, s.active.Keys) && (forall x :: x in listing ==> x.rule in o.resolved) && o.raised == []
    ensures NextState(s, o, listing).active == map[]
    ensures NewEvents(s, o, listing) == Recoveries(s.active, [], o.resolved, o.now, listing)
  {
    forall x | x in s.active ensures x.rule in o.resolved {
      assert x in listing;
    }
    NothingKept(s.active, o.resolved);
  }

  lemma FlapUp(s: State, start: Time, k: nat, o: Observed, listing: seq<Key>)
    requires Flapped(s, start, k, listing) && k % 2 == 1 && k < FLAPS && o.now == start + k * MINUTE
    requires o.raised == [] && Capability in o.resolved
    ensures |NewEvents(s, o, listing)| == 5 && Flapped(NextState(s, o, listing), start, k + 1, [])
  {
    AllRecover(s.active, o.resolved, o.now, listing);
    AllClosed(s, o, listing);
    OutboxGrows(s, o, listing, start, k);
    FlappedUp(NextState(s, o, listing), start, k);
  }

  lemma FlappedUp(s: State, start: Time, k: nat)
    requires s.active == map[] && k % 2 == 1 && |s.outbox| == 5 * (k + 1)
    requires forall e :: e in s.outbox ==> start <= e.observedAt <= start + k * MINUTE
    ensures Flapped(s, start, k + 1, [])
  {
  }

  /** The capabilities go missing. */
  lemma TurnDown(s: State, start: Time, k: nat, t: Turn)
    requires Flapped(s, start, k, []) && k % 2 == 0 && k < FLAPS && t.now == start + k * MINUTE
    requires t.session == Some(Closed) && t.report == Some(FlapReport(t.now, true)) && t.probeError == None
    ensures var o := ObservedBy(s, t);
      |NewEvents(s, o, [])| == 5 && Flapped(NextState(s, o, []), start, k + 1, KeysOf(o.raised))
  {
    var i := FlapInput(s, t.now, true);
    FlapRaises(s, t.now, true);
    IncidentsWellRaised(i);
    assert ObservedBy(s, t).raised == Incidents(i);
    FlapDown(s, start, k, ObservedBy(s, t));
  }

  /** And they are back. */
  lemma TurnUp(s: State, start: Time, k: nat, t: Turn)
    requires Flapped(s, start, k, t.listing) && k % 2 == 1 && k < FLAPS && t.now == start + k * MINUTE
    requires t.session == Some(Closed) && t.report == Some(FlapReport(t.now, false)) && t.probeError == None
    ensures var o := ObservedBy(s, t);
      |NewEvents(s, o, t.listing)| == 5 && Flapped(NextState(s, o, t.listing), start, k + 1, [])
  {
    var i := FlapInput(s, t.now, false);
    FlapRaises(s, t.now, false);
    ResolvedRulesMembers(i, Capability);
    assert ObservedBy(s, t).raised == Incidents(i) && ObservedBy(s, t).resolved == ResolvedRules(i);
    FlapUp(s, start, k, ObservedBy(s, t), t.listing);
  }

  lemma PlayCommits(w: World, t: Turn)
    requires Possible(w, t) && t.fuel > |NewEvents(w.state, ObservedBy(w.state, t), t.listing)|
    ensures Play(w, t).state == NextState(w.state, ObservedBy(w.state, t), t.listing)
  {
    var o := ObservedBy(w.state, t);
    var written := NewEvents(w.state, o, t.listing);
    CommitStays(Committed(w, written, NextState(w.state, o, t.listing)), t, t.fuel - |written| - 1);
  }

  lemma FlapOnce(w: World, start: Time, k: nat, listing: seq<Key>, config: Option<Config>, fuel: nat)
    returns (t: Turn, after: World, keys: seq<Key>)
    requires Flapped(w.state, start, k, listing) && k < FLAPS && fuel > 5
    ensures Happens(w, t, after) && t.now == start + k * MINUTE && Flapped(after.state, start, k + 1, keys)
  {
    t := FlapTurn(start + k * MINUTE, k % 2 == 0, listing, config, fuel);
    if k % 2 == 0 {
      assert listing == [];
      TurnDown(w.state, start, k, t);
      keys := KeysOf(ObservedBy(w.state, t).raised);
    } else {
      TurnUp(w.state, start, k, t);
      keys := [];
    }
    PlayCommits(w, t);
    after := Play(w, t);
  }

  /** A trace of k such polls. */
  ghost predicate Flaps(ws: seq<World>, ts: seq<Turn>, start: Time, k: nat, listing: seq<Key>) {
    && Trace(ws, ts) && |ts| == k && Minutely(ts, start)
    && Flapped(ws[k].state, start, k, listing)
  }

  ghost predicate Minutely(ts: seq<Turn>, start: Time) {
    forall i :: 0 <= i < |ts| ==> ts[i].now == start + i * MINUTE
  }

  lemma MinutelyGoesOn(ts: seq<Turn>, start: Time, t: Turn)
    requires Minutely(ts, start) && t.now == start + |ts| * MINUTE
    ensures Minutely(ts + [t], start)
  {
  }

  lemma OneMoreFlap(ws: seq<World>, ts: seq<Turn>, start: Time, k: nat, listing: seq<Key>, config: Option<Config>,
                    fuel: nat)
    returns (xs: seq<World>, us: seq<Turn>, keys: seq<Key>)
    requires Flaps(ws, ts, start, k, listing) && k < FLAPS && fuel > 5
    ensures Flaps(xs, us, start, k + 1, keys)
  {
    var t, w;
    xs, us, t, w, keys := FlapAfter(ws, ts, start, k, listing, config, fuel);
    MinutelyGoesOn(ts, start, t);
  }

  lemma FlapAfter(ws: seq<World>, ts: seq<Turn>, start: Time, k: nat, listing: seq<Key>, config: Option<Config>,
                  fuel: nat)
    returns (xs: seq<World>, us: seq<Turn>, t: Turn, w: World, keys: seq<Key>)
    requires Trace(ws, ts) && |ts| == k && Flapped(ws[k].state, start, k, listing) && k < FLAPS && fuel > 5
    ensures Trace(xs, us) && xs == ws + [w] && us == ts + [t]
    ensures t.now == start + k * MINUTE && Flapped(w.state, start, k + 1, keys)
  {
    t, w, keys := FlapOnce(ws[k], start, k, listing, config, fuel);
    xs, us := OneMoreTurn(ws, ts, t, w);
  }

  lemma {:induction false} FlappingTrace(start: Time, k: nat, config: Option<Config>, fuel: nat)
    returns (ws: seq<World>, ts: seq<Turn>, listing: seq<Key>)
    requires k <= FLAPS && fuel > 5
    ensures Flaps(ws, ts, start, k, listing)
  {
    if k == 0 {
      ws, ts, listing := [EMPTY_WORLD], [], [];
    } else {
      ws, ts, listing := FlappingTrace(start, k - 1, config, fuel);
      ws, ts, listing := OneMoreFlap(ws, ts, start, k - 1, listing, config, fuel);
    }
  }

  /** An outage of the probe after that: the alert is committed, and current. */
  lemma OutageIsCommitted(w: World, start: Time, config: Option<Config>, fuel: nat) returns (t: Turn, after: World)
    requires Flapped(w.state, start, FLAPS, []) && fuel > 1
    ensures Happens(w, t, after) && t.now == start + FLAPS * MINUTE && t.config == config
    ensures FirstAlert(t.now) in after.state.outbox && CurrentIn(after.state, Alert(FirstAlert(t.now)))
  {
    t := DownTurn(start + FLAPS * MINUTE, config, fuel);
    assert w.state.active == map[];
    DownObserved(w.state, t.now, config, fuel);
    RaisedFromNothing(w.state, ObservedBy(w.state, t), Incident(ProbeKey(t.now), P0));
    PlayCommits(w, t);
    after := Play(w, t);
  }

  /** This alert is lost in every continuation. */
  ghost predicate LostForever(ws: seq<World>, ts: seq<Turn>, m: Message) {
    forall xs: seq<World>, us: seq<Turn>, k: nat :: Trace(xs, us) && Orderly(us) && ws <= xs && ts <= us && k < |xs| ==>
      NeverCalled(xs[k].calls, m)
  }

  lemma CrowdedTraceLoses(ws: seq<World>, ts: seq<Turn>, n: nat, from: Time, to: Time, e: Event)
    requires |ws| == |ts| + 1 && 0 < n < |ws| && Crowded(ws[n].state, from, to)
    requires to <= ts[n - 1].now && CrowdedOut(e, ts[n - 1].now, from)
    ensures LostForever(ws, ts, Alert(e))
  {
    forall xs: seq<World>, us: seq<Turn>, k: nat | Trace(xs, us) && Orderly(us) && ws <= xs && ts <= us && k < |xs|
      ensures NeverCalled(xs[k].calls, Alert(e))
    {
      assert xs[n] == ws[n] && us[n - 1] == ts[n - 1];
      CrowdedOutAlertIsNeverSent(xs, us, n, k, from, to, e);
    }
  }

  lemma FlappedIsCrowded(s: State, start: Time)
    requires Flapped(s, start, FLAPS, [])
    ensures Crowded(s, start, start + (FLAPS - 1) * MINUTE)
  {
    HeldAll(s.outbox, start, start + (FLAPS - 1) * MINUTE);
  }

  lemma OutageFollows(ws: seq<World>, ts: seq<Turn>, start: Time, fuel: nat) returns (xs: seq<World>, us: seq<Turn>)
    requires Flaps(ws, ts, start, FLAPS, []) && fuel > 5
    ensures Trace(xs, us) && |us| == FLAPS + 1 && Minutely(us, start)
    ensures Crowded(xs[FLAPS].state, start, start + (FLAPS - 1) * MINUTE)
    ensures var e := FirstAlert(start + FLAPS * MINUTE);
      e in xs[FLAPS + 1].state.outbox && CurrentIn(xs[FLAPS + 1].state, Alert(e))
  {
    var t, w := OutageIsCommitted(ws[FLAPS], start, Some(ALERTS_ONLY), fuel);
    FlappedIsCrowded(ws[FLAPS].state, start);
    xs, us := OneMoreTurn(ws, ts, t, w);
    MinutelyGoesOn(ts, start, t);
  }

  /** Five capabilities flapping at every poll, one poll a minute, fill the outbox in less than fourteen hours.
      The P0 alert of an outage that begins then is committed and current, and neither this poll nor any later
      one sends it, although the sender accepts everything and P0 alerts are configured. */
  lemma FlappingLosesAlerts(start: Time, fuel: nat) returns (ws: seq<World>, ts: seq<Turn>)
    requires fuel > 5
    ensures Trace(ws, ts) && |ts| == FLAPS + 1 && Minutely(ts, start)
    ensures var e := FirstAlert(start + FLAPS * MINUTE);
      && e.severity == P0 && e in ws[FLAPS + 1].state.outbox && CurrentIn(ws[FLAPS + 1].state, Alert(e))
      && LostForever(ws, ts, Alert(e))
  {
    var listing;
    ws, ts, listing := FlappingTrace(start, FLAPS, Some(ALERTS_ONLY), fuel);
    ws, ts := OutageFollows(ws, ts, start, fuel);
    CrowdedTraceLoses(ws, ts, FLAPS, start, start + (FLAPS - 1) * MINUTE, FirstAlert(start + FLAPS * MINUTE));
  }
}
