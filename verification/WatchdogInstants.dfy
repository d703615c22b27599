/** The clock and the generations: with fresh instants no outage comes back, and with one instant used
    three times a trace sends an alert of an outage whose recovery is committed. */
module WatchdogInstants {
  import opened Optional
  import opened WatchdogTypes
  import opened WatchdogClassify
  import opened WatchdogIncidents
  import opened WatchdogDispatch
  import opened WatchdogProtocol
  import opened WatchdogTheorems
  import opened WatchdogGenerations

  // ----- fresh instants

  /** The clock of a turn is none that an earlier commit used; in particular, any later one. */
  ghost predicate FreshClock(w: World, t: Turn) {
    forall i :: 0 <= i < |w.commits| ==> w.commits[i].poll.pollAt != Some(t.now)
  }

  ghost predicate TickingTrace(ws: seq<World>, ts: seq<Turn>) {
    Trace(ws, ts) && forall i :: 0 <= i < |ts| ==> FreshClock(ws[i], ts[i])
  }

  lemma CommitIsDated(ws: seq<World>, ts: seq<Turn>, t: nat)
    requires Trace(ws, ts) && t < |ts| && ws[t + 1].commits != ws[t].commits
    ensures var n, after := |ws[t].commits|, ws[t + 1].commits;
      |after| == n + 1 && after[n].poll.pollAt == Some(ts[t].now)
  {
    TurnOf(ws, ts, t);
    TurnCommits(ws, ts, t);
    TraceIsSafe(ws, ts, t);
    NextStateIsOk(ws[t], ts[t]);
  }

  /** With fresh instants a generation is opened once at most. */
  lemma OpenedOnce(ws: seq<World>, ts: seq<Turn>, t: nat, u: nat, g: Generation)
    requires TickingTrace(ws, ts) && t < u < |ts| && Opens(ws, ts, t, g)
    ensures !Opens(ws, ts, u, g)
  {
    CommitIsDated(ws, ts, t);
    TraceIsGrowing(ws, ts);
    CommitsAreKept(ws, t + 1, u);
    assert FreshClock(ws[u], ts[u]);
    assert ws[u].commits[|ws[t].commits|].poll.pollAt == Some(ts[t].now);
  }

  lemma ActiveWasOpened(ws: seq<World>, ts: seq<Turn>, c: nat, g: Generation) returns (t: nat)
    requires Trace(ws, ts) && c < |ws| && Active(ws[c].state, g)
    ensures t < c && Opens(ws, ts, t, g)
  {
    ReturnsIffOpened(ws, ts, 0, c, g);
    assert ActiveAt(ws, g)(c);
    var u :| 0 <= u < c && OpenedAt(ws, ts, g)(u);
    t := u;
  }

  /** A switch that is opened once at most stays off once it is off. */
  lemma OffForGood(on: int -> bool, opens: int -> bool, a: int, b: int, c: int)
    requires 0 <= a <= b <= c && !on(0) && on(a) && !on(b) && OpensOnly(on, opens, c)
    requires forall t, u :: 0 <= t < u < c && opens(t) ==> !opens(u)
    ensures !on(c)
  {
    OnIffOpened(on, opens, 0, a);
    assert Within(on, 1, a + 1);
    var t :| 0 <= t < a && opens(t);
    OnIffOpened(on, opens, b, c);
    assert !Within(opens, b, c);
    assert on(c) ==> Within(on, b + 1, c + 1);
  }

  lemma TurnsOpenOnce(ws: seq<World>, ts: seq<Turn>, g: Generation)
    requires TickingTrace(ws, ts)
    ensures var opens := OpenedAt(ws, ts, g); forall t, u :: 0 <= t < u < |ts| && opens(t) ==> !opens(u)
  {
    var opens := OpenedAt(ws, ts, g);
    forall t, u | 0 <= t < u < |ts| && opens(t) ensures !opens(u) {
      OpenedOnce(ws, ts, t, u, g);
    }
  }

  lemma NotOpenedAgain(ws: seq<World>, ts: seq<Turn>, a: nat, b: nat, c: nat, g: Generation)
    requires TickingTrace(ws, ts) && a <= b <= c < |ws| && Active(ws[a].state, g) && !Active(ws[b].state, g)
    ensures !Active(ws[c].state, g)
  {
    TurnsActivate(ws, ts, g);
    TurnsOpenOnce(ws, ts, g);
    OffForGood(ActiveAt(ws, g), OpenedAt(ws, ts, g), a, b, c);
  }

  /** With fresh instants the commits at which a generation is active are consecutive: one that was left is
      never entered again. */
  lemma GenerationsNeverReturn(ws: seq<World>, ts: seq<Turn>, n: nat, i: nat, j: nat, k: nat, g: Generation)
    requires TickingTrace(ws, ts) && n < |ws| && i < j < k < |ws[n].commits|
    requires Active(ws[n].commits[i], g) && !Active(ws[n].commits[j], g)
    ensures !Active(ws[n].commits[k], g)
  {
    TraceIsGrowing(ws, ts);
    var ci := WorldOfCommit(ws, n, i);
    var cj := WorldOfCommit(ws, n, j);
    var ck := WorldOfCommit(ws, n, k);
    WorldsInOrder(ws, n, i, j, ci, cj);
    WorldsInOrder(ws, n, j, k, cj, ck);
    NotOpenedAgain(ws, ts, ci, cj, ck, g);
  }

  lemma NothingReopens(ws: seq<World>, ts: seq<Turn>, n: nat, g: Generation)
    requires TickingTrace(ws, ts) && n < |ws|
    ensures !Reopened(ws, ts, n, g)
  {
    forall a, u | EndedBy(ws, a, g) && a < u < n ensures !Opens(ws, ts, u, g) {
      var t := ActiveWasOpened(ws, ts, a, g);
      OpenedOnce(ws, ts, t, u, g);
    }
  }

  /** With fresh instants there are no stale alerts: once a recovery of a generation is committed, no alert of
      that generation is sent any more, in whatever run. */
  lemma NoAlertAfterItsRecovery(ws: seq<World>, ts: seq<Turn>, n: nat, i: nat, p: nat, r: Event)
    requires TickingTrace(ws, ts) && n < |ws| && i < |ws[n].calls|
    requires ws[n].calls[i].message.Alert? && ws[n].calls[i].message.event.action != Recovery
    requires p < ws[n].calls[i].epoch <= |ws[n].commits|
    requires r in ws[n].commits[p].outbox && r.action == Recovery
    ensures r.generation != ws[n].calls[i].message.event.generation
  {
    NothingReopens(ws, ts, n, r.generation);
    if r.generation == ws[n].calls[i].message.event.generation {
      StaleCallNeedsReopening(ws, ts, n, i, p, r);
    }
  }

  // ----- one instant, three polls

  function ProbeKey(now: Time): Key {
    Key(Probe, ProbeFailure("probe_unavailable"), DateOf(now), "unknown")
  }

  /** A poll whose probe brings no report. */
  function DownTurn(now: Time, config: Option<Config>, fuel: nat): Turn {
    Turn(now, Some(Closed), None, None, [], config, (es: seq<Event>) => es,
         (n: nat) => Returned(Outcome(Accepted, ServiceAccepted, Some(200))), fuel)
  }

  function HealthyReport(now: Time): Report {
    Report(now, ProcessView(Ok, true, true, Some(now), Some("boot"), None),
           AccountView(Ok, Some("Normal"), Some(true), Some(now)), DataView(Ok, Some(now), []), true,
           DeliveryView(true, Some(0)))
  }

  /** A poll that finds everything in order. */
  function HealthyTurn(now: Time, listing: seq<Key>, fuel: nat): Turn {
    DownTurn(now, None, fuel).(report := Some(HealthyReport(now)), listing := listing)
  }

  lemma DownObserved(s: State, now: Time, config: Option<Config>, fuel: nat)
    ensures ObservedBy(s, DownTurn(now, config, fuel)).raised == [Incident(ProbeKey(now), P0)]
  {
  }

  function HealthyInput(s: State, now: Time): Input {
    Input(now, Some(Closed), Some(HealthyReport(now)), None, s.poll)
  }

  lemma HealthyRaisesNothing(s: State, now: Time, rule: Rule)
    ensures RaisedBy(HealthyInput(s, now), rule) == []
  {
    NothingMissing(HealthyInput(s, now), CAPABILITIES);
  }

  lemma HealthyObserved(s: State, now: Time, listing: seq<Key>, fuel: nat)
    ensures var o := ObservedBy(s, HealthyTurn(now, listing, fuel)); o.raised == [] && Probe in o.resolved
  {
    var i := HealthyInput(s, now);
    ResolvedRulesMembers(i, Probe);
    forall rule: Rule ensures RaisedBy(i, rule) == [] {
      HealthyRaisesNothing(s, now, rule);
    }
    assert ServiceIncidents(i) == [];
  }

  lemma {:induction false} NothingMissing(i: Input, names: seq<string>)
    requires i.report.Some? && i.report.value.data.missing == []
    ensures MissingAmong(i, names) == []
  {
    if names != [] {
      NothingMissing(i, names[..|names| - 1]);
    }
  }

  function FirstAlert(now: Time): Event {
    Event(ProbeKey(now), P0, First, Generation(ProbeKey(now), now), now, None)
  }

  function ItsRecovery(now: Time): Event {
    Event(ProbeKey(now), P0, Recovery, Generation(ProbeKey(now), now), now, Some(now))
  }

  lemma RaisedFromNothing(s: State, o: Observed, x: Incident)
    requires s.active == map[] && o.raised == [x]
    ensures var e := Event(x.key, x.severity, First, Generation(x.key, o.now), o.now, None);
      && NewEvents(s, o, []) == [e]
      && NextState(s, o, []).active == map[x.key := Entry(x.severity, Some(e.generation), o.now)]
      && NextState(s, o, []).outbox == Pruned(s.outbox, o.now) + [e]
  {
    assert [x][..0] == [];
    assert Current(map[], [x], o.now) == map[x.key := EntryFor(map[], x, o.now)];
    assert Alerts(map[], [x], o.now) == AlertsFor(map[], x, o.now);
  }

  lemma ResolvedToNothing(s: State, o: Observed, key: Key)
    requires s.active.Keys == {key} && o.raised == [] && key.rule in o.resolved
    ensures var r := RecoveryOf(s.active, key, o.now);
      && NewEvents(s, o, [key]) == [r]
      && NextState(s, o, [key]).active == map[] && NextState(s, o, [key]).outbox == Pruned(s.outbox, o.now) + [r]
  {
    assert !KeyRaised([], key) && !RuleRaised([], key.rule);
    assert FateOf([], o.resolved, key) == Recovered;
    assert [key][..0] == [];
    assert Recoveries(s.active, [], o.resolved, o.now, [key]) == [RecoveryOf(s.active, key, o.now)];
  }

  lemma {:induction false} NothingPruned(outbox: seq<Event>, now: Time)
    requires forall e :: e in outbox ==> Recent(e.observedAt, now)
    ensures Pruned(outbox, now) == outbox
  {
    if outbox != [] {
      var front, last := outbox[..|outbox| - 1], outbox[|outbox| - 1];
      assert outbox == front + [last];
      assert last in outbox && forall e :: e in front ==> e in outbox;
      NothingPruned(front, now);
    }
  }

  /** One event and the state are written, and then the run dies. */
  lemma OneEventPublished(w: World, t: Turn, e: Event, next: State)
    requires t.fuel == 2 && w.selfChecks == map[]
    ensures Publish(w, t, [e], next) == w.(events := w.events + {e}, state := next, commits := w.commits + [next])
  {
    assert [e][..1] == [e];
    assert Prefix([e], 1) == {e};
  }

  lemma FirstOutage(now: Time)
    ensures var t := DownTurn(now, None, 2);
      var s := NextState(EMPTY_STATE, ObservedBy(EMPTY_STATE, t), []);
      && NewEvents(EMPTY_STATE, ObservedBy(EMPTY_STATE, t), []) == [FirstAlert(now)]
      && s.active == map[ProbeKey(now) := Entry(P0, Some(Generation(ProbeKey(now), now)), now)]
      && s.outbox == [FirstAlert(now)]
  {
    DownObserved(EMPTY_STATE, now, None, 2);
    RaisedFromNothing(EMPTY_STATE, ObservedBy(EMPTY_STATE, DownTurn(now, None, 2)), Incident(ProbeKey(now), P0));
  }

  lemma OutageEnds(now: Time, s: State)
    requires s.active == map[ProbeKey(now) := Entry(P0, Some(Generation(ProbeKey(now), now)), now)]
    requires s.outbox == [FirstAlert(now)]
    ensures var o := ObservedBy(s, HealthyTurn(now, [ProbeKey(now)], 2));
      var next := NextState(s, o, [ProbeKey(now)]);
      && NewEvents(s, o, [ProbeKey(now)]) == [ItsRecovery(now)]
      && next.active == map[] && next.outbox == [FirstAlert(now), ItsRecovery(now)]
  {
    HealthyObserved(s, now, [ProbeKey(now)], 2);
    EndsBy(s, ObservedBy(s, HealthyTurn(now, [ProbeKey(now)], 2)), now);
  }

  lemma EndsBy(s: State, o: Observed, now: Time)
    requires s.active == map[ProbeKey(now) := Entry(P0, Some(Generation(ProbeKey(now), now)), now)]
    requires s.outbox == [FirstAlert(now)] && o.raised == [] && Probe in o.resolved && o.now == now
    ensures var next := NextState(s, o, [ProbeKey(now)]);
      && NewEvents(s, o, [ProbeKey(now)]) == [ItsRecovery(now)]
      && next.active == map[] && next.outbox == [FirstAlert(now), ItsRecovery(now)]
  {
    ResolvedToNothing(s, o, ProbeKey(now));
    NothingPruned(s.outbox, now);
  }

  lemma OutageAgain(now: Time, s: State, config: Option<Config>, fuel: nat)
    requires s.active == map[] && s.outbox == [FirstAlert(now), ItsRecovery(now)]
    ensures var o := ObservedBy(s, DownTurn(now, config, fuel));
      var next := NextState(s, o, []);
      && NewEvents(s, o, []) == [FirstAlert(now)]
      && next.active == map[ProbeKey(now) := Entry(P0, Some(Generation(ProbeKey(now), now)), now)]
      && next.outbox == [FirstAlert(now), ItsRecovery(now), FirstAlert(now)]
  {
    DownObserved(s, now, config, fuel);
    RaisedFromNothing(s, ObservedBy(s, DownTurn(now, config, fuel)), Incident(ProbeKey(now), P0));
    NothingPruned(s.outbox, now);
  }

  lemma {:induction false} FirstUsesItUp(s: Run, candidates: seq<Candidate>, now: Time, epoch: nat,
                                         sender: nat -> Reply)
    requires candidates != [] && Carry(s, candidates[0], now, epoch, sender).fuel == 0
    ensures CarryAll(s, candidates, now, epoch, sender) == Carry(s, candidates[0], now, epoch, sender)
  {
    if |candidates| > 1 {
      FirstUsesItUp(s, candidates[..|candidates| - 1], now, epoch, sender);
    } else {
      assert candidates[..0] == [];
    }
  }

  lemma {:induction false} CandidatesInOrder(s: State, config: Config, events: seq<Event>)
    requires events != []
    ensures var cs := CandidatesOf(s, config, events); cs != [] && cs[0] == CandidateOf(s, config, Alert(events[0]))
  {
    if |events| > 1 {
      CandidatesInOrder(s, config, events[..|events| - 1]);
    } else {
      assert events[..0] == [];
    }
  }

  const ALERTS_ONLY: Config := Config({P0}, false)

  /** The dispatch of a state with the alert first in its outbox sends it. */
  lemma AlertIsSent(w: World, now: Time)
    requires w.disk == Disk(map[], map[]) && w.calls == []
    requires |w.state.outbox| == 3 && w.state.outbox[0] == FirstAlert(now)
    requires forall e :: e in w.state.outbox ==> e in w.events
    requires w.state.active == map[ProbeKey(now) := Entry(P0, Some(Generation(ProbeKey(now), now)), now)]
    ensures var t := DownTurn(now, Some(ALERTS_ONLY), 6);
      DispatchTurn(w, t, 3).calls == [Call(Alert(FirstAlert(now)), now, t.sender(0), |w.commits|)]
      && DispatchTurn(w, t, 3).commits == w.commits
  {
    var t, start := DownTurn(now, Some(ALERTS_ONLY), 6), Run(w.disk, w.calls, 0, 3);
    var candidates := CandidatesOf(w.state, ALERTS_ONLY, w.state.outbox);
    assert Plan(w, t) == Some(candidates);
    CandidatesInOrder(w.state, ALERTS_ONLY, w.state.outbox);
    assert candidates[0] == Candidate(Alert(FirstAlert(now)), true, true);
    assert Decide(start.disk, candidates[0], now, 0).Attempt?;
    FirstUsesItUp(start, candidates, now, |w.commits|, t.sender);
  }

  lemma AlertIsPublished(w: World, now: Time, next: State)
    requires w.disk == Disk(map[], map[]) && w.calls == [] && w.selfChecks == map[]
    requires FirstAlert(now) in w.events && ItsRecovery(now) in w.events
    requires next.outbox == [FirstAlert(now), ItsRecovery(now), FirstAlert(now)]
    requires next.active == map[ProbeKey(now) := Entry(P0, Some(Generation(ProbeKey(now), now)), now)]
    ensures var t := DownTurn(now, Some(ALERTS_ONLY), 6);
      var after := Publish(w, t, [FirstAlert(now)], next);
      && after.commits == w.commits + [next]
      && after.calls == [Call(Alert(FirstAlert(now)), now, t.sender(0), |w.commits| + 1)]
  {
    var t, e := DownTurn(now, Some(ALERTS_ONLY), 6), FirstAlert(now);
    var committed := Committed(w, [e], next);
    var checked := committed.(selfChecks := map[DateOf(now) := now]);
    assert [e][..1] == [e];
    AlertIsSent(checked, now);
    assert Publish(w, t, [e], next) == AfterCommit(committed, t, 4);
  }

  /** Nothing has been sent so far. */
  predicate Silent(w: World) {
    w.disk == Disk(map[], map[]) && w.calls == [] && w.selfChecks == map[]
  }

  predicate InOutage(w: World, now: Time) {
    && Silent(w) && FirstAlert(now) in w.events && |w.commits| == 1
    && w.state.active == map[ProbeKey(now) := Entry(P0, Some(Generation(ProbeKey(now), now)), now)]
    && w.state.outbox == [FirstAlert(now)]
  }

  predicate AfterOutage(w: World, now: Time) {
    && Silent(w) && FirstAlert(now) in w.events && ItsRecovery(now) in w.events && |w.commits| == 2
    && w.state.active == map[] && w.state.outbox == [FirstAlert(now), ItsRecovery(now)] && w.commits[1] == w.state
  }

  /** A turn that can happen in w, and the world it leaves. */
  ghost predicate Happens(w: World, t: Turn, after: World) {
    Possible(w, t) && after == Play(w, t)
  }

  lemma FirstTurn(now: Time) returns (t: Turn, after: World)
    ensures Happens(EMPTY_WORLD, t, after) && t.now == now && InOutage(after, now)
  {
    t := DownTurn(now, None, 2);
    FirstTurnIs(now);
    after := Play(EMPTY_WORLD, t);
  }

  lemma FirstTurnIs(now: Time)
    ensures var t := DownTurn(now, None, 2); Possible(EMPTY_WORLD, t) && InOutage(Play(EMPTY_WORLD, t), now)
  {
    var t := DownTurn(now, None, 2);
    FirstOutage(now);
    OneEventPublished(EMPTY_WORLD, t, FirstAlert(now), NextState(EMPTY_STATE, ObservedBy(EMPTY_STATE, t), []));
  }

  lemma SecondTurn(w: World, now: Time) returns (t: Turn, after: World)
    requires InOutage(w, now)
    ensures Happens(w, t, after) && t.now == now && AfterOutage(after, now)
  {
    t := HealthyTurn(now, [ProbeKey(now)], 2);
    SecondTurnIs(w, now);
    after := Play(w, t);
  }

  lemma SecondTurnIs(w: World, now: Time)
    requires InOutage(w, now)
    ensures var t := HealthyTurn(now, [ProbeKey(now)], 2); Possible(w, t) && AfterOutage(Play(w, t), now)
  {
    var t := HealthyTurn(now, [ProbeKey(now)], 2);
    OutageEnds(now, w.state);
    OneEventPublished(w, t, ItsRecovery(now), NextState(w.state, ObservedBy(w.state, t), t.listing));
  }

  lemma ThirdTurn(w: World, now: Time)
    requires AfterOutage(w, now)
    ensures var t := DownTurn(now, Some(ALERTS_ONLY), 6);
      var next := NextState(w.state, ObservedBy(w.state, t), []);
      && Possible(w, t) && Play(w, t) == Publish(w, t, [FirstAlert(now)], next)
      && next.outbox == [FirstAlert(now), ItsRecovery(now), FirstAlert(now)]
      && next.active == map[ProbeKey(now) := Entry(P0, Some(Generation(ProbeKey(now), now)), now)]
  {
    OutageAgain(now, w.state, Some(ALERTS_ONLY), 6);
  }

  /** The call is for an alert of a generation whose recovery an earlier commit holds. */
  ghost predicate Stale(w: World, c: Call) {
    && c.message.Alert? && c.message.event.action != Recovery
    && exists p, r :: 0 <= p < c.epoch <= |w.commits| && r in w.commits[p].outbox
                      && r.action == Recovery && r.generation == c.message.event.generation
  }

  lemma StaleIs(w: World, now: Time, reply: Reply)
    requires w.calls == [Call(Alert(FirstAlert(now)), now, reply, 3)] && |w.commits| == 3
    requires w.commits[1].outbox == [FirstAlert(now), ItsRecovery(now)]
    ensures |w.calls| == 1 && Stale(w, w.calls[0])
  {
    assert ItsRecovery(now) in w.commits[1].outbox;
  }

  lemma StaleIsPublished(w: World, now: Time, next: State)
    requires AfterOutage(w, now)
    requires next.outbox == [FirstAlert(now), ItsRecovery(now), FirstAlert(now)]
    requires next.active == map[ProbeKey(now) := Entry(P0, Some(Generation(ProbeKey(now), now)), now)]
    ensures var after := Publish(w, DownTurn(now, Some(ALERTS_ONLY), 6), [FirstAlert(now)], next);
      |after.calls| == 1 && Stale(after, after.calls[0])
  {
    var t := DownTurn(now, Some(ALERTS_ONLY), 6);
    AlertIsPublished(w, now, next);
    StaleIs(Publish(w, t, [FirstAlert(now)], next), now, t.sender(0));
  }

  lemma ThirdTurnIsStale(w: World, now: Time) returns (t: Turn, after: World)
    requires AfterOutage(w, now)
    ensures Happens(w, t, after) && t.now == now && |after.calls| == 1 && Stale(after, after.calls[0])
  {
    t := DownTurn(now, Some(ALERTS_ONLY), 6);
    after := Play(w, t);
    ThirdTurn(w, now);
    StaleIsPublished(w, now, NextState(w.state, ObservedBy(w.state, t), []));
  }

  lemma TurnOfLonger(ws: seq<World>, ts: seq<Turn>, t: Turn, i: nat)
    requires Trace(ws, ts) && Possible(ws[|ts|], t) && i <= |ts|
    ensures TurnAt(ws + [Play(ws[|ts|], t)], ts + [t], i)
  {
    if i < |ts| {
      assert TurnAt(ws, ts, i);
    }
  }

  lemma TraceGoesOn(ws: seq<World>, ts: seq<Turn>, t: Turn)
    requires Trace(ws, ts) && Possible(ws[|ts|], t)
    ensures Trace(ws + [Play(ws[|ts|], t)], ts + [t])
  {
    var longer := ws + [Play(ws[|ts|], t)];
    forall i: nat | i <= |ts| ensures TurnAt(longer, ts + [t], i) {
      TurnOfLonger(ws, ts, t, i);
    }
  }

  /** One more turn. */
  lemma OneMoreTurn(ws: seq<World>, ts: seq<Turn>, t: Turn, w: World) returns (xs: seq<World>, us: seq<Turn>)
    requires Trace(ws, ts) && Happens(ws[|ts|], t, w)
    ensures Trace(xs, us) && xs == ws + [w] && us == ts + [t]
  {
    TraceGoesOn(ws, ts, t);
    xs, us := ws + [w], ts + [t];
  }

  lemma OneTurn(now: Time) returns (ws: seq<World>, ts: seq<Turn>)
    ensures Trace(ws, ts) && |ts| == 1 && ts[0].now == now && InOutage(ws[1], now)
  {
    var t, w := FirstTurn(now);
    ws, ts := OneMoreTurn([EMPTY_WORLD], [], t, w);
  }

  lemma TwoTurns(now: Time) returns (ws: seq<World>, ts: seq<Turn>)
    ensures Trace(ws, ts) && |ts| == 2 && ts[0].now == ts[1].now == now && AfterOutage(ws[2], now)
  {
    ws, ts := OneTurn(now);
    var t, w := SecondTurn(ws[1], now);
    ws, ts := OneMoreTurn(ws, ts, t, w);
  }

  /** Fresh instants are needed. The probe is down, then everything is healthy, then the probe is down again,
      all at one instant: the third poll sends an alert of the outage whose recovery the second committed. */
  lemma SameInstantSendsAStaleAlert(now: Time) returns (ws: seq<World>, ts: seq<Turn>)
    ensures Trace(ws, ts) && |ts| == 3 && ts[0].now == ts[1].now == ts[2].now == now
    ensures |ws[3].calls| == 1 && Stale(ws[3], ws[3].calls[0])
  {
    ws, ts := TwoTurns(now);
    var t, w := ThirdTurnIsStale(ws[2], now);
    ws, ts := OneMoreTurn(ws, ts, t, w);
  }
}
