/** Outage generations over whole traces: when an outage that is over becomes current again. */
module WatchdogGenerations {
  import opened Optional
  import opened WatchdogTypes
  import opened WatchdogClassify
  import opened WatchdogIncidents
  import opened WatchdogAccounting
  import opened WatchdogDispatch
  import opened WatchdogProtocol
  import opened WatchdogTheorems

  predicate Active(s: State, g: Generation) {
    g.key in s.active && s.active[g.key].generation == Some(g)
  }

  /** The observation opens the generation: it raises its key, which is not active, at its very instant. */
  predicate Opening(s: State, o: Observed, g: Generation) {
    g.key !in s.active && KeyRaised(o.raised, g.key) && g.since == o.now
  }

  /** Turn t gets as far as its commit, and what it observed opens the generation. */
  ghost predicate Opens(ws: seq<World>, ts: seq<Turn>, t: int, g: Generation) {
    && 0 <= t < |ts| && |ws| == |ts| + 1
    && ws[t + 1].commits != ws[t].commits
    && Opening(ws[t].state, ObservedBy(ws[t].state, ts[t]), g)
  }

  // ----- one commit

  lemma NextActiveKeys(s: State, o: Observed, order: seq<Key>, key: Key)
    requires Lists(order, s.active.Keys) && key !in s.active
    ensures key in NextState(s, o, order).active <==> KeyRaised(o.raised, key)
  {
    CurrentKeys(s.active, o.raised, o.now);
  }

  /** A generation that is not active becomes active by an opening, and only so. */
  lemma ActivatedByOpening(s: State, o: Observed, order: seq<Key>, g: Generation)
    requires Generated(s.active) && WellRaised(o.raised) && Lists(order, s.active.Keys)
    requires !Active(s, g)
    ensures Active(NextState(s, o, order), g) <==> Opening(s, o, g)
  {
    NextGenerations(s, o, order);
    if g.key !in s.active {
      NextActiveKeys(s, o, order, g.key);
    }
  }

  /** A recovery in the next outbox was there already, or ends a generation right now. */
  lemma RecoveryOrigins(s: State, o: Observed, order: seq<Key>, e: Event)
    requires Generated(s.active) && WellRaised(o.raised) && Lists(order, s.active.Keys)
    requires e in NextState(s, o, order).outbox && e.action == Recovery
    ensures e in s.outbox || (Active(s, e.generation) && !Active(NextState(s, o, order), e.generation))
  {
    if e in Alerts(s.active, o.raised, o.now) {
      AlertMeaning(s, o, order, e);
    } else if e in Recoveries(s.active, o.raised, o.resolved, o.now, order) {
      RecoveryMeaning(s, o, order, e);
    }
  }

  lemma {:induction false} NewKeyIsAlerted(was: map<Key, Entry>, raised: seq<Incident>, now: Time, x: Incident)
    requires x in raised && x.key !in was
    ensures exists e :: e in Alerts(was, raised, now) && e.generation == Generation(x.key, now)
  {
    var front, last := raised[..|raised| - 1], raised[|raised| - 1];
    if x == last {
      var e := AlertsFor(was, last, now)[0];
      assert e in Alerts(was, raised, now);
    } else {
      NewKeyIsAlerted(was, front, now, x);
      var e :| e in Alerts(was, front, now) && e.generation == Generation(x.key, now);
      assert e in Alerts(was, raised, now);
    }
  }

  /** The committed state stands behind an alert of this generation that is in its outbox. */
  ghost predicate Alerting(s: State, g: Generation) {
    exists e :: e in s.outbox && e.action != Recovery && e.generation == g && CurrentIn(s, Alert(e))
  }

  lemma OpeningIsAlerting(s: State, o: Observed, order: seq<Key>, g: Generation)
    requires WellRaised(o.raised) && Lists(order, s.active.Keys) && Opening(s, o, g)
    ensures Alerting(NextState(s, o, order), g)
  {
    var x :| x in o.raised && x.key == g.key;
    NewKeyIsAlerted(s.active, o.raised, o.now, x);
    var e :| e in Alerts(s.active, o.raised, o.now) && e.generation == Generation(x.key, o.now);
    AlertMeaning(s, o, order, e);
    assert e in NextState(s, o, order).outbox && CurrentIn(NextState(s, o, order), Alert(e));
  }

  // ----- one turn

  /** What one turn of a trace does to the state. */
  lemma TurnCommits(ws: seq<World>, ts: seq<Turn>, t: nat)
    requires Trace(ws, ts) && t < |ts|
    ensures var s, o := ws[t].state, ObservedBy(ws[t].state, ts[t]);
      && Generated(s.active) && WellRaised(o.raised) && Lists(ts[t].listing, s.active.Keys)
      && if ws[t + 1].commits == ws[t].commits then ws[t + 1].state == s
         else && ws[t + 1].state == NextState(s, o, ts[t].listing)
              && ws[t + 1].commits == ws[t].commits + [ws[t + 1].state]
  {
    TurnOf(ws, ts, t);
    TraceIsSafe(ws, ts, t);
    PlayIsSafe(ws[t], ts[t]);
    IncidentsWellRaised(Input(ts[t].now, ts[t].session, ts[t].report, ts[t].probeError, ws[t].state.poll));
  }

  lemma ActivatedByTurn(ws: seq<World>, ts: seq<Turn>, t: nat, g: Generation)
    requires Trace(ws, ts) && t < |ts| && !Active(ws[t].state, g)
    ensures Active(ws[t + 1].state, g) <==> Opens(ws, ts, t, g)
  {
    TurnCommits(ws, ts, t);
    ActivatedByOpening(ws[t].state, ObservedBy(ws[t].state, ts[t]), ts[t].listing, g);
  }

  // ----- whole traces

  ghost function ActiveAt(ws: seq<World>, g: Generation): int -> bool {
    (c: int) => 0 <= c < |ws| && Active(ws[c].state, g)
  }

  ghost function OpenedAt(ws: seq<World>, ts: seq<Turn>, g: Generation): int -> bool {
    (t: int) => Opens(ws, ts, t, g)
  }

  ghost predicate Within(f: int -> bool, from: int, until: int) {
    exists c :: from <= c < until && f(c)
  }

  /** A switch that only opening turns on has been on exactly if it was opened. */
  lemma {:induction false} OnIffOpened(on: int -> bool, opens: int -> bool, a: int, b: int)
    requires 0 <= a <= b && !on(a) && OpensOnly(on, opens, b)
    ensures Within(on, a + 1, b + 1) <==> Within(opens, a, b)
    decreases b - a
  {
    if a < b {
      OnIffOpened(on, opens, a, b - 1);
      assert !on(b - 1) ==> (on(b) <==> opens(b - 1));
      WithinStep(on, a + 1, b);
      WithinStep(opens, a, b - 1);
    }
  }

  lemma WithinStep(f: int -> bool, from: int, until: int)
    requires from <= until
    ensures Within(f, from, until + 1) <==> Within(f, from, until) || f(until)
  {
    if c :| from <= c < until && f(c) {
      assert from <= c < until + 1;
    }
  }

  lemma ActivatedAt(ws: seq<World>, ts: seq<Turn>, t: nat, g: Generation)
    requires Trace(ws, ts) && t < |ts| && !ActiveAt(ws, g)(t)
    ensures ActiveAt(ws, g)(t + 1) <==> OpenedAt(ws, ts, g)(t)
  {
    ActivatedByTurn(ws, ts, t, g);
  }

  ghost predicate OpensOnly(on: int -> bool, opens: int -> bool, n: int) {
    forall t {:trigger opens(t)} :: 0 <= t < n && !on(t) ==> (on(t + 1) <==> opens(t))
  }

  lemma TurnsActivate(ws: seq<World>, ts: seq<Turn>, g: Generation)
    requires Trace(ws, ts)
    ensures OpensOnly(ActiveAt(ws, g), OpenedAt(ws, ts, g), |ts|)
  {
    var on, opens := ActiveAt(ws, g), OpenedAt(ws, ts, g);
    forall t {:trigger opens(t)} | 0 <= t < |ts| && !on(t) ensures on(t + 1) <==> opens(t) {
      ActivatedAt(ws, ts, t, g);
    }
  }

  /** A generation that is not active is active again some time later exactly when some turn in between
      opens it: raises its inactive key at the instant the generation is named after. */
  lemma ReturnsIffOpened(ws: seq<World>, ts: seq<Turn>, a: nat, b: nat, g: Generation)
    requires Trace(ws, ts) && a <= b < |ws| && !Active(ws[a].state, g)
    ensures Within(ActiveAt(ws, g), a + 1, b + 1) <==> Within(OpenedAt(ws, ts, g), a, b)
  {
    TurnsActivate(ws, ts, g);
    OnIffOpened(ActiveAt(ws, g), OpenedAt(ws, ts, g), a, b);
  }

  /** The generation was active and then was not. */
  ghost predicate EndedBy(ws: seq<World>, a: int, g: Generation) {
    0 <= a < |ws| - 1 && Active(ws[a].state, g) && !Active(ws[a + 1].state, g)
  }

  lemma RecoveryOfTurn(ws: seq<World>, ts: seq<Turn>, t: nat, r: Event)
    requires Trace(ws, ts) && t < |ts| && r in ws[t + 1].state.outbox && r.action == Recovery
    ensures r in ws[t].state.outbox || EndedBy(ws, t, r.generation)
  {
    TurnCommits(ws, ts, t);
    if r !in ws[t].state.outbox {
      RecoveryOrigins(ws[t].state, ObservedBy(ws[t].state, ts[t]), ts[t].listing, r);
    }
  }

  /** Each recovery in a committed outbox names a generation that some earlier turn ended. */
  lemma {:induction false} RecoveryIsOfEnded(ws: seq<World>, ts: seq<Turn>, n: nat, r: Event)
    requires Trace(ws, ts) && n < |ws| && r in ws[n].state.outbox && r.action == Recovery
    ensures exists a :: a < n && EndedBy(ws, a, r.generation)
  {
    if n > 0 {
      RecoveryOfTurn(ws, ts, n - 1, r);
      if r in ws[n - 1].state.outbox {
        RecoveryIsOfEnded(ws, ts, n - 1, r);
      }
    }
  }

  /** Commits are added one by one, each being the new state. */
  ghost predicate GrowsAt(ws: seq<World>, t: int)
    requires 0 <= t < |ws| - 1
  {
    ws[t + 1].commits == ws[t].commits || ws[t + 1].commits == ws[t].commits + [ws[t + 1].state]
  }

  ghost predicate Growing(ws: seq<World>) {
    ws != [] && ws[0].commits == [] && forall t :: 0 <= t < |ws| - 1 ==> GrowsAt(ws, t)
  }

  lemma TraceIsGrowing(ws: seq<World>, ts: seq<Turn>)
    requires Trace(ws, ts)
    ensures Growing(ws)
  {
    forall t | 0 <= t < |ws| - 1 ensures GrowsAt(ws, t) {
      TurnCommits(ws, ts, t);
    }
  }

  /** World c is the first to have commit p, which is its state. */
  ghost predicate Commits(ws: seq<World>, n: nat, p: nat, c: int)
    requires n < |ws| && p < |ws[n].commits|
  {
    0 < c <= n && |ws[c].commits| == p + 1 && |ws[c - 1].commits| == p && ws[c].state == ws[n].commits[p]
  }

  lemma {:induction false} WorldOfCommit(ws: seq<World>, n: nat, p: nat) returns (c: nat)
    requires Growing(ws) && n < |ws| && p < |ws[n].commits|
    ensures Commits(ws, n, p, c)
    decreases n
  {
    assert n > 0;
    assert GrowsAt(ws, n - 1);
    if p < |ws[n - 1].commits| {
      c := WorldOfCommit(ws, n - 1, p);
    } else {
      c := n;
    }
  }

  lemma {:induction false} CommitsAreKept(ws: seq<World>, b: nat, c: nat)
    requires Growing(ws) && b <= c < |ws|
    ensures ws[b].commits <= ws[c].commits
    decreases c
  {
    if b < c {
      CommitsAreKept(ws, b, c - 1);
      assert GrowsAt(ws, c - 1);
    }
  }

  /** The worlds of two commits are in their order. */
  lemma WorldsInOrder(ws: seq<World>, n: nat, p: nat, q: nat, cp: nat, cq: nat)
    requires Growing(ws) && n < |ws| && p <= q < |ws[n].commits| && Commits(ws, n, p, cp) && Commits(ws, n, q, cq)
    ensures cp <= cq && (p < q ==> cp < cq)
  {
    if cq < cp {
      CommitsAreKept(ws, cq, cp - 1);
    }
  }

  /** The outage ended and a later turn before world n opened its generation again. */
  ghost predicate Reopened(ws: seq<World>, ts: seq<Turn>, n: nat, g: Generation) {
    exists a, t :: EndedBy(ws, a, g) && a < t < n && Opens(ws, ts, t, g)
  }

  lemma ActiveAfterEndIsReopened(ws: seq<World>, ts: seq<Turn>, a: nat, c: nat, g: Generation)
    requires Trace(ws, ts) && a < c < |ws| && EndedBy(ws, a, g) && Active(ws[c].state, g)
    ensures Reopened(ws, ts, c, g)
  {
    ReturnsIffOpened(ws, ts, a + 1, c, g);
    assert ActiveAt(ws, g)(c);
    var t :| a + 1 <= t < c && OpenedAt(ws, ts, g)(t);
    assert Opens(ws, ts, t, g);
  }

  /** An alert of a generation whose recovery is committed is only ever sent after the generation was opened
      again. */
  lemma StaleCallNeedsReopening(ws: seq<World>, ts: seq<Turn>, n: nat, i: nat, p: nat, r: Event)
    requires Trace(ws, ts) && n < |ws| && i < |ws[n].calls|
    requires ws[n].calls[i].message.Alert? && ws[n].calls[i].message.event.action != Recovery
    requires p < ws[n].calls[i].epoch <= |ws[n].commits|
    requires r in ws[n].commits[p].outbox && r.action == Recovery
    requires r.generation == ws[n].calls[i].message.event.generation
    ensures Reopened(ws, ts, n, r.generation)
  {
    CallIsOfActive(ws, ts, n, i);
    RecoveredAndActive(ws, ts, n, p, ws[n].calls[i].epoch - 1, r);
  }

  lemma RecoveredAndActive(ws: seq<World>, ts: seq<Turn>, n: nat, p: nat, q: nat, r: Event)
    requires Trace(ws, ts) && n < |ws| && p <= q < |ws[n].commits|
    requires r in ws[n].commits[p].outbox && r.action == Recovery && Active(ws[n].commits[q], r.generation)
    ensures Reopened(ws, ts, n, r.generation)
  {
    TraceIsGrowing(ws, ts);
    var cp := WorldOfCommit(ws, n, p);
    var cq := WorldOfCommit(ws, n, q);
    WorldsInOrder(ws, n, p, q, cp, cq);
    RecoveryIsOfEnded(ws, ts, cp, r);
    var a :| a < cp && EndedBy(ws, a, r.generation);
    ActiveAfterEndIsReopened(ws, ts, a, cq, r.generation);
  }

  lemma CallIsOfActive(ws: seq<World>, ts: seq<Turn>, n: nat, i: nat)
    requires Trace(ws, ts) && n < |ws| && i < |ws[n].calls|
    requires ws[n].calls[i].message.Alert? && ws[n].calls[i].message.event.action != Recovery
    ensures var c := ws[n].calls[i];
      1 <= c.epoch <= |ws[n].commits| && Active(ws[n].commits[c.epoch - 1], c.message.event.generation)
  {
    TraceIsSafe(ws, ts, n);
    assert Backed(ws[n].commits, ws[n].calls[i]);
    assert StateOk(ws[n].commits[ws[n].calls[i].epoch - 1]);
  }

  ghost function AlertingAt(ws: seq<World>, g: Generation): int -> bool {
    (c: int) => 0 <= c < |ws| && Alerting(ws[c].state, g)
  }

  lemma OpeningTurnAlerts(ws: seq<World>, ts: seq<Turn>, t: nat, g: Generation)
    requires Trace(ws, ts) && t < |ts| && Opens(ws, ts, t, g)
    ensures Alerting(ws[t + 1].state, g)
  {
    TurnCommits(ws, ts, t);
    OpeningIsAlerting(ws[t].state, ObservedBy(ws[t].state, ts[t]), ts[t].listing, g);
  }

  /** After an outage has ended, a committed state stands behind an alert of it again exactly when a turn has
      opened the generation again. */
  lemma StaleAlertIffReopened(ws: seq<World>, ts: seq<Turn>, a: nat, b: nat, g: Generation)
    requires Trace(ws, ts) && a < b < |ws| && EndedBy(ws, a, g)
    ensures Within(AlertingAt(ws, g), a + 2, b + 1) <==> Within(OpenedAt(ws, ts, g), a + 1, b)
  {
    ReturnsIffOpened(ws, ts, a + 1, b, g);
    if c :| a + 2 <= c < b + 1 && AlertingAt(ws, g)(c) {
      AlertingWorldIsActive(ws, ts, c, g);
    }
    if t :| a + 1 <= t < b && OpenedAt(ws, ts, g)(t) {
      OpenedWorldAlerts(ws, ts, t, g);
    }
  }

  lemma AlertingWorldIsActive(ws: seq<World>, ts: seq<Turn>, c: int, g: Generation)
    requires Trace(ws, ts) && AlertingAt(ws, g)(c)
    ensures ActiveAt(ws, g)(c)
  {
    AlertingIsActive(ws, ts, c, g);
  }

  lemma OpenedWorldAlerts(ws: seq<World>, ts: seq<Turn>, t: int, g: Generation)
    requires Trace(ws, ts) && 0 <= t < |ts| && OpenedAt(ws, ts, g)(t)
    ensures AlertingAt(ws, g)(t + 1)
  {
    OpeningTurnAlerts(ws, ts, t, g);
  }

  lemma AlertingIsActive(ws: seq<World>, ts: seq<Turn>, c: nat, g: Generation)
    requires Trace(ws, ts) && c < |ws| && Alerting(ws[c].state, g)
    ensures Active(ws[c].state, g)
  {
    TraceIsSafe(ws, ts, c);
    var e :| e in ws[c].state.outbox && e.action != Recovery && e.generation == g && CurrentIn(ws[c].state, Alert(e));
    assert ws[c].state.active[e.key].generation == Some(g);
  }
}
