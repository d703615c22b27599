/** The difference between one poll and the durable active map
    (`persist_incidents` in scripts/monitor_watchdog.py, up to the first write). */
module WatchdogIncidents {
  import opened Optional
  import opened WatchdogTypes

  predicate Recent(at: Time, now: Time) {
    0 <= now - at <= DAY
  }

  function Pruned(outbox: seq<Event>, now: Time): (r: seq<Event>)
    ensures forall e :: e in r <==> e in outbox && Recent(e.observedAt, now)
  {
    if outbox == [] then []
    else
      var last := outbox[|outbox| - 1];
      assert forall e :: e in outbox <==> e in outbox[..|outbox| - 1] || e == last;
      Pruned(outbox[..|outbox| - 1], now) + if Recent(last.observedAt, now) then [last] else []
  }

  predicate RuleIn(keys: set<Key>, rule: Rule) {
    exists k :: k in keys && k.rule == rule
  }

  predicate RuleRaised(raised: seq<Incident>, rule: Rule) {
    exists x :: x in raised && x.key.rule == rule
  }

  predicate KeyRaised(raised: seq<Incident>, key: Key) {
    exists x :: x in raised && x.key == key
  }

  function ActionFor(was: map<Key, Entry>, x: Incident, now: Time): Option<Action> {
    if x.key !in was then Some(if x.key.rule != Capability && RuleIn(was.Keys, x.key.rule) then Changed else First)
    else if was[x.key].severity != x.severity then Some(Changed)
    else if x.severity == P0 && now - was[x.key].lastEventAt >= 3_600 * SECOND then Some(Reminder)
    else None
  }

  /** An entry's own generation, or the one its key and last event stand for. */
  function GenerationOf(key: Key, entry: Entry): Generation {
    if entry.generation.Some? then entry.generation.value else Generation(key, entry.lastEventAt)
  }

  function EntryFor(was: map<Key, Entry>, x: Incident, now: Time): Entry {
    var generation := if x.key in was then GenerationOf(x.key, was[x.key]) else Generation(x.key, now);
    Entry(x.severity, Some(generation), if ActionFor(was, x, now).None? then was[x.key].lastEventAt else now)
  }

  function AlertsFor(was: map<Key, Entry>, x: Incident, now: Time): seq<Event> {
    match ActionFor(was, x, now)
    case None => []
    case Some(action) => [Event(x.key, x.severity, action, EntryFor(was, x, now).generation.value, now, None)]
  }

  function Current(was: map<Key, Entry>, raised: seq<Incident>, now: Time): map<Key, Entry> {
    if raised == [] then map[]
    else
      var last := raised[|raised| - 1];
      Current(was, raised[..|raised| - 1], now)[last.key := EntryFor(was, last, now)]
  }

  function Alerts(was: map<Key, Entry>, raised: seq<Incident>, now: Time): seq<Event> {
    if raised == [] then []
    else Alerts(was, raised[..|raised| - 1], now) + AlertsFor(was, raised[|raised| - 1], now)
  }

  /** What becomes of a key that was active before the poll. */
  datatype Fate = StillRaised | Superseded | Recovered | Kept

  function FateOf(raised: seq<Incident>, resolved: seq<Rule>, key: Key): Fate {
    if KeyRaised(raised, key) then StillRaised
    else if key.rule != Capability && RuleRaised(raised, key.rule) then Superseded
    else if key.rule in resolved then Recovered
    else Kept
  }

  function RecoveryOf(was: map<Key, Entry>, key: Key, now: Time): Event
    requires key in was
  {
    Event(key, was[key].severity, Recovery, GenerationOf(key, was[key]), now, Some(was[key].lastEventAt))
  }

  function RecoveriesFor(was: map<Key, Entry>, raised: seq<Incident>, resolved: seq<Rule>, now: Time,
                         key: Key): seq<Event>
    requires key in was
  {
    if FateOf(raised, resolved, key) == Recovered then [RecoveryOf(was, key, now)] else []
  }

  function Recoveries(was: map<Key, Entry>, raised: seq<Incident>, resolved: seq<Rule>, now: Time,
                      order: seq<Key>): seq<Event>
    requires forall k :: k in order ==> k in was
  {
    if order == [] then []
    else Recoveries(was, raised, resolved, now, order[..|order| - 1]) +
         RecoveriesFor(was, raised, resolved, now, order[|order| - 1])
  }

  function KeptAmong(was: map<Key, Entry>, raised: seq<Incident>, resolved: seq<Rule>,
                     keys: set<Key>): map<Key, Entry> {
    map k | k in was && k in keys && FateOf(raised, resolved, k) == Kept :: was[k]
  }

  function ClosedAmong(was: map<Key, Entry>, raised: seq<Incident>, resolved: seq<Rule>, now: Time,
                       keys: set<Key>): map<Key, Resolved> {
    map k | k in was && k in keys && FateOf(raised, resolved, k) == Recovered :: Resolved(GenerationOf(k, was[k]), now)
  }

  function PrunedResolved(resolved: map<Key, Resolved>, now: Time): map<Key, Resolved> {
    map k | k in resolved && Recent(resolved[k].observedAt, now) :: resolved[k]
  }

  /** The order in which the durable map lists its keys. */
  ghost predicate Lists(order: seq<Key>, keys: set<Key>) {
    && (forall k :: k in order <==> k in keys)
    && (forall i, j :: 0 <= i < j < |order| ==> order[i] != order[j])
  }

  /** One poll's inputs to the store. */
  datatype Observed = Observed(raised: seq<Incident>, resolved: seq<Rule>, poll: Poll, now: Time)

  /** The events one poll writes, in writing order. */
  function NewEvents(s: State, o: Observed, order: seq<Key>): seq<Event>
    requires forall k :: k in order ==> k in s.active
  {
    Alerts(s.active, o.raised, o.now) + Recoveries(s.active, o.raised, o.resolved, o.now, order)
  }

  /** The state one poll commits. */
  function NextState(s: State, o: Observed, order: seq<Key>): State
    requires forall k :: k in order ==> k in s.active
  {
    State(Current(s.active, o.raised, o.now) + KeptAmong(s.active, o.raised, o.resolved, s.active.Keys),
          Pruned(s.outbox, o.now) + NewEvents(s, o, order),
          PrunedResolved(s.resolved, o.now) + ClosedAmong(s.active, o.raised, o.resolved, o.now, s.active.Keys),
          o.poll)
  }

  lemma {:induction false} CurrentKeys(was: map<Key, Entry>, raised: seq<Incident>, now: Time)
    ensures forall k :: k in Current(was, raised, now) <==> KeyRaised(raised, k)
  {
    if raised != [] {
      var front, last := raised[..|raised| - 1], raised[|raised| - 1];
      CurrentKeys(was, front, now);
      assert forall x :: x in raised <==> x in front || x == last;
      forall k ensures KeyRaised(raised, k) <==> KeyRaised(front, k) || k == last.key {
      }
    }
  }

  /** The accumulators of the loop over the previously active keys. */
  datatype Sweep = Sweep(current: map<Key, Entry>, closed: map<Key, Resolved>, events: seq<Event>)

  function SweepKey(was: map<Key, Entry>, raised: seq<Incident>, resolved: seq<Rule>, now: Time,
                    acc: Sweep, key: Key): Sweep
    requires key in was
  {
    match FateOf(raised, resolved, key)
    case Recovered => Sweep(acc.current, acc.closed[key := Resolved(GenerationOf(key, was[key]), now)],
                            acc.events + [RecoveryOf(was, key, now)])
    case Kept => acc.(current := acc.current[key := was[key]])
    case _ => acc
  }

  function SweepAll(was: map<Key, Entry>, raised: seq<Incident>, resolved: seq<Rule>, now: Time,
                    start: Sweep, order: seq<Key>): Sweep
    requires forall k :: k in order ==> k in was
  {
    if order == [] then start
    else SweepKey(was, raised, resolved, now,
                  SweepAll(was, raised, resolved, now, start, order[..|order| - 1]), order[|order| - 1])
  }

  /** The sweep in closed form. */
  function Swept(was: map<Key, Entry>, raised: seq<Incident>, resolved: seq<Rule>, now: Time, start: Sweep,
                 order: seq<Key>, keys: set<Key>): Sweep
    requires forall k :: k in order ==> k in was
  {
    Sweep(start.current + KeptAmong(was, raised, resolved, keys),
          start.closed + ClosedAmong(was, raised, resolved, now, keys),
          start.events + Recoveries(was, raised, resolved, now, order))
  }

  /** The sweep comes to the closed form in any listing order. */
  lemma {:induction false} SweepAllIs(was: map<Key, Entry>, raised: seq<Incident>, resolved: seq<Rule>, now: Time,
                                      start: Sweep, order: seq<Key>, keys: set<Key>)
    requires forall k :: k in order ==> k in was
    requires forall k :: k in keys <==> k in order
    ensures SweepAll(was, raised, resolved, now, start, order) == Swept(was, raised, resolved, now, start, order, keys)
    decreases |order|
  {
    if order != [] {
      var front, key := order[..|order| - 1], order[|order| - 1];
      var seen := set k | k in front;
      assert order == front + [key];
      SweepAllIs(was, raised, resolved, now, start, front, seen);
      assert keys == seen + {key};
      SweptStep(was, raised, resolved, now, start, order, seen);
    }
  }

  lemma SweptStep(was: map<Key, Entry>, raised: seq<Incident>, resolved: seq<Rule>, now: Time, start: Sweep,
                  order: seq<Key>, seen: set<Key>)
    requires (forall k :: k in order ==> k in was) && order != []
    ensures var front, key := order[..|order| - 1], order[|order| - 1];
      SweepKey(was, raised, resolved, now, Swept(was, raised, resolved, now, start, front, seen), key) ==
      Swept(was, raised, resolved, now, start, order, seen + {key})
  {
    var front, key := order[..|order| - 1], order[|order| - 1];
    var acc := Swept(was, raised, resolved, now, start, front, seen);
    SweptKept(was, raised, resolved, now, start, acc, seen, key);
    SweptClosed(was, raised, resolved, now, start, acc, seen, key);
  }

  lemma SweptKept(was: map<Key, Entry>, raised: seq<Incident>, resolved: seq<Rule>, now: Time, start: Sweep, acc: Sweep,
                  seen: set<Key>, key: Key)
    requires key in was && acc.current == start.current + KeptAmong(was, raised, resolved, seen)
    ensures SweepKey(was, raised, resolved, now, acc, key).current ==
            start.current + KeptAmong(was, raised, resolved, seen + {key})
  {
    KeptStep(was, raised, resolved, seen, key);
    PlusUpdate(start.current, KeptAmong(was, raised, resolved, seen), key, was[key]);
  }

  lemma SweptClosed(was: map<Key, Entry>, raised: seq<Incident>, resolved: seq<Rule>, now: Time, start: Sweep,
                    acc: Sweep, seen: set<Key>, key: Key)
    requires key in was && acc.closed == start.closed + ClosedAmong(was, raised, resolved, now, seen)
    ensures SweepKey(was, raised, resolved, now, acc, key).closed ==
            start.closed + ClosedAmong(was, raised, resolved, now, seen + {key})
  {
    ClosedStep(was, raised, resolved, now, seen, key);
    PlusUpdate(start.closed, ClosedAmong(was, raised, resolved, now, seen), key,
               Resolved(GenerationOf(key, was[key]), now));
  }

  lemma PlusUpdate<K, V>(a: map<K, V>, b: map<K, V>, k: K, v: V)
    ensures a + b[k := v] == (a + b)[k := v]
  {
  }

  lemma KeptStep(was: map<Key, Entry>, raised: seq<Incident>, resolved: seq<Rule>, seen: set<Key>, key: Key)
    requires key in was
    ensures KeptAmong(was, raised, resolved, seen + {key}) ==
            if FateOf(raised, resolved, key) == Kept then KeptAmong(was, raised, resolved, seen)[key := was[key]]
            else KeptAmong(was, raised, resolved, seen)
  {
  }

  lemma ClosedStep(was: map<Key, Entry>, raised: seq<Incident>, resolved: seq<Rule>, now: Time,
                   seen: set<Key>, key: Key)
    requires key in was
    ensures ClosedAmong(was, raised, resolved, now, seen + {key}) ==
            if FateOf(raised, resolved, key) == Recovered
            then ClosedAmong(was, raised, resolved, now, seen)[key := Resolved(GenerationOf(key, was[key]), now)]
            else ClosedAmong(was, raised, resolved, now, seen)
  {
  }

  /** While sweeping, a key not yet reached is current exactly when it was raised. */
  lemma {:induction false} SweepTouchesOnly(was: map<Key, Entry>, raised: seq<Incident>, resolved: seq<Rule>, now: Time,
                                            start: Sweep, order: seq<Key>, key: Key)
    requires forall k :: k in order ==> k in was
    requires key !in order
    ensures key in SweepAll(was, raised, resolved, now, start, order).current <==> key in start.current
  {
    if order != [] {
      SweepTouchesOnly(was, raised, resolved, now, start, order[..|order| - 1], key);
    }
  }

  /** The loop over the raised incidents. */
  method RaiseAll(was: map<Key, Entry>, raised: seq<Incident>, now: Time)
    returns (current: map<Key, Entry>, events: seq<Event>)
    ensures current == Current(was, raised, now)
    ensures events == Alerts(was, raised, now)
  {
    current, events := map[], [];
    for i := 0 to |raised|
      invariant current == Current(was, raised[..i], now)
      invariant events == Alerts(was, raised[..i], now)
    {
      var x := raised[i];
      assert raised[..i + 1][..i] == raised[..i];
      var action := ActionFor(was, x, now);
      var generation := if x.key in was then GenerationOf(x.key, was[x.key]) else Generation(x.key, now);
      var lastEventAt := if action.None? then was[x.key].lastEventAt else now;
      current := current[x.key := Entry(x.severity, Some(generation), lastEventAt)];
      if action.Some? {
        events := events + [Event(x.key, x.severity, action.value, generation, now, None)];
      }
    }
    assert raised[..|raised|] == raised;
  }

  lemma SweepStep(was: map<Key, Entry>, raised: seq<Incident>, resolved: seq<Rule>, now: Time,
                  start: Sweep, order: seq<Key>, j: nat)
    requires (forall k :: k in order ==> k in was) && j < |order|
    ensures SweepAll(was, raised, resolved, now, start, order[..j + 1]) ==
            SweepKey(was, raised, resolved, now, SweepAll(was, raised, resolved, now, start, order[..j]), order[j])
  {
    assert order[..j + 1][..j] == order[..j];
  }

  /** The loop body over one previously active key. */
  method CloseOne(was: map<Key, Entry>, raised: seq<Incident>, resolved: seq<Rule>, now: Time, key: Key, acc: Sweep)
    returns (current: map<Key, Entry>, closed: map<Key, Resolved>, events: seq<Event>)
    requires key in was && (key in acc.current <==> KeyRaised(raised, key))
    ensures Sweep(current, closed, events) == SweepKey(was, raised, resolved, now, acc, key)
  {
    current, closed, events := acc.current, acc.closed, acc.events;
    if key !in current {
      if RuleRaised(raised, key.rule) && key.rule != Capability {
        // the new event of the rule represents the change
      } else if key.rule in resolved {
        events := events + [RecoveryOf(was, key, now)];
        closed := closed[key := Resolved(GenerationOf(key, was[key]), now)];
      } else {
        current := current[key := was[key]];
      }
    }
  }

  /** The loop over the previously active keys. */
  method CloseAll(was: map<Key, Entry>, raised: seq<Incident>, resolved: seq<Rule>, now: Time, order: seq<Key>,
                  raisedNow: map<Key, Entry>, generations: map<Key, Resolved>)
    returns (current: map<Key, Entry>, closed: map<Key, Resolved>, events: seq<Event>)
    requires Lists(order, was.Keys)
    requires forall k :: k in raisedNow <==> KeyRaised(raised, k)
    ensures current == raisedNow + KeptAmong(was, raised, resolved, was.Keys)
    ensures closed == generations + ClosedAmong(was, raised, resolved, now, was.Keys)
    ensures events == Recoveries(was, raised, resolved, now, order)
  {
    current, closed, events := raisedNow, generations, [];
    ghost var start := Sweep(raisedNow, generations, []);
    for j := 0 to |order|
      invariant Sweep(current, closed, events) == SweepAll(was, raised, resolved, now, start, order[..j])
    {
      SweepTouchesOnly(was, raised, resolved, now, start, order[..j], order[j]);
      SweepStep(was, raised, resolved, now, start, order, j);
      current, closed, events := CloseOne(was, raised, resolved, now, order[j], Sweep(current, closed, events));
    }
    assert order[..|order|] == order;
    SweepAllIs(was, raised, resolved, now, start, order, was.Keys);
  }

  /** Everything `persist_incidents` computes before its first write. */
  method Diff(s: State, o: Observed, order: seq<Key>) returns (next: State, events: seq<Event>)
    requires Lists(order, s.active.Keys)
    ensures next == NextState(s, o, order)
    ensures events == NewEvents(s, o, order)
  {
    var current, alerts := RaiseAll(s.active, o.raised, o.now);
    CurrentKeys(s.active, o.raised, o.now);
    var active, closed, recoveries :=
      CloseAll(s.active, o.raised, o.resolved, o.now, order, current, PrunedResolved(s.resolved, o.now));
    events := alerts + recoveries;
    next := State(active, Pruned(s.outbox, o.now) + events, closed, o.poll);
  }
}
