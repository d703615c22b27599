/** What one poll does to every incident that was already active. */
module WatchdogAccounting {
  import opened Optional
  import opened WatchdogTypes
  import opened WatchdogClassify
  import opened WatchdogIncidents

  /** Each rule other than `capability` has at most one active entry. */
  ghost predicate OneEntryPerRule(active: map<Key, Entry>) {
    forall a, b :: a in active && b in active && a.rule == b.rule && a.rule != Capability ==> a == b
  }

  /** Every active entry carries a generation of its own key. */
  ghost predicate Generated(active: map<Key, Entry>) {
    forall k :: k in active ==> active[k].generation.Some? && active[k].generation.value.key == k
  }

  function OfRule(events: seq<Event>, rule: Rule): seq<Event> {
    if events == [] then []
    else OfRule(events[..|events| - 1], rule) +
         if events[|events| - 1].key.rule == rule then [events[|events| - 1]] else []
  }

  function OfKey(events: seq<Event>, key: Key): seq<Event> {
    if events == [] then []
    else OfKey(events[..|events| - 1], key) +
         if events[|events| - 1].key == key then [events[|events| - 1]] else []
  }

  lemma {:induction false} OfRuleConcat(a: seq<Event>, b: seq<Event>, rule: Rule)
    ensures OfRule(a + b, rule) == OfRule(a, rule) + OfRule(b, rule)
  {
    if b == [] {
      assert a + b == a;
    } else {
      assert (a + b)[..|a + b| - 1] == a + b[..|b| - 1];
      OfRuleConcat(a, b[..|b| - 1], rule);
    }
  }

  lemma {:induction false} OfKeyConcat(a: seq<Event>, b: seq<Event>, key: Key)
    ensures OfKey(a + b, key) == OfKey(a, key) + OfKey(b, key)
  {
    if b == [] {
      assert a + b == a;
    } else {
      assert (a + b)[..|a + b| - 1] == a + b[..|b| - 1];
      OfKeyConcat(a, b[..|b| - 1], key);
    }
  }

  lemma {:induction false} CurrentEntries(was: map<Key, Entry>, raised: seq<Incident>, now: Time)
    requires WellRaised(raised)
    ensures forall x :: x in raised ==>
      x.key in Current(was, raised, now) && Current(was, raised, now)[x.key] == EntryFor(was, x, now)
    ensures forall k :: k in Current(was, raised, now) ==>
      exists x :: x in raised && x.key == k && Current(was, raised, now)[k] == EntryFor(was, x, now)
  {
    if raised != [] {
      var front, last := raised[..|raised| - 1], raised[|raised| - 1];
      CurrentEntries(was, front, now);
      assert forall x :: x in raised <==> x in front || x == last;
      forall x | x in front ensures x.key != last.key {
        var j :| 0 <= j < |front| && front[j] == x;
        assert raised[j] == x;
      }
    }
  }

  lemma {:induction false} AlertsOfUnraisedRule(was: map<Key, Entry>, raised: seq<Incident>, now: Time, rule: Rule)
    requires !RuleRaised(raised, rule)
    ensures OfRule(Alerts(was, raised, now), rule) == []
  {
    if raised != [] {
      var front, last := raised[..|raised| - 1], raised[|raised| - 1];
      assert last in raised && forall x :: x in front ==> x in raised;
      AlertsOfUnraisedRule(was, front, now, rule);
      OfRuleConcat(Alerts(was, front, now), AlertsFor(was, last, now), rule);
    }
  }

  /** The alerts of a singly raised rule are exactly those of its one incident. */
  lemma {:induction false} AlertsOfRaisedRule(was: map<Key, Entry>, raised: seq<Incident>, now: Time, x: Incident)
    requires WellRaised(raised) && x in raised && x.key.rule != Capability
    ensures OfRule(Alerts(was, raised, now), x.key.rule) == AlertsFor(was, x, now)
  {
    var rule := x.key.rule;
    var front, last := raised[..|raised| - 1], raised[|raised| - 1];
    OfRuleConcat(Alerts(was, front, now), AlertsFor(was, last, now), rule);
    assert forall y :: y in raised <==> y in front || y == last;
    if last == x {
      forall y | y in front ensures y.key.rule != rule {
        var j :| 0 <= j < |front| && front[j] == y;
        assert raised[j] == y;
      }
      AlertsOfUnraisedRule(was, front, now, rule);
    } else {
      AlertsOfRaisedRule(was, front, now, x);
      var j :| 0 <= j < |front| && front[j] == x;
      assert raised[j] == x;
      assert last.key.rule != rule;
    }
  }

  lemma {:induction false} RecoveriesOfRaisedRule(was: map<Key, Entry>, raised: seq<Incident>, resolved: seq<Rule>,
                                                  now: Time, order: seq<Key>, rule: Rule)
    requires forall k :: k in order ==> k in was
    requires RuleRaised(raised, rule) && rule != Capability
    ensures OfRule(Recoveries(was, raised, resolved, now, order), rule) == []
  {
    if order != [] {
      var front, last := order[..|order| - 1], order[|order| - 1];
      RecoveriesOfRaisedRule(was, raised, resolved, now, front, rule);
      OfRuleConcat(Recoveries(was, raised, resolved, now, front),
                   RecoveriesFor(was, raised, resolved, now, last), rule);
    }
  }

  lemma {:induction false} AlertsOfUnraisedKey(was: map<Key, Entry>, raised: seq<Incident>, now: Time, key: Key)
    requires forall x :: x in raised ==> x.key != key
    ensures OfKey(Alerts(was, raised, now), key) == []
  {
    if raised != [] {
      var front, last := raised[..|raised| - 1], raised[|raised| - 1];
      AlertsOfUnraisedKey(was, front, now, key);
      OfKeyConcat(Alerts(was, front, now), AlertsFor(was, last, now), key);
    }
  }

  lemma {:induction false} RecoveriesOfKey(was: map<Key, Entry>, raised: seq<Incident>, resolved: seq<Rule>, now: Time,
                                           order: seq<Key>, key: Key)
    requires forall k :: k in order ==> k in was
    requires forall i, j :: 0 <= i < j < |order| ==> order[i] != order[j]
    requires key in was && FateOf(raised, resolved, key) == Recovered
    ensures OfKey(Recoveries(was, raised, resolved, now, order), key) ==
            if key in order then [RecoveryOf(was, key, now)] else []
  {
    if order != [] {
      var front, last := order[..|order| - 1], order[|order| - 1];
      RecoveriesOfKey(was, raised, resolved, now, front, key);
      OfKeyConcat(Recoveries(was, raised, resolved, now, front), RecoveriesFor(was, raised, resolved, now, last), key);
      RecoveryOfKey(was, raised, resolved, now, last, key);
      LastIsNew(order, key);
    }
  }

  lemma LastIsNew(order: seq<Key>, key: Key)
    requires order != [] && forall i, j :: 0 <= i < j < |order| ==> order[i] != order[j]
    ensures var front, last := order[..|order| - 1], order[|order| - 1];
      (key in order <==> key in front || key == last) && last !in front
  {
    assert order == order[..|order| - 1] + [order[|order| - 1]];
  }

  lemma RecoveryOfKey(was: map<Key, Entry>, raised: seq<Incident>, resolved: seq<Rule>, now: Time, last: Key, key: Key)
    requires last in was && key in was && FateOf(raised, resolved, key) == Recovered
    ensures OfKey(RecoveriesFor(was, raised, resolved, now, last), key) ==
            if last == key then [RecoveryOf(was, key, now)] else []
  {
    var one := RecoveriesFor(was, raised, resolved, now, last);
    if one != [] {
      assert one[..0] == [];
    }
  }

  lemma RaisedOnce(raised: seq<Incident>, a: Key, b: Key)
    requires WellRaised(raised) && KeyRaised(raised, a) && KeyRaised(raised, b)
    requires a.rule == b.rule && a.rule != Capability
    ensures a == b
  {
    var i :| 0 <= i < |raised| && raised[i].key == a;
    var j :| 0 <= j < |raised| && raised[j].key == b;
  }

  /** At most one entry per rule survives every poll. */
  lemma OneEntryPerRuleKept(s: State, o: Observed, order: seq<Key>)
    requires OneEntryPerRule(s.active) && WellRaised(o.raised) && Lists(order, s.active.Keys)
    ensures OneEntryPerRule(NextState(s, o, order).active)
  {
    CurrentKeys(s.active, o.raised, o.now);
    var next := NextState(s, o, order).active;
    forall a, b | a in next && b in next && a.rule == b.rule && a.rule != Capability ensures a == b {
      if RuleRaised(o.raised, a.rule) {
        RaisedOnce(o.raised, a, b);
      } else {
        assert a in s.active && b in s.active;
      }
    }
  }

  /** Accounting of one previously active key: it is still active; or its rule was raised under
      another key, with exactly one event of that rule, a `changed`; or its rule was resolved and
      exactly one event names it, a `recovery` of its own generation. */
  lemma EveryActiveKeyIsAccountedFor(s: State, o: Observed, order: seq<Key>, key: Key)
    requires OneEntryPerRule(s.active) && WellRaised(o.raised) && Lists(order, s.active.Keys)
    requires key in s.active
    ensures var next, events := NextState(s, o, order), NewEvents(s, o, order);
      || key in next.active
      || (key.rule != Capability && |OfRule(events, key.rule)| == 1 &&
          OfRule(events, key.rule)[0].action == Changed && OfRule(events, key.rule)[0].key in next.active)
      || (key.rule in o.resolved && OfKey(events, key) == [RecoveryOf(s.active, key, o.now)] &&
          key in next.resolved && next.resolved[key] == Resolved(GenerationOf(key, s.active[key]), o.now))
  {
    var was := s.active;
    CurrentEntries(was, o.raised, o.now);
    match FateOf(o.raised, o.resolved, key)
    case Superseded =>
      var x :| x in o.raised && x.key.rule == key.rule;
      assert x.key !in was;
      assert AlertsFor(was, x, o.now)[0].action == Changed;
      AlertsOfRaisedRule(was, o.raised, o.now, x);
      RecoveriesOfRaisedRule(was, o.raised, o.resolved, o.now, order, key.rule);
      OfRuleConcat(Alerts(was, o.raised, o.now), Recoveries(was, o.raised, o.resolved, o.now, order), key.rule);
    case Recovered =>
      AlertsOfUnraisedKey(was, o.raised, o.now, key);
      RecoveriesOfKey(was, o.raised, o.resolved, o.now, order, key);
      OfKeyConcat(Alerts(was, o.raised, o.now), Recoveries(was, o.raised, o.resolved, o.now, order), key);
    case _ =>
  }

  lemma {:induction false} AlertOrigin(was: map<Key, Entry>, raised: seq<Incident>, now: Time, e: Event)
    requires e in Alerts(was, raised, now)
    ensures exists x :: x in raised && e in AlertsFor(was, x, now)
  {
    var front, last := raised[..|raised| - 1], raised[|raised| - 1];
    assert last in raised;
    if e !in AlertsFor(was, last, now) {
      AlertOrigin(was, front, now, e);
      var x :| x in front && e in AlertsFor(was, x, now);
      assert x in raised;
    }
  }

  lemma {:induction false} RecoveryOrigin(was: map<Key, Entry>, raised: seq<Incident>, resolved: seq<Rule>, now: Time,
                                          order: seq<Key>, e: Event)
    requires forall k :: k in order ==> k in was
    requires e in Recoveries(was, raised, resolved, now, order)
    ensures e.key in order && FateOf(raised, resolved, e.key) == Recovered && e == RecoveryOf(was, e.key, now)
  {
    var front, last := order[..|order| - 1], order[|order| - 1];
    assert last in order && forall k :: k in front ==> k in order;
    if e in Recoveries(was, raised, resolved, now, front) {
      RecoveryOrigin(was, raised, resolved, now, front, e);
    }
  }

  /** An alert speaks for the entry active under its key in the state it is committed with. */
  lemma AlertMeaning(s: State, o: Observed, order: seq<Key>, e: Event)
    requires WellRaised(o.raised) && Lists(order, s.active.Keys)
    requires e in Alerts(s.active, o.raised, o.now)
    ensures e.observedAt == o.now && e.action != Recovery
    ensures var active := NextState(s, o, order).active;
      e.key in active && active[e.key].generation == Some(e.generation) && active[e.key].severity == e.severity
  {
    AlertOrigin(s.active, o.raised, o.now, e);
    var x :| x in o.raised && e in AlertsFor(s.active, x, o.now);
    RaisedEntry(s, o, order, x);
    AlertIs(s.active, x, o.now, e);
  }

  lemma RaisedEntry(s: State, o: Observed, order: seq<Key>, x: Incident)
    requires WellRaised(o.raised) && Lists(order, s.active.Keys) && x in o.raised
    ensures var active := NextState(s, o, order).active;
      x.key in active && active[x.key] == EntryFor(s.active, x, o.now)
  {
    CurrentEntries(s.active, o.raised, o.now);
    assert KeyRaised(o.raised, x.key);
    assert x.key !in KeptAmong(s.active, o.raised, o.resolved, s.active.Keys);
  }

  lemma AlertIs(was: map<Key, Entry>, x: Incident, now: Time, e: Event)
    requires e in AlertsFor(was, x, now)
    ensures e.observedAt == now && e.action != Recovery && e.key == x.key && e.severity == x.severity
    ensures EntryFor(was, x, now).generation == Some(e.generation) && EntryFor(was, x, now).severity == e.severity
  {
  }

  /** A recovery speaks for an entry that just left the active map under a resolved rule. */
  lemma RecoveryMeaning(s: State, o: Observed, order: seq<Key>, e: Event)
    requires WellRaised(o.raised) && Lists(order, s.active.Keys)
    requires e in Recoveries(s.active, o.raised, o.resolved, o.now, order)
    ensures e.observedAt == o.now && e.action == Recovery && e.key.rule in o.resolved
    ensures e.key in s.active && e.generation == GenerationOf(e.key, s.active[e.key])
    ensures var next := NextState(s, o, order);
      e.key !in next.active && e.key in next.resolved && next.resolved[e.key] == Resolved(e.generation, o.now)
  {
    RecoveryOrigin(s.active, o.raised, o.resolved, o.now, order, e);
    CurrentKeys(s.active, o.raised, o.now);
  }

  /** An entry after the poll carries the generation its key had before it, or a generation born now. */
  lemma NextGenerations(s: State, o: Observed, order: seq<Key>)
    requires Generated(s.active) && WellRaised(o.raised) && Lists(order, s.active.Keys)
    ensures var next := NextState(s, o, order).active;
      Generated(next) &&
      forall k :: k in next ==>
        if k in s.active then next[k].generation == s.active[k].generation
        else next[k].generation == Some(Generation(k, o.now))
  {
    var next := NextState(s, o, order).active;
    forall k | k in next
      ensures next[k].generation == if k in s.active then s.active[k].generation else Some(Generation(k, o.now))
    {
      NextGeneration(s, o, order, k);
    }
  }

  lemma NextGeneration(s: State, o: Observed, order: seq<Key>, k: Key)
    requires Generated(s.active) && WellRaised(o.raised) && Lists(order, s.active.Keys)
    requires k in NextState(s, o, order).active
    ensures NextState(s, o, order).active[k].generation ==
            if k in s.active then s.active[k].generation else Some(Generation(k, o.now))
  {
    CurrentKeys(s.active, o.raised, o.now);
    if KeyRaised(o.raised, k) {
      var x :| x in o.raised && x.key == k;
      RaisedEntry(s, o, order, x);
    }
  }
}
