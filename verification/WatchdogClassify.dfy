/** One health poll turned into raised incidents and verified rule resolutions
    (`classify` in scripts/monitor_watchdog.py). */
module WatchdogClassify {
  import opened Optional
  import opened WatchdogTypes

  datatype Status = Ok | Unhealthy | StatusUnavailable

  datatype ProcessView = ProcessView(status: Status, running: bool, heartbeatFresh: bool,
                                     heartbeatAt: Option<Time>, boot: Option<string>, reason: Option<string>)

  datatype AccountView = AccountView(status: Status, mode: Option<string>, complete: Option<bool>,
                                     evaluatedAt: Option<Time>)

  datatype DataView = DataView(status: Status, evaluatedAt: Option<Time>, missing: seq<string>)

  /** `manualReviews` is the integer counter when the snapshot carries one. */
  datatype DeliveryView = DeliveryView(observed: bool, manualReviews: Option<int>)

  /** A report accepted by `validate_report`. */
  datatype Report = Report(checkedAt: Time, process: ProcessView, account: AccountView,
                           data: DataView, newsOk: bool, delivery: DeliveryView)

  /** Everything one poll sees. `session` is None when the calendar raised; `report` is None when
      the probe failed, with `probeError` its code if there was one. */
  datatype Input = Input(now: Time, session: Option<Session>, report: Option<Report>,
                         probeError: Option<string>, prior: Poll)

  const KNOWN_PROCESS_REASONS: set<string> := {
    "process_heartbeat_missing", "process_heartbeat_invalid", "process_heartbeat_stale",
    "process_heartbeat_process_mismatch", "process_heartbeat_monitor_not_running",
    "process_lease_changed_during_observation", "process_lease_invalid"}

  const CAPABILITIES: seq<string> := ["MoneyFlow", "Kline", "Tick", "OrderBook", "News"]

  predicate Fresh(at: Option<Time>, now: Time) {
    at.Some? && -5 * SECOND <= now - at.value <= 600 * SECOND
  }

  function SessionOf(i: Input): Session {
    if i.session.Some? then i.session.value else Unavailable
  }

  predicate Trading(s: Session) {
    s == Morning || s == Afternoon
  }

  function BootOf(i: Input): string {
    if i.report.Some? && i.report.value.process.boot.Some? then i.report.value.process.boot.value else "unknown"
  }

  predicate SnapshotFresh(i: Input)
    requires i.report.Some?
  {
    Fresh(Some(i.report.value.checkedAt), i.now)
  }

  predicate ProcessHealthy(i: Input)
    requires i.report.Some?
  {
    var p := i.report.value.process;
    SnapshotFresh(i) && p.running && p.status == Ok && p.heartbeatFresh && Fresh(p.heartbeatAt, i.now)
  }

  predicate DataAvailable(i: Input)
    requires i.report.Some?
  {
    var d := i.report.value.data;
    SnapshotFresh(i) && d.status != StatusUnavailable && Fresh(d.evaluatedAt, i.now)
  }

  predicate QuoteAbsent(i: Input)
    requires i.report.Some?
  {
    DataAvailable(i) && "Quote" in i.report.value.data.missing
  }

  predicate AccountHealthy(i: Input)
    requires i.report.Some?
  {
    var a := i.report.value.account;
    && SnapshotFresh(i) && a.status == Ok && a.mode == Some("Normal") && a.complete == Some(true)
    && Fresh(a.evaluatedAt, i.now)
  }

  function DataReason(i: Input): Option<Reason>
    requires i.report.Some?
  {
    if QuoteAbsent(i) then Some(QuoteMissing)
    else if !DataAvailable(i) then Some(DataObservationUnavailable) else None
  }

  function Token(i: Input): QuoteToken
    requires i.report.Some?
  {
    QuoteToken(DateOf(i.now), SessionOf(i), BootOf(i), DataReason(i))
  }

  /** The previous committed poll is recent enough and saw the very same data problem. */
  predicate Consecutive(i: Input)
    requires i.report.Some?
  {
    i.prior.pollAt.Some? && 0 < i.now - i.prior.pollAt.value <= 120 * SECOND &&
    i.prior.quoteToken == Some(Token(i))
  }

  function Streak(i: Input): nat {
    if i.report.Some? && DataReason(i).Some? && Trading(SessionOf(i)) then
      if Consecutive(i) then (if i.prior.quoteStreak >= 1 then 2 else 1) else 1
    else 0
  }

  function PollOf(i: Input): Poll {
    Poll(Streak(i), if i.report.Some? then Some(Token(i)) else None, Some(i.now))
  }

  function Raise(i: Input, rule: Rule, reason: Reason, severity: Severity): Incident {
    Incident(Key(rule, reason, DateOf(i.now), BootOf(i)), severity)
  }

  function ProcessReason(i: Input): Reason
    requires i.report.Some?
  {
    var r := i.report.value.process.reason;
    ProcessFailure(if r.Some? && r.value in KNOWN_PROCESS_REASONS then r.value else "process_unavailable")
  }

  function MissingAmong(i: Input, names: seq<string>): seq<Incident>
    requires i.report.Some?
  {
    if names == [] then []
    else MissingAmong(i, names[..|names| - 1]) +
         if names[|names| - 1] in i.report.value.data.missing
         then [Raise(i, Capability, MissingCapability(names[|names| - 1]), P2)] else []
  }

  predicate DataRaised(i: Input)
    requires i.report.Some?
  {
    DataReason(i).Some? && (!DataAvailable(i) || Trading(SessionOf(i)) || SessionOf(i) == Auction)
  }

  /** What one rule contributes to the poll's incidents. */
  function RaisedBy(i: Input, rule: Rule): seq<Incident> {
    if rule == Calendar then
      if i.session.None? then [Raise(i, Calendar, CalendarUnavailable, P1)] else []
    else if i.report.None? then
      if rule == Probe
      then [Raise(i, Probe, ProbeFailure(if i.probeError.Some? then i.probeError.value else "probe_unavailable"), P0)]
      else []
    else match rule
      case Process => if ProcessHealthy(i) then [] else [Raise(i, Process, ProcessReason(i), P0)]
      case Data =>
        if DataRaised(i)
        then [Raise(i, Data, DataReason(i).value, if Trading(SessionOf(i)) && Streak(i) >= 2 then P0 else P1)]
        else []
      case Account => if AccountHealthy(i) then [] else [Raise(i, Account, AccountUnavailableOrFrozen, P1)]
      case Capability => if DataAvailable(i) then MissingAmong(i, CAPABILITIES) else []
      case News => if i.report.value.newsOk then [] else [Raise(i, News, NewsRecoveryUnavailable, P2)]
      case Delivery =>
        var n := i.report.value.delivery.manualReviews;
        if n.Some? && n.value > 0 then [Raise(i, Delivery, DurableManualReview, P2)] else []
      case _ => []
  }

  /** Whether the poll carries positive evidence that a rule's condition is over. */
  predicate ResolvedBy(i: Input, rule: Rule) {
    if rule == Calendar then i.session.Some?
    else if i.report.None? then false
    else match rule
      case Probe => true
      case Process => ProcessHealthy(i)
      case Data =>
        (DataAvailable(i) && !QuoteAbsent(i)) ||
        (QuoteAbsent(i) && (SessionOf(i) == Closed || SessionOf(i) == LunchBreak || SessionOf(i) == AfterHours))
      case Account => AccountHealthy(i)
      case Capability => DataAvailable(i)
      case News => i.report.value.newsOk
      case Delivery => i.report.value.delivery.observed && i.report.value.delivery.manualReviews == Some(0)
      case _ => false
  }

  function ServiceIncidents(i: Input): seq<Incident> {
    RaisedBy(i, Account) + RaisedBy(i, Capability) + RaisedBy(i, News) + RaisedBy(i, Delivery)
  }

  function Incidents(i: Input): seq<Incident> {
    RaisedBy(i, Calendar) + RaisedBy(i, Probe) + RaisedBy(i, Process) + RaisedBy(i, Data) + ServiceIncidents(i)
  }

  /** What the incident store relies on: keys are distinct, and a rule other than `capability`
      is raised at most once. */
  predicate WellRaised(incidents: seq<Incident>) {
    && (forall j, k :: 0 <= j < k < |incidents| ==> incidents[j].key != incidents[k].key)
    && (forall j, k :: 0 <= j < k < |incidents| && incidents[j].key.rule == incidents[k].key.rule
          ==> incidents[j].key.rule == Capability)
  }

  function When(condition: bool, rule: Rule): (r: seq<Rule>)
    ensures forall x :: x in r <==> condition && x == rule
  {
    if condition then [rule] else []
  }

  lemma ResolvedServicesMembers(i: Input, rule: Rule)
    ensures rule in ResolvedServices(i) <==>
      ResolvedBy(i, rule) && (rule == Account || rule == Capability || rule == News || rule == Delivery)
  {
    var a := When(ResolvedBy(i, Account), Account) + When(ResolvedBy(i, Capability), Capability);
    assert rule in a <==> ResolvedBy(i, rule) && (rule == Account || rule == Capability);
    var b := a + When(ResolvedBy(i, News), News);
    assert rule in b <==> rule in a || (ResolvedBy(i, rule) && rule == News);
  }

  /** The resolved rules in the order the poll appends them. */
  function ResolvedRules(i: Input): seq<Rule> {
    When(ResolvedBy(i, Calendar), Calendar) + When(ResolvedBy(i, Probe), Probe) +
    When(ResolvedBy(i, Process), Process) + When(ResolvedBy(i, Data), Data) + ResolvedServices(i)
  }

  function ResolvedServices(i: Input): seq<Rule> {
    When(ResolvedBy(i, Account), Account) + When(ResolvedBy(i, Capability), Capability) +
    When(ResolvedBy(i, News), News) + When(ResolvedBy(i, Delivery), Delivery)
  }

  lemma ResolvedRulesMembers(i: Input, rule: Rule)
    ensures rule in ResolvedRules(i) <==> ResolvedBy(i, rule)
  {
    ResolvedServicesMembers(i, rule);
    var a := When(ResolvedBy(i, Calendar), Calendar) + When(ResolvedBy(i, Probe), Probe);
    assert rule in a <==> ResolvedBy(i, rule) && (rule == Calendar || rule == Probe);
    var b := a + When(ResolvedBy(i, Process), Process);
    assert rule in b <==> rule in a || (ResolvedBy(i, rule) && rule == Process);
    var c := b + When(ResolvedBy(i, Data), Data);
    assert rule in c <==> rule in b || (ResolvedBy(i, rule) && rule == Data);
  }

  /** The imperative poll: two lists appended to while the report is inspected top to bottom. */
  method Classify(i: Input) returns (incidents: seq<Incident>, resolved: seq<Rule>, poll: Poll)
    ensures incidents == Incidents(i)
    ensures resolved == ResolvedRules(i)
    ensures poll == PollOf(i)
  {
    incidents, resolved := [], [];
    if i.session.Some? {
      resolved := resolved + [Calendar];
    } else {
      incidents := incidents + [Raise(i, Calendar, CalendarUnavailable, P1)];
    }
    if i.report.None? {
      incidents := incidents +
        [Raise(i, Probe, ProbeFailure(if i.probeError.Some? then i.probeError.value else "probe_unavailable"), P0)];
      assert forall rule :: rule != Calendar ==> !ResolvedBy(i, rule);
      assert ServiceIncidents(i) == [] && ResolvedServices(i) == [];
      return incidents, resolved, Poll(0, None, Some(i.now));
    }
    resolved := resolved + [Probe];
    if ProcessHealthy(i) {
      resolved := resolved + [Process];
    } else {
      incidents := incidents + [Raise(i, Process, ProcessReason(i), P0)];
    }
    assert incidents == RaisedBy(i, Calendar) + RaisedBy(i, Probe) + RaisedBy(i, Process);
    assert resolved == When(ResolvedBy(i, Calendar), Calendar) + When(ResolvedBy(i, Probe), Probe) +
                       When(ResolvedBy(i, Process), Process);
    var dataIncidents, dataResolved, streak, token := ClassifyData(i);
    incidents, resolved := incidents + dataIncidents, resolved + dataResolved;
    var otherIncidents, otherResolved := ClassifyServices(i);
    incidents, resolved := incidents + otherIncidents, resolved + otherResolved;
    poll := Poll(streak, Some(token), Some(i.now));
  }

  method ClassifyData(i: Input)
    returns (incidents: seq<Incident>, resolved: seq<Rule>, streak: nat, token: QuoteToken)
    requires i.report.Some?
    ensures incidents == RaisedBy(i, Data)
    ensures resolved == When(ResolvedBy(i, Data), Data)
    ensures streak == Streak(i) && token == Token(i)
  {
    incidents, resolved, streak := [], [], 0;
    var d, session := i.report.value.data, SessionOf(i);
    var dataAvailable := SnapshotFresh(i) && d.status != StatusUnavailable && Fresh(d.evaluatedAt, i.now);
    var missingQuote := dataAvailable && "Quote" in d.missing;
    var reason := if missingQuote then Some(QuoteMissing)
                  else if !dataAvailable then Some(DataObservationUnavailable) else None;
    var trading := session == Morning || session == Afternoon;
    token := QuoteToken(DateOf(i.now), session, BootOf(i), reason);
    if reason.Some? && trading {
      var consecutive := i.prior.pollAt.Some? && 0 < i.now - i.prior.pollAt.value <= 120 * SECOND &&
                         i.prior.quoteToken == Some(token);
      if consecutive {
        streak := if i.prior.quoteStreak + 1 < 2 then i.prior.quoteStreak + 1 else 2;
      } else {
        streak := 1;
      }
    }
    if (dataAvailable && !missingQuote) ||
       (missingQuote && (session == Closed || session == LunchBreak || session == AfterHours)) {
      resolved := [Data];
    }
    if reason.Some? {
      if !dataAvailable || trading || session == Auction {
        incidents := [Raise(i, Data, reason.value, if trading && streak >= 2 then P0 else P1)];
      }
    }
  }

  method ClassifyCapabilities(i: Input) returns (incidents: seq<Incident>)
    requires i.report.Some?
    ensures incidents == MissingAmong(i, CAPABILITIES)
  {
    incidents := [];
    for k := 0 to |CAPABILITIES|
      invariant incidents == MissingAmong(i, CAPABILITIES[..k])
    {
      assert CAPABILITIES[..k + 1][..k] == CAPABILITIES[..k];
      if CAPABILITIES[k] in i.report.value.data.missing {
        incidents := incidents + [Raise(i, Capability, MissingCapability(CAPABILITIES[k]), P2)];
      }
    }
    assert CAPABILITIES[..|CAPABILITIES|] == CAPABILITIES;
  }

  method ClassifyServices(i: Input) returns (incidents: seq<Incident>, resolved: seq<Rule>)
    requires i.report.Some?
    ensures incidents == ServiceIncidents(i)
    ensures resolved == ResolvedServices(i)
  {
    incidents, resolved := [], [];
    var report := i.report.value;
    if !AccountHealthy(i) {
      incidents := [Raise(i, Account, AccountUnavailableOrFrozen, P1)];
    } else {
      resolved := [Account];
    }
    assert incidents == RaisedBy(i, Account) && resolved == When(ResolvedBy(i, Account), Account);
    if DataAvailable(i) {
      resolved := resolved + [Capability];
      var missing := ClassifyCapabilities(i);
      incidents := incidents + missing;
    }
    assert incidents == RaisedBy(i, Account) + RaisedBy(i, Capability);
    assert resolved == When(ResolvedBy(i, Account), Account) + When(ResolvedBy(i, Capability), Capability);
    if !report.newsOk {
      incidents := incidents + [Raise(i, News, NewsRecoveryUnavailable, P2)];
    } else {
      resolved := resolved + [News];
    }
    assert incidents == RaisedBy(i, Account) + RaisedBy(i, Capability) + RaisedBy(i, News);
    if report.delivery.manualReviews.Some? && report.delivery.manualReviews.value > 0 {
      incidents := incidents + [Raise(i, Delivery, DurableManualReview, P2)];
    } else if report.delivery.observed && report.delivery.manualReviews == Some(0) {
      resolved := resolved + [Delivery];
    }
  }

  lemma {:induction false} MissingAmongShape(i: Input, names: seq<string>)
    requires i.report.Some?
    requires forall j, k :: 0 <= j < k < |names| ==> names[j] != names[k]
    ensures forall x :: x in MissingAmong(i, names) ==>
      x.key.rule == Capability && x.key.reason.MissingCapability? && x.key.reason.name in names
    ensures forall j, k :: 0 <= j < k < |MissingAmong(i, names)| ==>
      MissingAmong(i, names)[j].key != MissingAmong(i, names)[k].key
  {
    if names != [] {
      var front := names[..|names| - 1];
      MissingAmongShape(i, front);
      var shorter := MissingAmong(i, front);
      forall j | 0 <= j < |shorter| ensures shorter[j].key.reason != MissingCapability(names[|names| - 1]) {
        assert shorter[j] in shorter;
      }
    }
  }

  /** Concatenating well-raised lists that share no rule keeps them well raised. */
  lemma WellRaisedConcat(a: seq<Incident>, b: seq<Incident>)
    requires WellRaised(a) && WellRaised(b)
    requires forall x, y :: x in a && y in b ==> x.key.rule != y.key.rule
    ensures WellRaised(a + b)
  {
    var c := a + b;
    forall j, k | 0 <= j < k < |c| ensures c[j].key != c[k].key
    {
      if j < |a| && k >= |a| {
        assert c[j] in a && c[k] in b;
      }
    }
    forall j, k | 0 <= j < k < |c|
      ensures c[j].key.rule == c[k].key.rule ==> c[j].key.rule == Capability
    {
      if j < |a| && k >= |a| {
        assert c[j] in a && c[k] in b;
      }
    }
  }

  lemma RaisedByShape(i: Input, rule: Rule)
    ensures WellRaised(RaisedBy(i, rule))
    ensures forall x :: x in RaisedBy(i, rule) ==> x.key.rule == rule && x.key.date == DateOf(i.now)
  {
    if i.report.Some? && rule == Capability {
      MissingAmongShape(i, CAPABILITIES);
      MissingAmongDate(i, CAPABILITIES);
    }
  }

  lemma {:induction false} MissingAmongDate(i: Input, names: seq<string>)
    requires i.report.Some?
    ensures forall x :: x in MissingAmong(i, names) ==> x.key.date == DateOf(i.now)
  {
    if names != [] {
      MissingAmongDate(i, names[..|names| - 1]);
    }
  }

  /** Well raised, and each incident one its own rule calls for, the rules being among these. */
  ghost predicate RaisedUnder(i: Input, incidents: seq<Incident>, rules: set<Rule>) {
    WellRaised(incidents) && forall x :: x in incidents ==> x.key.rule in rules && x in RaisedBy(i, x.key.rule)
  }

  lemma OneRule(i: Input, rule: Rule)
    ensures RaisedUnder(i, RaisedBy(i, rule), {rule})
  {
    RaisedByShape(i, rule);
  }

  lemma RaisedConcat(i: Input, a: seq<Incident>, b: seq<Incident>, p: set<Rule>, q: set<Rule>)
    requires RaisedUnder(i, a, p) && RaisedUnder(i, b, q) && p !! q
    ensures RaisedUnder(i, a + b, p + q)
  {
    WellRaisedConcat(a, b);
  }

  lemma ServicesWellRaised(i: Input)
    ensures RaisedUnder(i, ServiceIncidents(i), {Account, Capability, News, Delivery})
  {
    OneRule(i, Account);
    OneRule(i, Capability);
    OneRule(i, News);
    OneRule(i, Delivery);
    var a, b, c, d := RaisedBy(i, Account), RaisedBy(i, Capability), RaisedBy(i, News), RaisedBy(i, Delivery);
    RaisedConcat(i, a, b, {Account}, {Capability});
    RaisedConcat(i, a + b, c, {Account} + {Capability}, {News});
    RaisedConcat(i, a + b + c, d, {Account} + {Capability} + {News}, {Delivery});
    assert {Account} + {Capability} + {News} + {Delivery} == {Account, Capability, News, Delivery};
  }

  lemma CoreWellRaised(i: Input)
    ensures RaisedUnder(i, RaisedBy(i, Calendar) + RaisedBy(i, Probe) + RaisedBy(i, Process) + RaisedBy(i, Data),
                        {Calendar, Probe, Process, Data})
  {
    OneRule(i, Calendar);
    OneRule(i, Probe);
    OneRule(i, Process);
    OneRule(i, Data);
    var a, b, c, d := RaisedBy(i, Calendar), RaisedBy(i, Probe), RaisedBy(i, Process), RaisedBy(i, Data);
    RaisedConcat(i, a, b, {Calendar}, {Probe});
    RaisedConcat(i, a + b, c, {Calendar} + {Probe}, {Process});
    RaisedConcat(i, a + b + c, d, {Calendar} + {Probe} + {Process}, {Data});
    assert {Calendar} + {Probe} + {Process} + {Data} == {Calendar, Probe, Process, Data};
  }

  /** Distinct keys, and no rule but `capability` raised twice, in any poll. */
  lemma IncidentsWellRaised(i: Input)
    ensures WellRaised(Incidents(i))
    ensures forall x :: x in Incidents(i) ==> x in RaisedBy(i, x.key.rule)
  {
    CoreWellRaised(i);
    ServicesWellRaised(i);
    var core := RaisedBy(i, Calendar) + RaisedBy(i, Probe) + RaisedBy(i, Process) + RaisedBy(i, Data);
    RaisedConcat(i, core, ServiceIncidents(i), {Calendar, Probe, Process, Data}, {Account, Capability, News, Delivery});
  }

  /** Outside `capability`, one poll never both raises a rule and declares it resolved. */
  lemma NeverRaisedAndResolved(i: Input, x: Incident)
    requires x in Incidents(i) && x.key.rule != Capability
    ensures !ResolvedBy(i, x.key.rule)
  {
    IncidentsWellRaised(i);
    assert x in RaisedBy(i, x.key.rule);
  }

  /** The quote fields every committed poll satisfies: the streak runs exactly while a data problem
      is seen in a trading session. */
  predicate PollConsistent(p: Poll) {
    && p.quoteStreak <= 2
    && (p.quoteStreak >= 1 <==>
          p.quoteToken.Some? && p.quoteToken.value.reason.Some? && Trading(p.quoteToken.value.session))
  }

  /** A data incident escalates to P0 exactly when the trading session's previous committed poll,
      at most two minutes old, saw the same problem on the same boot. */
  lemma DataEscalatesOnSecondPoll(i: Input, x: Incident)
    requires PollConsistent(i.prior)
    requires x in Incidents(i) && x.key.rule == Data
    ensures PollConsistent(PollOf(i))
    ensures i.report.Some?
    ensures x.severity == P0 <==> Trading(SessionOf(i)) && Consecutive(i)
  {
    IncidentsWellRaised(i);
    assert x in RaisedBy(i, Data);
  }

  lemma PollStaysConsistent(i: Input)
    requires PollConsistent(i.prior)
    ensures PollConsistent(PollOf(i))
  {
    assert i.report.Some? ==> Token(i).session == SessionOf(i) && Token(i).reason == DataReason(i);
  }
}
