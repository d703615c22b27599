/** Whole watchdog invocations: poll, event files, committed state, self-check, dispatch
    (`persist_incidents` and `main` in scripts/monitor_watchdog.py with `dispatch_mobile`).

    The lock makes invocations sequential. Each is a `Turn`, whose fuel bounds the durable actions
    it completes, so a sequence of turns is any sequence of runs and crashes.
 */
module WatchdogProtocol {
  import opened Optional
  import opened WatchdogTypes
  import opened WatchdogClassify
  import opened WatchdogIncidents
  import opened WatchdogDispatch

  const MAX_OUTBOX: nat := 4096

  datatype Config = Config(severities: set<Severity>, dailySelfCheck: bool)

  /** Everything durable, and two history variables: all sender calls and all committed states. */
  datatype World = World(events: set<Event>, state: State, selfChecks: map<int, Time>, disk: Disk,
                         calls: seq<Call>, commits: seq<State>)

  const EMPTY_WORLD: World := World({}, EMPTY_STATE, map[], Disk(map[], map[]), [], [])

  /** One invocation as its environment sees it. `listing` is the order in which `state.json` lists
      the active keys, `arrange` the order the candidates are sorted into. */
  datatype Turn = Turn(now: Time, session: Option<Session>, report: Option<Report>, probeError: Option<string>,
                       listing: seq<Key>, config: Option<Config>, arrange: seq<Event> -> seq<Event>,
                       sender: nat -> Reply, fuel: nat)

  /** Sorting only reorders. */
  ghost predicate Arranges(arrange: seq<Event> -> seq<Event>) {
    forall es {:trigger arrange(es)} :: multiset(arrange(es)) == multiset(es)
  }

  ghost predicate Possible(w: World, t: Turn) {
    && Lists(t.listing, w.state.active.Keys)
    && Arranges(t.arrange)
  }

  function ObservedBy(s: State, t: Turn): Observed {
    var i := Input(t.now, t.session, t.report, t.probeError, s.poll);
    Observed(Incidents(i), ResolvedRules(i), PollOf(i), t.now)
  }

  /** Whether the committed state still stands behind a message. */
  predicate CurrentIn(s: State, m: Message) {
    match m
    case SelfCheck(_) => true
    case Alert(e) =>
      if e.action == Recovery then
        && e.key in s.resolved && s.resolved[e.key].generation == e.generation
        && e.key !in s.active && !(e.key.rule != Capability && RuleIn(s.active.Keys, e.key.rule))
      else
        e.key in s.active && s.active[e.key].severity == e.severity && s.active[e.key].generation == Some(e.generation)
  }

  function CandidateOf(s: State, config: Config, m: Message): Candidate {
    Candidate(m, CurrentIn(s, m), match m case Alert(e) => e.severity in config.severities case SelfCheck(_) => true)
  }

  function CandidatesOf(s: State, config: Config, events: seq<Event>): seq<Candidate> {
    if events == [] then []
    else CandidatesOf(s, config, events[..|events| - 1]) + [CandidateOf(s, config, Alert(events[|events| - 1]))]
  }

  /** The candidate list, alerts first; None when building it raises. */
  function Plan(w: World, t: Turn): Option<seq<Candidate>> {
    if t.config.None? || |w.state.outbox| > MAX_OUTBOX then None
    else if exists e :: e in w.state.outbox && e !in w.events then None
    else
      var config, day := t.config.value, DateOf(t.now);
      var alerts := CandidatesOf(w.state, config, t.arrange(w.state.outbox));
      if !config.dailySelfCheck then Some(alerts)
      else if day !in w.selfChecks then None
      else Some(alerts + [CandidateOf(w.state, config, SelfCheck(w.selfChecks[day]))])
  }

  function DispatchTurn(w: World, t: Turn, fuel: nat): World {
    match Plan(w, t)
    case None => w
    case Some(candidates) =>
      var run := CarryAll(Run(w.disk, w.calls, 0, fuel), candidates, t.now, |w.commits|, t.sender);
      w.(disk := run.disk, calls := run.calls)
  }

  /** After the state is committed: the daily self-check file, then the dispatch. */
  function AfterCommit(w: World, t: Turn, fuel: nat): World {
    var day := DateOf(t.now);
    if day in w.selfChecks then DispatchTurn(w, t, fuel)
    else if fuel == 0 then w
    else DispatchTurn(w.(selfChecks := w.selfChecks[day := t.now]), t, fuel - 1)
  }

  function Prefix(events: seq<Event>, n: nat): set<Event>
    requires n <= |events|
  {
    set e | e in events[..n]
  }

  /** The world after the state replacing file is in place. */
  function Committed(w: World, written: seq<Event>, next: State): World {
    w.(events := w.events + Prefix(written, |written|), state := next, commits := w.commits + [next])
  }

  /** The actions of one invocation that computed these events and this state. */
  function Publish(w: World, t: Turn, written: seq<Event>, next: State): World {
    if t.fuel <= |written| then w.(events := w.events + Prefix(written, t.fuel))
    else AfterCommit(Committed(w, written, next), t, t.fuel - |written| - 1)
  }

  /** One invocation, up to its end or its crash. */
  function Play(w: World, t: Turn): World
    requires forall k :: k in t.listing ==> k in w.state.active
  {
    var o := ObservedBy(w.state, t);
    Publish(w, t, NewEvents(w.state, o, t.listing), NextState(w.state, o, t.listing))
  }

  /** The durable files as one object whose methods write them action by action. */
  class Watchdog {
    var events: set<Event>
    var state: State
    var selfChecks: map<int, Time>
    var receipts: map<Message, Receipt>
    var subjects: map<Subject, Message>
    var calls: seq<Call>
    var commits: seq<State>
    /** Actions left before the machine stops. */
    var fuel: nat

    function Contents(): World
      reads this
    {
      World(events, state, selfChecks, Disk(receipts, subjects), calls, commits)
    }

    constructor ()
      ensures Contents() == EMPTY_WORLD && fuel == 0
    {
      events, state, selfChecks := {}, EMPTY_STATE, map[];
      receipts, subjects, calls, commits, fuel := map[], map[], [], [], 0;
    }

    /** The state of the dispatch loop. */
    function Running(attempted: nat): Run
      reads this
    {
      Run(Disk(receipts, subjects), calls, attempted, fuel)
    }

    method WriteReceiptFile(m: Message, r: Receipt)
      requires fuel > 0
      modifies `receipts, `fuel
      ensures receipts == old(receipts)[m := r] && fuel == old(fuel) - 1
    {
      receipts := receipts[m := r];
      fuel := fuel - 1;
    }

    /** The body of the candidate loop; once the run has stopped it does nothing. */
    method CarryOne(c: Candidate, now: Time, epoch: nat, sender: nat -> Reply, attemptedBefore: nat)
      returns (attempted: nat)
      modifies `receipts, `subjects, `calls, `fuel
      ensures Running(attempted) == Carry(old(Running(attemptedBefore)), c, now, epoch, sender)
    {
      attempted := attemptedBefore;
      var m := c.message;
      if fuel == 0 {
        return;
      }
      match Decide(Disk(receipts, subjects), c, now, attempted)
      case Leave =>
      case Abort => fuel := 0;
      case Record(r) => WriteReceiptFile(m, r);
      case Attempt(r) =>
        WriteReceiptFile(m, r);
        if fuel == 0 { return; }
        subjects, fuel := subjects[m.SubjectOf() := m], fuel - 1;
        if fuel == 0 { return; }
        var reply := sender(|calls|);
        calls, attempted := calls + [Call(m, now, reply, epoch)], attempted + 1;
        if !reply.Usable() {
          fuel := 0;
        } else {
          fuel := fuel - 1;
          if fuel == 0 { return; }
          WriteReceiptFile(m, Settle(r, reply.outcome, now));
        }
    }

    /** `dispatch_mobile`. */
    method Dispatch(t: Turn)
      modifies `receipts, `subjects, `calls, `fuel
      ensures Contents() == DispatchTurn(old(Contents()), t, old(fuel))
    {
      var plan := Plan(Contents(), t);
      if plan.None? {
        return;
      }
      var candidates, attempted := plan.value, 0;
      ghost var start := Running(0);
      for i := 0 to |candidates|
        invariant Running(attempted) == CarryAll(start, candidates[..i], t.now, |commits|, t.sender)
      {
        assert candidates[..i + 1][..i] == candidates[..i];
        attempted := CarryOne(candidates[i], t.now, |commits|, t.sender, attempted);
      }
      assert candidates[..|candidates|] == candidates;
    }

    /** The event files, written one by one. */
    method WriteEvents(written: seq<Event>)
      modifies `events, `fuel
      ensures var n := if old(fuel) <= |written| then old(fuel) else |written|;
        events == old(events) + Prefix(written, n) && fuel == old(fuel) - n
    {
      var i := 0;
      while i < |written| && fuel > 0
        invariant 0 <= i <= |written|
        invariant fuel == old(fuel) - i
        invariant events == old(events) + Prefix(written, i)
      {
        assert written[..i + 1] == written[..i] + [written[i]];
        events, fuel, i := events + {written[i]}, fuel - 1, i + 1;
      }
    }

    /** The self-check file of the day, then the dispatch. */
    method Finish(t: Turn)
      modifies `selfChecks, `receipts, `subjects, `calls, `fuel
      ensures Contents() == AfterCommit(old(Contents()), t, old(fuel))
    {
      var day := DateOf(t.now);
      if day !in selfChecks {
        if fuel == 0 {
          return;
        }
        selfChecks, fuel := selfChecks[day := t.now], fuel - 1;
      }
      Dispatch(t);
    }

    /** The writes of one invocation: event files, state, self-check, receipts. */
    method PublishAll(t: Turn, written: seq<Event>, next: State)
      modifies this
      ensures Contents() == Publish(old(Contents()), t, written, next)
    {
      fuel := t.fuel;
      WriteEvents(written);
      if t.fuel <= |written| {
        return;
      }
      state, commits, fuel := next, commits + [next], fuel - 1;
      Finish(t);
    }

    /** One invocation: classify, diff, publish. */
    method Poll(t: Turn)
      requires Lists(t.listing, state.active.Keys)
      modifies this
      ensures Contents() == Play(old(Contents()), t)
    {
      var raised, resolved, poll := Classify(Input(t.now, t.session, t.report, t.probeError, state.poll));
      var o := Observed(raised, resolved, poll, t.now);
      assert o == ObservedBy(state, t);
      var next, written := Diff(state, o, t.listing);
      PublishAll(t, written, next);
    }
  }
}
