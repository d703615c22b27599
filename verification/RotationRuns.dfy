/** Whole archive-and-prune runs over a quiescent tree. */
module RotationRuns {
  import opened RotationModel
  import opened RotationDrain
  import opened RotationResume

  /** A day goes to exactly one of the three lists of the report. */
  predicate Reported(p: Progress, q: Progress, day: Day, maxDates: nat) {
    if |p.results| >= maxDates then
      q.unexamined == p.unexamined + [day] && q.results == p.results && q.skipped == p.skipped
    else
      && q.unexamined == p.unexamined
      && (|| (q.skipped == p.skipped + [day] && q.results == p.results)
          || (q.results == p.results + [day] && q.skipped == p.skipped))
  }

  lemma AdvanceReports(p: Progress, day: Day, maxDates: nat, choice: Choice, step: Step)
    requires AdvanceBy(p, day, maxDates, choice, step).step.alive
    ensures p.step.alive && Reported(p, AdvanceBy(p, day, maxDates, choice, step), day, maxDates)
  {
  }

  ghost predicate Splits(p: Progress, days: seq<Day>, maxDates: nat) {
    && multiset(p.results) + multiset(p.skipped) + multiset(p.unexamined) == multiset(days)
    && |p.results| <= maxDates
    && |p.unexamined| <= |days| && p.unexamined == days[|days| - |p.unexamined|..]
    && (p.unexamined != [] ==> |p.results| == maxDates)
  }

  lemma CountsAdd(list: seq<Day>, day: Day)
    ensures multiset(list + [day]) == multiset(list) + multiset{day}
  {
  }

  lemma SplitsUnexamined(p: Progress, q: Progress, front: seq<Day>, day: Day, maxDates: nat)
    requires Splits(p, front, maxDates) && Reported(p, q, day, maxDates) && |p.results| >= maxDates
    ensures Splits(q, front + [day], maxDates)
  {
    var days := front + [day];
    CountsAdd(front, day);
    CountsAdd(p.unexamined, day);
    assert days[|days| - |q.unexamined|..] == front[|front| - |p.unexamined|..] + [day];
  }

  lemma SplitsExamined(p: Progress, q: Progress, front: seq<Day>, day: Day, maxDates: nat)
    requires Splits(p, front, maxDates) && Reported(p, q, day, maxDates) && |p.results| < maxDates
    ensures Splits(q, front + [day], maxDates)
  {
    var days := front + [day];
    CountsAdd(front, day);
    CountsAdd(p.results, day);
    CountsAdd(p.skipped, day);
    assert p.unexamined == [] && days[|days|..] == [];
  }

  lemma SplitsStep(p: Progress, q: Progress, front: seq<Day>, day: Day, maxDates: nat)
    requires Splits(p, front, maxDates) && Reported(p, q, day, maxDates)
    ensures Splits(q, front + [day], maxDates)
  {
    if |p.results| >= maxDates {
      SplitsUnexamined(p, q, front, day, maxDates);
    } else {
      SplitsExamined(p, q, front, day, maxDates);
    }
  }

  lemma NothingSplits(step: Step, maxDates: nat)
    ensures Splits(Progress(step, [], [], []), [], maxDates)
  {
  }

  /** Progress by progress, the report of a run that reached its end. */
  lemma {:induction false} ReportsSplit(ps: seq<Progress>, days: seq<Day>, maxDates: nat)
    requires |ps| == |days| + 1 && ps[0].results == ps[0].skipped == ps[0].unexamined == []
    requires forall i :: 0 <= i < |days| ==> Reported(ps[i], ps[i + 1], days[i], maxDates)
    ensures Splits(ps[|days|], days, maxDates)
    decreases |days|
  {
    if days == [] {
      NothingSplits(ps[0].step, maxDates);
    } else {
      var n := |days| - 1;
      var front := days[..n];
      ReportsSplit(ps[..n + 1], front, maxDates);
      assert Reported(ps[n], ps[n + 1], days[n], maxDates);
      assert days == front + [days[n]];
      SplitsStep(ps[n], ps[n + 1], front, days[n], maxDates);
    }
  }

  lemma LastDayReported(s: Store, days: seq<Day>, o: Options, maxDates: nat, fuel: nat)
    requires (forall d :: d in days ==> d in s.live) && Sorts(o.sort) && days != []
    requires RotateDays(s, days, o, maxDates, fuel).step.alive
    ensures var before := RotateDays(s, days[..|days| - 1], o, maxDates, fuel);
      before.step.alive && Reported(before, RotateDays(s, days, o, maxDates, fuel), days[|days| - 1], maxDates)
  {
    var p, day := RotateDays(s, days[..|days| - 1], o, maxDates, fuel), days[|days| - 1];
    AdvanceReports(p, day, maxDates, Choose(p.step.store, day, o), RotateDay(p.step.store, day, o, p.step.fuel));
  }

  /** The progress of a run after each day. */
  lemma {:induction false} ProgressOf(s: Store, days: seq<Day>, o: Options, maxDates: nat, fuel: nat)
    returns (ps: seq<Progress>)
    requires (forall d :: d in days ==> d in s.live) && Sorts(o.sort)
    requires RotateDays(s, days, o, maxDates, fuel).step.alive
    ensures |ps| == |days| + 1 && ps[|days|] == RotateDays(s, days, o, maxDates, fuel)
    ensures ps[0].results == ps[0].skipped == ps[0].unexamined == []
    ensures forall i :: 0 <= i < |days| ==> Reported(ps[i], ps[i + 1], days[i], maxDates)
    decreases |days|
  {
    var p := RotateDays(s, days, o, maxDates, fuel);
    if days == [] {
      ps := [p];
    } else {
      var n := |days| - 1;
      LastDayReported(s, days, o, maxDates, fuel);
      var before := ProgressOf(s, days[..n], o, maxDates, fuel);
      ps := before + [p];
      AllReported(before, p, days, maxDates);
    }
  }

  lemma AllReported(before: seq<Progress>, p: Progress, days: seq<Day>, maxDates: nat)
    requires |before| == |days| > 0 && Reported(before[|days| - 1], p, days[|days| - 1], maxDates)
    requires var front := days[..|days| - 1];
      forall i :: 0 <= i < |front| ==> Reported(before[i], before[i + 1], front[i], maxDates)
    ensures var ps := before + [p]; forall i :: 0 <= i < |days| ==> Reported(ps[i], ps[i + 1], days[i], maxDates)
  {
    var ps, front := before + [p], days[..|days| - 1];
    forall i | 0 <= i < |days| ensures Reported(ps[i], ps[i + 1], days[i], maxDates) {
      if i < |front| {
        assert Reported(before[i], before[i + 1], front[i], maxDates);
      }
    }
  }

  /** The report of a run that reached its end splits the eligible days into results, skipped and
      unexamined ones; a day is left unexamined only once the budget is used up, with all after it. */
  lemma ReportSplitsTheDays(s: Store, days: seq<Day>, o: Options, maxDates: nat, fuel: nat)
    requires (forall d :: d in days ==> d in s.live) && Sorts(o.sort)
    requires RotateDays(s, days, o, maxDates, fuel).step.alive
    ensures Splits(RotateDays(s, days, o, maxDates, fuel), days, maxDates)
  {
    var ps := ProgressOf(s, days, o, maxDates, fuel);
    ReportsSplit(ps, days, maxDates);
  }

  /** Two stores agree on everything about one day. */
  predicate SameDay(s: Store, t: Store, day: Day) {
    && (day in s.live <==> day in t.live) && (day in s.live ==> s.live[day] == t.live[day])
    && (day in s.tars <==> day in t.tars) && (day in s.tars ==> s.tars[day] == t.tars[day])
    && (day in s.manifests <==> day in t.manifests) && (day in s.manifests ==> s.manifests[day] == t.manifests[day])
  }

  lemma ChooseIsLocal(s: Store, t: Store, day: Day, o: Options)
    requires SameDay(s, t, day) && day in s.live
    ensures Markdown(s, day) == Markdown(t, day) && Choose(s, day, o) == Choose(t, day, o)
  {
    assert Markdown(s, day) == Markdown(t, day);
    assert Validate(s, day, o.maxFiles) == Validate(t, day, o.maxFiles);
  }

  lemma {:induction false} EntriesAreLocal(s: Store, t: Store, day: Day, names: seq<Name>)
    requires SameDay(s, t, day) && day in s.live && forall n :: n in names ==> n in s.live[day]
    ensures EntriesOf(s, day, names) == EntriesOf(t, day, names)
  {
    if names != [] {
      EntriesAreLocal(s, t, day, names[..|names| - 1]);
    }
  }

  lemma DayEntriesAreLocal(s: Store, t: Store, day: Day, o: Options)
    requires SameDay(s, t, day) && day in s.live && Sorts(o.sort) && Markdown(s, day) == Markdown(t, day)
    ensures DayEntries(s, day, o) == DayEntries(t, day, o)
  {
    EntriesAreLocal(s, t, day, o.sort(Markdown(s, day)));
  }

  lemma ReadyChoiceIsLocal(s: Store, t: Store, day: Day, o: Options, choice: Choice)
    requires SameDay(s, t, day) && day in s.live && Sorts(o.sort) && DayEntries(s, day, o) == DayEntries(t, day, o)
    ensures ReadyFor(s, day, o, choice) == ReadyFor(t, day, o, choice)
    ensures CostFor(s, day, o, choice) == CostFor(t, day, o, choice)
  {
  }

  lemma PrunedIsLocal(s: Store, t: Store, day: Day, names: set<Name>)
    requires SameDay(s, t, day) && day in s.live
    ensures SameDay(Pruned(s, day, names), Pruned(t, day, names), day)
  {
  }

  lemma FinalChoiceIsLocal(s: Store, t: Store, day: Day, o: Options, choice: Choice)
    requires SameDay(s, t, day) && day in s.live && Sorts(o.sort) && DayEntries(s, day, o) == DayEntries(t, day, o)
    ensures SameDay(FinalFor(s, day, o, choice), FinalFor(t, day, o, choice), day)
  {
    match choice
    case Select(Some(m)) => PrunedIsLocal(s, t, day, Names(m.entries));
    case Select(None) =>
      var m := DayManifest(s, day, o);
      PrunedIsLocal(Published(s, day, m), Published(t, day, m), day, Names(DayEntries(s, day, o)));
    case _ =>
  }

  lemma ReadyIsLocal(s: Store, t: Store, day: Day, o: Options)
    requires SameDay(s, t, day) && day in s.live && Sorts(o.sort)
    ensures Ready(s, day, o) == Ready(t, day, o) && Cost(s, day, o) == Cost(t, day, o)
    ensures SameDay(Final(s, day, o), Final(t, day, o), day)
  {
    ChooseIsLocal(s, t, day, o);
    DayEntriesAreLocal(s, t, day, o);
    ReadyChoiceIsLocal(s, t, day, o, Choose(s, day, o));
    FinalChoiceIsLocal(s, t, day, o, Choose(s, day, o));
  }

  lemma FinalTouchesOneDay(s: Store, day: Day, o: Options, choice: Choice, other: Day)
    requires day in s.live && Sorts(o.sort) && other != day
    ensures SameDay(s, FinalFor(s, day, o, choice), other)
  {
  }

  /** A finished day is skipped by the next run, at no cost to its budget. */
  lemma FinishedDayIsSkipped(s: Store, day: Day, o: Options)
    requires day in s.live && Sorts(o.sort) && o.archive && o.prune && Ready(s, day, o)
    ensures day in Final(s, day, o).live && Choose(Final(s, day, o), day, o) == Skip
  {
    ChoiceIsSensible(s, day, o);
    match Choose(s, day, o)
    case Select(Some(m)) => PrunedDayIsSkipped(s, day, o, m);
    case Select(None) =>
      PublishedDayIsValid(s, day, o);
      var m := DayManifest(s, day, o);
      PrunedDayIsSkipped(Published(s, day, m), day, o, m);
    case _ =>
  }

  lemma PrunedDayIsSkipped(s: Store, day: Day, o: Options, m: Manifest)
    requires day in s.live && o.archive && o.prune && m.root == o.root
    requires Validate(s, day, o.maxFiles).Valid? && Validate(s, day, o.maxFiles).manifest == m
    ensures Choose(Pruned(s, day, Names(m.entries)), day, o) == Skip
  {
    var t := Pruned(s, day, Names(m.entries));
    assert Validate(t, day, o.maxFiles) == Validate(s, day, o.maxFiles);
    forall e | e in m.entries && e.path.In? ensures e.path.name !in Markdown(t, day) {
      assert e.path.name in Names(m.entries);
    }
  }

  /** The days that still need work, in order. */
  function Pending(s: Store, days: seq<Day>, o: Options): seq<Day>
    requires forall d :: d in days ==> d in s.live
  {
    if days == [] then []
    else Pending(s, days[..|days| - 1], o) +
         if Choose(s, days[|days| - 1], o).Select? then [days[|days| - 1]] else []
  }

  function TotalCost(s: Store, days: seq<Day>, o: Options): nat
    requires (forall d :: d in days ==> d in s.live) && Sorts(o.sort)
  {
    if days == [] then 0 else TotalCost(s, days[..|days| - 1], o) + Cost(s, days[|days| - 1], o)
  }

  function Take(list: seq<Day>, n: nat): (r: seq<Day>)
    ensures forall d :: d in r ==> d in list
  {
    if n <= |list| then list[..n] else list
  }

  /** In t the day is as a pass over it in s would leave it. */
  ghost predicate Finished(s: Store, t: Store, d: Day, o: Options)
    requires Sorts(o.sort)
  {
    d in s.live && SameDay(Final(s, d, o), t, d)
  }

  /** The results are finished, and every other day is as it was. */
  ghost predicate Drained(s: Store, t: Store, o: Options, results: seq<Day>)
    requires Sorts(o.sort)
  {
    && (forall d :: d in results ==> Finished(s, t, d, o))
    && (forall d :: d !in results ==> SameDay(s, t, d))
  }

  lemma FinishedStays(s: Store, t: Store, u: Store, d: Day, o: Options)
    requires Sorts(o.sort) && Finished(s, t, d, o) && SameDay(t, u, d)
    ensures Finished(s, u, d, o)
  {
    SameDayChain(Final(s, d, o), t, u, d);
  }

  lemma SameDayChain(a: Store, b: Store, c: Store, d: Day)
    requires SameDay(a, b, d) && SameDay(b, c, d)
    ensures SameDay(a, c, d)
  {
  }

  ghost predicate Quiescent(s: Store, days: seq<Day>, o: Options)
    requires Sorts(o.sort)
  {
    && (forall d :: d in days ==> d in s.live && Ready(s, d, o))
    && (forall i, j :: 0 <= i < j < |days| ==> days[i] < days[j])
  }

  /** What the run has done after a prefix of the days. */
  ghost predicate Draining(s: Store, days: seq<Day>, o: Options, maxDates: nat, fuel: nat, p: Progress)
    requires (forall d :: d in days ==> d in s.live) && Sorts(o.sort)
  {
    && p.step.alive && p.step.fuel >= fuel - TotalCost(s, days, o)
    && p.results == Take(Pending(s, days, o), maxDates)
    && Drained(s, p.step.store, o, p.results)
  }

  lemma {:induction false} PendingMembers(s: Store, days: seq<Day>, o: Options, d: Day)
    requires (forall x :: x in days ==> x in s.live) && d in Pending(s, days, o)
    ensures d in days
  {
    if d in Pending(s, days[..|days| - 1], o) {
      PendingMembers(s, days[..|days| - 1], o, d);
    }
  }

  lemma PendingStep(s: Store, front: seq<Day>, day: Day, o: Options, maxDates: nat)
    requires (forall d :: d in front ==> d in s.live) && day in s.live && Sorts(o.sort)
    ensures forall d :: d in front + [day] ==> d in s.live
    ensures var taken := Take(Pending(s, front, o), maxDates);
      Take(Pending(s, front + [day], o), maxDates) ==
        if |taken| < maxDates && Choose(s, day, o).Select? then taken + [day] else taken
    ensures TotalCost(s, front + [day], o) == TotalCost(s, front, o) + Cost(s, day, o)
  {
    var days := front + [day];
    assert days[..|days| - 1] == front && days[|days| - 1] == day;
  }

  lemma DrainedStep(s: Store, t: Store, u: Store, o: Options, results: seq<Day>, day: Day)
    requires Sorts(o.sort) && Drained(s, t, o, results) && day !in results
    requires Finished(s, u, day, o) && forall d :: d != day ==> SameDay(t, u, d)
    ensures Drained(s, u, o, results + [day])
  {
    forall d | d in results + [day] ensures Finished(s, u, d, o) {
      if d != day {
        FinishedStays(s, t, u, d, o);
      }
    }
    forall d | d !in results + [day] ensures SameDay(s, u, d) {
      SameDayChain(s, t, u, d);
    }
  }

  lemma FinalDrains(s: Store, t: Store, o: Options, results: seq<Day>, day: Day)
    requires Sorts(o.sort) && Drained(s, t, o, results) && day in s.live && day !in results
    ensures day in t.live && Drained(s, Final(t, day, o), o, results + [day])
  {
    assert SameDay(s, t, day);
    ReadyIsLocal(s, t, day, o);
    forall d | d != day ensures SameDay(t, Final(t, day, o), d) {
      FinalTouchesOneDay(t, day, o, Choose(t, day, o), d);
    }
    DrainedStep(s, t, Final(t, day, o), o, results, day);
  }

  lemma NotYetDone(s: Store, front: seq<Day>, day: Day, o: Options, maxDates: nat)
    requires forall d :: d in front ==> d in s.live
    requires forall i, j :: 0 <= i < j < |front + [day]| ==> (front + [day])[i] < (front + [day])[j]
    ensures day !in Take(Pending(s, front, o), maxDates)
  {
    forall d | d in Pending(s, front, o) ensures d != day {
      PendingMembers(s, front, o, d);
      var i :| 0 <= i < |front| && front[i] == d;
      assert (front + [day])[i] == d && (front + [day])[|front|] == day;
    }
  }

  lemma AdvanceDrains(s: Store, front: seq<Day>, day: Day, o: Options, maxDates: nat, fuel: nat, p: Progress)
    requires Sorts(o.sort) && o.archive && o.prune && Quiescent(s, front + [day], o)
    requires (forall d :: d in front ==> d in s.live) && day in s.live && Ready(s, day, o)
    requires Draining(s, front, o, maxDates, fuel, p) && fuel >= TotalCost(s, front, o) + Cost(s, day, o)
    ensures (forall d :: d in front + [day] ==> d in s.live) && day in p.step.store.live
    ensures Draining(s, front + [day], o, maxDates, fuel, Advance(p, day, o, maxDates))
  {
    PendingStep(s, front, day, o, maxDates);
    NotYetDone(s, front, day, o, maxDates);
    var store := p.step.store;
    assert SameDay(s, store, day);
    ChooseIsLocal(s, store, day, o);
    ReadyIsLocal(s, store, day, o);
    ReadyDayFinishes(store, day, o, p.step.fuel);
    FinalDrains(s, store, o, p.results, day);
    DrainingStep(s, day, o, maxDates, p, Choose(store, day, o), RotateDay(store, day, o, p.step.fuel), Cost(s, day, o));
  }

  lemma DrainingStep(s: Store, day: Day, o: Options, maxDates: nat, p: Progress, choice: Choice, step: Step, cost: nat)
    requires Sorts(o.sort) && p.step.alive && |p.results| <= maxDates && Drained(s, p.step.store, o, p.results)
    requires choice != Fail
    requires step.alive && step.fuel >= p.step.fuel - cost && Drained(s, step.store, o, p.results + [day])
    ensures var q := AdvanceBy(p, day, maxDates, choice, step);
      && q.step.alive && q.step.fuel >= p.step.fuel - cost && Drained(s, q.step.store, o, q.results)
      && q.results == if |p.results| < maxDates && choice.Select? then p.results + [day] else p.results
  {
  }

  /** Drain: on a quiescent tree a run with enough time clears the first `maxDates` days that need work,
      finished days use none of that budget, and nothing else is touched. */
  lemma {:induction false} RunDrainsPendingDays(s: Store, days: seq<Day>, o: Options, maxDates: nat, fuel: nat)
    requires Sorts(o.sort) && o.archive && o.prune && Quiescent(s, days, o) && fuel >= TotalCost(s, days, o)
    ensures Draining(s, days, o, maxDates, fuel, RotateDays(s, days, o, maxDates, fuel))
  {
    if days == [] {
    } else {
      var front, day := days[..|days| - 1], days[|days| - 1];
      assert days == front + [day];
      QuiescentFront(s, front, day, o);
      RunDrainsPendingDays(s, front, o, maxDates, fuel);
      AdvanceDrains(s, front, day, o, maxDates, fuel, RotateDays(s, front, o, maxDates, fuel));
    }
  }

  lemma QuiescentFront(s: Store, front: seq<Day>, day: Day, o: Options)
    requires Sorts(o.sort) && Quiescent(s, front + [day], o)
    ensures Quiescent(s, front, o) && day in s.live && Ready(s, day, o)
    ensures TotalCost(s, front + [day], o) == TotalCost(s, front, o) + Cost(s, day, o)
  {
    var days := front + [day];
    assert day in days && forall d :: d in front ==> d in days;
    assert days[..|days| - 1] == front && days[|days| - 1] == day;
    assert forall i :: 0 <= i < |front| ==> front[i] == days[i];
  }

  /** So each of the first `maxDates` pending days needs no more work afterwards. */
  lemma DrainedDaysAreDone(s: Store, days: seq<Day>, o: Options, maxDates: nat, fuel: nat, d: Day)
    requires Sorts(o.sort) && o.archive && o.prune && Quiescent(s, days, o) && fuel >= TotalCost(s, days, o)
    requires d in Take(Pending(s, days, o), maxDates)
    ensures var t := RotateDays(s, days, o, maxDates, fuel).step.store;
      d in t.live && Choose(t, d, o) == Skip
  {
    RunDrainsPendingDays(s, days, o, maxDates, fuel);
    PendingMembers(s, days, o, d);
    FinishedDayIsSkipped(s, d, o);
    ChooseIsLocal(Final(s, d, o), RotateDays(s, days, o, maxDates, fuel).step.store, d, o);
  }
}
