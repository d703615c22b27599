/** Whole runs that die: unless they die between a tar and its manifest, a later run ends with the same tree. */
module RotationCrash {
  import opened RotationModel
  import opened RotationResume
  import opened RotationRuns

  // ----- a pass changes one day only

  lemma {:induction false} PruneTouchesOneDay(s: Store, day: Day, entries: seq<Entry>, fuel: nat, other: Day)
    requires day in s.live && other != day
    ensures SameDay(s, Prune(s, day, entries, fuel).store, other)
  {
    if entries != [] {
      PruneTouchesOneDay(s, day, entries[..|entries| - 1], fuel, other);
    }
  }

  lemma VerifyTouchesOneDay(s: Store, day: Day, o: Options, fuel: nat, other: Day)
    requires day in s.live && other != day
    ensures SameDay(s, VerifyAndPrune(s, day, o, fuel).store, other)
  {
    var v := Validate(s, day, o.maxFiles);
    if v.Valid? {
      PruneTouchesOneDay(s, day, v.manifest.entries, fuel, other);
    }
  }

  lemma BothTouchOneDay(s: Store, first: Step, second: Step, other: Day)
    requires SameDay(s, first.store, other) && (first.alive ==> SameDay(first.store, second.store, other))
    ensures SameDay(s, Then(first, second).store, other)
  {
  }

  lemma ArchiveTouchesOneDay(s: Store, day: Day, o: Options, m: Manifest, fuel: nat, other: Day)
    requires day in s.live && other != day
    ensures SameDay(s, ArchiveDay(s, day, o, m, fuel).store, other)
  {
    var listed := PublishBoth(s, day, m, fuel);
    VerifyTouchesOneDay(Published(s, day, m), day, o, listed.fuel, other);
    BothTouchOneDay(s, listed, VerifyAndPrune(Published(s, day, m), day, o, listed.fuel), other);
  }

  lemma NewArchiveTouchesOneDay(s: Store, day: Day, o: Options, fuel: nat, other: Day, step: Step)
    requires day in s.live && Sorts(o.sort) && other != day
    requires step.store == s || step == ArchiveDay(s, day, o, DayManifest(s, day, o), fuel)
    ensures SameDay(s, step.store, other)
  {
    ArchiveTouchesOneDay(s, day, o, DayManifest(s, day, o), fuel, other);
  }

  lemma ChosenTouchesOneDay(s: Store, day: Day, o: Options, choice: Choice, fuel: nat, other: Day)
    requires day in s.live && Sorts(o.sort) && other != day
    ensures SameDay(s, RotateChosen(s, day, o, choice, fuel).store, other)
  {
    match choice
    case Select(Some(m)) => PruneTouchesOneDay(s, day, m.entries, fuel, other);
    case Select(None) =>
      var step := RotateChosen(s, day, o, choice, fuel);
      ChosenIsArchived(s, day, o, fuel);
      NewArchiveTouchesOneDay(s, day, o, fuel, other, step);
    case _ =>
  }

  // ----- a run that dies

  /** The day is in the gap, or one more pass leaves it as a pass over it in s would have. */
  ghost predicate OnTheWay(s: Store, t: Store, d: Day, o: Options)
    requires Sorts(o.sort)
  {
    d in s.live && d in t.live && (InGap(t, d) || (Ready(t, d, o) && SameDay(Final(s, d, o), Final(t, d, o), d)))
  }

  lemma OnTheWayStays(s: Store, t: Store, u: Store, d: Day, o: Options)
    requires Sorts(o.sort) && OnTheWay(s, t, d, o) && SameDay(t, u, d)
    ensures OnTheWay(s, u, d, o)
  {
    ReadyIsLocal(t, u, d, o);
    if Ready(t, d, o) && SameDay(Final(s, d, o), Final(t, d, o), d) {
      SameDayChain(Final(s, d, o), Final(t, d, o), Final(u, d, o), d);
    }
  }

  lemma UntouchedIsOnTheWay(s: Store, t: Store, d: Day, o: Options)
    requires Sorts(o.sort) && d in s.live && Ready(s, d, o) && SameDay(s, t, d)
    ensures OnTheWay(s, t, d, o)
  {
    ReadyIsLocal(s, t, d, o);
  }

  lemma PassIsOnTheWay(s: Store, t: Store, day: Day, o: Options, fuel: nat)
    requires Sorts(o.sort) && o.archive && o.prune && day in s.live && Ready(s, day, o) && SameDay(s, t, day)
    ensures OnTheWay(s, RotateDay(t, day, o, fuel).store, day, o)
  {
    ReadyIsLocal(s, t, day, o);
    CrashedDayResumes(t, day, o, fuel);
  }

  /** The days looked at so far are on the way, and the others are as they were. */
  ghost predicate Underway(s: Store, t: Store, days: seq<Day>, o: Options)
    requires Sorts(o.sort)
  {
    && (forall d :: d in days ==> OnTheWay(s, t, d, o))
    && (forall d :: d !in days ==> SameDay(s, t, d))
  }

  lemma UnderwayStep(s: Store, t: Store, u: Store, front: seq<Day>, day: Day, o: Options)
    requires Sorts(o.sort) && Underway(s, t, front, o) && OnTheWay(s, u, day, o)
    requires forall d :: d != day ==> SameDay(t, u, d)
    ensures Underway(s, u, front + [day], o)
  {
    forall d | d in front + [day] ensures OnTheWay(s, u, d, o) {
      if d != day {
        OnTheWayStays(s, t, u, d, o);
      }
    }
    forall d | d !in front + [day] ensures SameDay(s, u, d) {
      SameDayChain(s, t, u, d);
    }
  }

  lemma PassGoesOn(s: Store, t: Store, front: seq<Day>, day: Day, o: Options, fuel: nat)
    requires Sorts(o.sort) && o.archive && o.prune && Underway(s, t, front, o)
    requires day !in front && day in s.live && Ready(s, day, o)
    ensures day in t.live && Underway(s, RotateDay(t, day, o, fuel).store, front + [day], o)
    ensures Underway(s, t, front + [day], o)
  {
    assert SameDay(s, t, day);
    PassIsOnTheWay(s, t, day, o, fuel);
    forall d | d != day ensures SameDay(t, RotateDay(t, day, o, fuel).store, d) {
      ChosenTouchesOneDay(t, day, o, Choose(t, day, o), fuel, d);
    }
    UnderwayStep(s, t, RotateDay(t, day, o, fuel).store, front, day, o);
    UntouchedIsOnTheWay(s, t, day, o);
    UnderwayStep(s, t, t, front, day, o);
  }

  /** However early a run dies, every day is as it was, on the way, or in the gap. */
  lemma {:induction false} DyingRunIsUnderway(s: Store, days: seq<Day>, o: Options, maxDates: nat, fuel: nat)
    requires Sorts(o.sort) && o.archive && o.prune && Quiescent(s, days, o)
    ensures Underway(s, RotateDays(s, days, o, maxDates, fuel).step.store, days, o)
  {
    if days != [] {
      var front, day := days[..|days| - 1], days[|days| - 1];
      assert days == front + [day] && day in days;
      DyingRunIsUnderway(s, front, o, maxDates, fuel);
      var p := RotateDays(s, front, o, maxDates, fuel);
      assert day !in front;
      PassGoesOn(s, p.step.store, front, day, o, p.step.fuel);
      AdvanceIsUnderway(s, days, o, p, day, maxDates, Choose(p.step.store, day, o),
                        RotateDay(p.step.store, day, o, p.step.fuel));
    }
  }

  lemma AdvanceIsUnderway(s: Store, days: seq<Day>, o: Options, p: Progress, day: Day, maxDates: nat, choice: Choice,
                          step: Step)
    requires Sorts(o.sort) && Underway(s, p.step.store, days, o) && Underway(s, step.store, days, o)
    ensures Underway(s, AdvanceBy(p, day, maxDates, choice, step).step.store, days, o)
  {
  }

  /** The tree a run left is quiescent again exactly when no day is in the gap between tar and manifest. */
  lemma CrashedRunIsQuiescent(s: Store, days: seq<Day>, o: Options, maxDates: nat, fuel: nat)
    requires Sorts(o.sort) && o.archive && o.prune && Quiescent(s, days, o)
    ensures var c := RotateDays(s, days, o, maxDates, fuel).step.store;
      Quiescent(c, days, o) <==> forall d :: d in days ==> !InGap(c, d)
  {
    var c := RotateDays(s, days, o, maxDates, fuel).step.store;
    DyingRunIsUnderway(s, days, o, maxDates, fuel);
    forall d | d in days ensures d in c.live && (Ready(c, d, o) <==> !InGap(c, d)) {
      assert OnTheWay(s, c, d, o);
      GapIsNotReady(c, d, o);
    }
  }

  lemma GapIsNotReady(s: Store, d: Day, o: Options)
    requires Sorts(o.sort) && o.archive && d in s.live
    ensures InGap(s, d) ==> !Ready(s, d, o)
  {
    assert InGap(s, d) ==> Choose(s, d, o) == Fail;
  }

  // ----- a run that lives

  predicate SameTree(s: Store, t: Store) {
    s.live == t.live && s.tars == t.tars && s.manifests == t.manifests
  }

  lemma SameMap<K, V>(a: map<K, V>, b: map<K, V>)
    requires a.Keys == b.Keys && forall k :: k in a ==> a[k] == b[k]
    ensures a == b
  {
  }

  lemma SameDaysSameTree(s: Store, t: Store)
    requires forall d :: SameDay(s, t, d)
    ensures SameTree(s, t)
  {
    forall d
      ensures d in s.live <==> d in t.live
      ensures (d in s.tars <==> d in t.tars) && (d in s.manifests <==> d in t.manifests)
    {
      assert SameDay(s, t, d);
    }
    forall d | d in s.live ensures s.live[d] == t.live[d] {
      assert SameDay(s, t, d);
    }
    forall d | d in s.tars ensures s.tars[d] == t.tars[d] {
      assert SameDay(s, t, d);
    }
    forall d | d in s.manifests ensures s.manifests[d] == t.manifests[d] {
      assert SameDay(s, t, d);
    }
    SameMap(s.live, t.live);
    SameMap(s.tars, t.tars);
    SameMap(s.manifests, t.manifests);
  }

  lemma {:induction false} FewPending(s: Store, days: seq<Day>, o: Options)
    requires forall d :: d in days ==> d in s.live
    ensures |Pending(s, days, o)| <= |days|
    ensures forall d :: d in days && Choose(s, d, o).Select? ==> d in Pending(s, days, o)
  {
    if days != [] {
      var front, last := days[..|days| - 1], days[|days| - 1];
      assert days == front + [last];
      FewPending(s, front, o);
    }
  }

  /** A run with enough time and budget finishes every day. */
  lemma FullRunFinishesAll(s: Store, days: seq<Day>, o: Options, maxDates: nat, fuel: nat)
    requires Sorts(o.sort) && o.archive && o.prune && Quiescent(s, days, o)
    requires maxDates >= |days| && fuel >= TotalCost(s, days, o)
    ensures var t := RotateDays(s, days, o, maxDates, fuel).step.store;
      (forall d :: d in days ==> Finished(s, t, d, o)) && forall d :: d !in days ==> SameDay(s, t, d)
  {
    RunDrainsPendingDays(s, days, o, maxDates, fuel);
    FewPending(s, days, o);
    var t := RotateDays(s, days, o, maxDates, fuel).step.store;
    var results := Pending(s, days, o);
    assert Drained(s, t, o, results);
    forall d | d in days ensures Finished(s, t, d, o) {
      if d !in results {
        SkippedIsFinished(s, t, d, o);
      }
    }
    forall d | d !in days ensures SameDay(s, t, d) {
      if d in results {
        PendingMembers(s, days, o, d);
      }
    }
  }

  lemma SkippedIsFinished(s: Store, t: Store, d: Day, o: Options)
    requires Sorts(o.sort) && d in s.live && Ready(s, d, o) && !Choose(s, d, o).Select? && SameDay(s, t, d)
    ensures Finished(s, t, d, o)
  {
    assert Final(s, d, o) == s;
  }

  /** Resuming: a run that died, unless it died in the gap, followed by a run that is given its time, ends
      with the same tree as one run that was given its time. */
  lemma CrashedRunResumes(s: Store, days: seq<Day>, o: Options, maxDates: nat, fuel: nat, dates: nat, f: nat, g: nat)
    requires Sorts(o.sort) && o.archive && o.prune && Quiescent(s, days, o) && dates >= |days|
    requires var c := RotateDays(s, days, o, maxDates, fuel).step.store;
      && (forall d :: d in days ==> d in c.live && !InGap(c, d))
      && f >= TotalCost(s, days, o) && g >= TotalCost(c, days, o)
    ensures var c := RotateDays(s, days, o, maxDates, fuel).step.store;
      SameTree(RotateDays(s, days, o, dates, f).step.store, RotateDays(c, days, o, dates, g).step.store)
  {
    var c := RotateDays(s, days, o, maxDates, fuel).step.store;
    DyingRunIsUnderway(s, days, o, maxDates, fuel);
    CrashedRunIsQuiescent(s, days, o, maxDates, fuel);
    FullRunFinishesAll(s, days, o, dates, f);
    FullRunFinishesAll(c, days, o, dates, g);
    var t, u := RotateDays(s, days, o, dates, f).step.store, RotateDays(c, days, o, dates, g).step.store;
    EndsTheSame(s, c, t, u, days, o);
  }

  lemma EndsTheSame(s: Store, c: Store, t: Store, u: Store, days: seq<Day>, o: Options)
    requires Sorts(o.sort) && Underway(s, c, days, o) && forall d :: d in days ==> !InGap(c, d)
    requires forall d :: d in days ==> Finished(s, t, d, o) && Finished(c, u, d, o)
    requires forall d :: d !in days ==> SameDay(s, t, d) && SameDay(c, u, d)
    ensures SameTree(t, u)
  {
    forall d ensures SameDay(t, u, d) {
      if d in days {
        EndsTheSameOn(s, c, t, u, d, o);
      } else {
        SameDayChain(s, c, u, d);
      }
    }
    SameDaysSameTree(t, u);
  }

  lemma EndsTheSameOn(s: Store, c: Store, t: Store, u: Store, d: Day, o: Options)
    requires Sorts(o.sort) && OnTheWay(s, c, d, o) && !InGap(c, d) && Finished(s, t, d, o) && Finished(c, u, d, o)
    ensures SameDay(t, u, d)
  {
    SameDayChain(Final(s, d, o), Final(c, d, o), u, d);
  }
}
