/** Nothing is ever unlinked that a verified archive does not hold, at any crash point of any run. */
module RotationLossless {
  import opened Optional
  import opened RotationModel

  function EntryCount(s: Store, day: Day): nat {
    if day in s.manifests && s.manifests[day].Json? then |s.manifests[day].manifest.entries| else 0
  }

  /** The archive of the day verifies and holds these very bytes under this very path. */
  predicate Held(s: Store, r: Removal) {
    var v := Validate(s, r.day, EntryCount(s, r.day));
    v.Valid? && In(r.day, r.name) in v.bodies && v.bodies[In(r.day, r.name)] == r.body
  }

  ghost predicate Lossless(s: Store) {
    forall r :: r in s.removed ==> Held(s, r)
  }

  /** Archives that exist stay as they are. */
  ghost predicate Immutable(s: Store, t: Store) {
    && (forall d :: d in s.tars ==> d in t.tars && t.tars[d] == s.tars[d])
    && (forall d :: d in s.manifests ==> d in t.manifests && t.manifests[d] == s.manifests[d])
  }

  predicate KeptOrRemoved(s: Store, t: Store, d: Day, n: Name)
    requires d in s.live && d in t.live && n in s.live[d]
  {
    if n in t.live[d] then t.live[d][n] == s.live[d][n]
    else IsMarkdown(n) && Removal(d, n, s.live[d][n].body) in t.removed
  }

  /** Every live file is still there, unchanged, or was Markdown and is recorded as removed; and
      nothing else appeared. */
  ghost predicate Conserved(s: Store, t: Store) {
    && s.removed <= t.removed
    && s.live.Keys == t.live.Keys
    && (forall d, n :: d in s.live && n in s.live[d] ==> KeptOrRemoved(s, t, d, n))
    && (forall d, n :: d in t.live && n in t.live[d] ==> n in s.live[d])
  }

  ghost predicate Kept(s: Store, t: Store) {
    Lossless(t) && Immutable(s, t) && Conserved(s, t)
  }

  lemma ValidationIgnoresBudget(s: Store, day: Day, maxMembers: nat)
    requires Validate(s, day, maxMembers).Valid?
    ensures Validate(s, day, EntryCount(s, day)) == Validate(s, day, maxMembers)
  {
  }

  /** A verification looks at nothing but the day's two files. */
  lemma ValidationIsLocal(s: Store, t: Store, day: Day)
    requires Immutable(s, t) && Validate(s, day, EntryCount(s, day)).Valid?
    ensures Validate(t, day, EntryCount(t, day)) == Validate(s, day, EntryCount(s, day))
  {
  }

  lemma LosslessUnderImmutable(s: Store, t: Store)
    requires Lossless(s) && Immutable(s, t) && t.removed == s.removed
    ensures Lossless(t)
  {
    forall r | r in t.removed ensures Held(t, r) {
      ValidationIsLocal(s, t, r.day);
    }
  }

  lemma {:induction false} ExpectedKeys(entries: seq<Entry>, e: Entry)
    requires e in entries
    ensures e.path in Expected(entries)
  {
    var front, last := entries[..|entries| - 1], entries[|entries| - 1];
    if e != last {
      ExpectedKeys(front, e);
    }
  }

  lemma {:induction false} ExpectedSize(entries: seq<Entry>)
    ensures |Expected(entries)| <= |entries|
  {
    if entries != [] {
      ExpectedSize(entries[..|entries| - 1]);
    }
  }

  /** When no path repeats, each path is expected with its own entry. */
  lemma {:induction false} ExpectedValues(entries: seq<Entry>, e: Entry)
    requires e in entries && |Expected(entries)| == |entries|
    ensures e.path in Expected(entries) && Expected(entries)[e.path] == e
  {
    var front, last := entries[..|entries| - 1], entries[|entries| - 1];
    ExpectedSize(front);
    assert Expected(entries).Keys == Expected(front).Keys + {last.path};
    assert entries == front + [last];
    assert last.path in Expected(front) ==> Expected(entries).Keys == Expected(front).Keys;
    if e in front {
      ExpectedKeys(front, e);
      assert |Expected(entries)| == |Expected(front)| + 1;
      ExpectedValues(front, e);
    }
  }

  lemma {:induction false} ReadMembersValues(expected: map<Path, Entry>, members: seq<Member>)
    requires ReadMembers(expected, members).Some?
    ensures var bodies := ReadMembers(expected, members).value;
      forall p :: p in bodies ==> p in expected && bodies[p] == expected[p].sha
  {
    if members != [] {
      ReadMembersValues(expected, members[..|members| - 1]);
    }
  }

  /** What a verified archive holds for each of its entries. */
  lemma VerifiedEntryIsHeld(s: Store, day: Day, maxMembers: nat, e: Entry)
    requires Validate(s, day, maxMembers).Valid?
    requires e in Validate(s, day, maxMembers).manifest.entries
    ensures var v := Validate(s, day, maxMembers);
      PathOk(e.path, day) && e.path in v.bodies && v.bodies[e.path] == e.sha
  {
    var v := Validate(s, day, maxMembers);
    ExpectedValues(v.manifest.entries, e);
    ReadMembersValues(Expected(v.manifest.entries), s.tars[day].members);
  }

  /** Unlinking one verified, unchanged file. */
  lemma UnlinkIsLossless(s: Store, day: Day, maxMembers: nat, e: Entry)
    requires day in s.live && Lossless(s) && Validate(s, day, maxMembers).Valid?
    requires e in Validate(s, day, maxMembers).manifest.entries
    requires SourceUnchanged(s, day, e) && e.path.name in s.live[day]
    ensures Kept(s, Unlink(s, day, e.path.name))
  {
    var n := e.path.name;
    var t := Unlink(s, day, n);
    VerifiedEntryIsHeld(s, day, maxMembers, e);
    ValidationIgnoresBudget(s, day, maxMembers);
    forall r | r in t.removed ensures Held(t, r) {
      assert Held(s, r);
      ValidationIsLocal(s, t, r.day);
    }
  }

  lemma KeptTransitive(s: Store, t: Store, u: Store)
    requires Kept(s, t) && Kept(t, u)
    ensures Kept(s, u)
  {
    forall d, n | d in s.live && n in s.live[d] ensures KeptOrRemoved(s, u, d, n) {
      assert KeptOrRemoved(s, t, d, n);
      assert n in t.live[d] ==> KeptOrRemoved(t, u, d, n);
    }
  }

  lemma KeptReflexive(s: Store)
    requires Lossless(s)
    ensures Kept(s, s)
  {
  }

  lemma PruneOneIsLossless(s: Store, step: Step, day: Day, maxMembers: nat, e: Entry)
    requires day in step.store.live && Kept(s, step.store) && Lossless(step.store)
    requires Validate(step.store, day, maxMembers).Valid? && e in Validate(step.store, day, maxMembers).manifest.entries
    ensures Kept(s, PruneOne(step, day, e).store)
  {
    if step.alive && e.path.In? && e.path.name in step.store.live[day] && SourceUnchanged(step.store, day, e) {
      UnlinkIsLossless(step.store, day, maxMembers, e);
      KeptTransitive(s, step.store, Unlink(step.store, day, e.path.name));
    }
  }

  lemma {:induction false} PruneIsLossless(s: Store, day: Day, maxMembers: nat, entries: seq<Entry>, fuel: nat)
    requires day in s.live && Lossless(s) && Validate(s, day, maxMembers).Valid?
    requires forall e :: e in entries ==> e in Validate(s, day, maxMembers).manifest.entries
    ensures var t := Prune(s, day, entries, fuel).store; Kept(s, t) && t.tars == s.tars && t.manifests == s.manifests
  {
    if entries == [] {
      KeptReflexive(s);
    } else {
      var front, e := entries[..|entries| - 1], entries[|entries| - 1];
      PruneIsLossless(s, day, maxMembers, front, fuel);
      var step := Prune(s, day, front, fuel);
      assert Validate(step.store, day, maxMembers) == Validate(s, day, maxMembers);
      PruneOneIsLossless(s, step, day, maxMembers, e);
    }
  }

  lemma PruneDayIsLossless(s: Store, day: Day, o: Options, fuel: nat)
    requires day in s.live && Lossless(s) && Validate(s, day, o.maxFiles).Valid?
    ensures Kept(s, PruneDay(s, day, o, Validate(s, day, o.maxFiles).manifest, fuel).store)
  {
    KeptReflexive(s);
    PruneIsLossless(s, day, o.maxFiles, Validate(s, day, o.maxFiles).manifest.entries, fuel);
  }

  /** Publication is exclusive, and only a verified read-back leads on to pruning. */
  lemma ArchiveDayIsLossless(s: Store, day: Day, o: Options, m: Manifest, fuel: nat)
    requires day in s.live && Lossless(s)
    ensures Kept(s, ArchiveDay(s, day, o, m, fuel).store)
  {
    var listed, published := PublishBoth(s, day, m, fuel), Published(s, day, m);
    var after := VerifyAndPrune(published, day, o, listed.fuel);
    PublishIsLossless(s, day, m, fuel);
    if listed.alive {
      VerifyAndPruneIsLossless(published, day, o, listed.fuel);
      KeptTransitive(s, published, after.store);
    }
    KeptByBoth(s, listed, after);
  }

  lemma KeptByBoth(s: Store, first: Step, second: Step)
    requires if first.alive then Kept(s, second.store) else Kept(s, first.store)
    ensures Kept(s, Then(first, second).store)
  {
  }

  lemma PublishIsLossless(s: Store, day: Day, m: Manifest, fuel: nat)
    requires Lossless(s)
    ensures Kept(s, PublishBoth(s, day, m, fuel).store)
  {
    KeptReflexive(s);
    LosslessUnderImmutable(s, PublishBoth(s, day, m, fuel).store);
  }

  lemma VerifyAndPruneIsLossless(s: Store, day: Day, o: Options, fuel: nat)
    requires day in s.live && Lossless(s)
    ensures Kept(s, VerifyAndPrune(s, day, o, fuel).store)
  {
    KeptReflexive(s);
    if Validate(s, day, o.maxFiles).Valid? {
      PruneDayIsLossless(s, day, o, fuel);
    }
  }

  lemma RotateDayIsLossless(s: Store, day: Day, o: Options, fuel: nat)
    requires day in s.live && Lossless(s) && Sorts(o.sort)
    ensures Kept(s, RotateDay(s, day, o, fuel).store)
  {
    KeptReflexive(s);
    match Choose(s, day, o)
    case Select(Some(m)) => PruneDayIsLossless(s, day, o, fuel);
    case Select(None) => NewArchiveIsLossless(s, day, o, fuel);
    case _ =>
  }

  lemma NewArchiveIsLossless(s: Store, day: Day, o: Options, fuel: nat)
    requires day in s.live && Lossless(s) && Sorts(o.sort)
    ensures Kept(s, RotateChosen(s, day, o, Select(None), fuel).store)
  {
    KeptReflexive(s);
    var entries := EntriesOf(s, day, o.sort(Markdown(s, day)));
    ArchiveDayIsLossless(s, day, o, ManifestOf(day, o.root, entries), fuel);
  }

  /** A whole run, stopped anywhere. */
  lemma {:induction false} RotateDaysIsLossless(s: Store, days: seq<Day>, o: Options, maxDates: nat, fuel: nat)
    requires (forall d :: d in days ==> d in s.live) && Sorts(o.sort) && Lossless(s)
    ensures Kept(s, RotateDays(s, days, o, maxDates, fuel).step.store)
  {
    if days == [] {
      KeptReflexive(s);
    } else {
      var front, day := days[..|days| - 1], days[|days| - 1];
      RotateDaysIsLossless(s, front, o, maxDates, fuel);
      var p := RotateDays(s, front, o, maxDates, fuel);
      RotateDayIsLossless(p.step.store, day, o, p.step.fuel);
      AdvanceIsLossless(s, p, day, maxDates, Choose(p.step.store, day, o),
                        RotateDay(p.step.store, day, o, p.step.fuel));
    }
  }

  lemma AdvanceIsLossless(s: Store, p: Progress, day: Day, maxDates: nat, choice: Choice, step: Step)
    requires Kept(s, p.step.store) && Kept(p.step.store, step.store)
    ensures Kept(s, AdvanceBy(p, day, maxDates, choice, step).step.store)
  {
    KeptTransitive(s, p.step.store, step.store);
  }

  /** What may happen between two runs: the writers change live files as they like, and archives may
      appear, but none is changed. */
  ghost predicate Elsewhere(s: Store, t: Store) {
    Immutable(s, t) && t.removed == s.removed
  }

  datatype Invocation = Invocation(days: seq<Day>, options: Options, maxDates: nat, fuel: nat)

  function RunOf(s: Store, r: Invocation): Progress
    requires (forall d :: d in r.days ==> d in s.live) && Sorts(r.options.sort)
  {
    Rotate(s, r.days, r.options, r.maxDates, r.fuel)
  }

  /** Runs and crashes interleaved with anything the writers do: `left[i]` is what the runs before run i left,
      `met[i]` what run i met. */
  ghost predicate History(left: seq<Store>, met: seq<Store>, runs: seq<Invocation>) {
    && |left| == |runs| + 1 && |met| == |runs|
    && left[0].removed == {}
    && forall i :: 0 <= i < |runs| ==> Invoked(left[i], met[i], runs[i], left[i + 1])
  }

  ghost predicate Invoked(before: Store, met: Store, r: Invocation, after: Store) {
    && Elsewhere(before, met)
    && (forall d :: d in r.days ==> d in met.live) && Sorts(r.options.sort)
    && after == RunOf(met, r).step.store
  }

  /** One run, with the time before it. */
  lemma RunIsLossless(before: Store, met: Store, r: Invocation, after: Store)
    requires Invoked(before, met, r, after) && Lossless(before)
    ensures Lossless(after) && Immutable(before, after) && Conserved(met, after)
  {
    LosslessUnderImmutable(before, met);
    KeptReflexive(met);
    RotateDaysIsLossless(met, r.days, r.options, r.maxDates, r.fuel);
  }

  lemma ImmutableChain(a: Store, b: Store, c: Store)
    requires Immutable(a, b) && Immutable(b, c)
    ensures Immutable(a, c)
  {
  }

  /** Lossless at every crash point of every run: whatever was ever unlinked is held, byte for byte,
      by an archive that verifies; no published archive ever changed; and each run accounts for every live file. */
  lemma {:induction false} EveryHistoryIsLossless(left: seq<Store>, met: seq<Store>, runs: seq<Invocation>, n: nat)
    requires History(left, met, runs) && n <= |runs|
    ensures Lossless(left[n])
    ensures forall k :: 0 <= k <= n ==> Immutable(left[k], left[n])
    ensures n > 0 ==> Conserved(met[n - 1], left[n])
  {
    if n > 0 {
      EveryHistoryIsLossless(left, met, runs, n - 1);
      assert Invoked(left[n - 1], met[n - 1], runs[n - 1], left[n]);
      RunIsLossless(left[n - 1], met[n - 1], runs[n - 1], left[n]);
      forall k | 0 <= k < n ensures Immutable(left[k], left[n]) {
        ImmutableChain(left[k], left[n - 1], left[n]);
      }
    }
  }

  /** As long as a day has no manifest nothing of it has been unlinked, and a tar left by a crash between the
      two publications stays as it is: it neither enables pruning nor is overwritten. */
  lemma UnlistedDayIsUntouched(left: seq<Store>, met: seq<Store>, runs: seq<Invocation>, n: nat, day: Day)
    requires History(left, met, runs) && n <= |runs| && day !in left[n].manifests
    ensures forall r :: r in left[n].removed ==> r.day != day
    ensures forall k :: 0 <= k <= n && day in left[k].tars ==>
      day in left[n].tars && left[n].tars[day] == left[k].tars[day]
  {
    EveryHistoryIsLossless(left, met, runs, n);
    forall r | r in left[n].removed ensures r.day != day {
      assert Held(left[n], r);
    }
    forall k | 0 <= k <= n && day in left[k].tars
      ensures day in left[n].tars && left[n].tars[day] == left[k].tars[day]
    {
      assert Immutable(left[k], left[n]);
    }
  }
}
