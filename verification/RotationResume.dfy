/** A day that is ready is finished by one undisturbed pass, and a crashed pass is finished by the next
    one, with the same result, unless it stopped between its two publications. */
module RotationResume {
  import opened Optional
  import opened RotationModel
  import opened RotationLossless
  import opened RotationDrain
  import opened FiniteSets

  function DayEntries(s: Store, day: Day, o: Options): seq<Entry>
    requires day in s.live && Sorts(o.sort)
  {
    EntriesOf(s, day, o.sort(Markdown(s, day)))
  }

  function DayManifest(s: Store, day: Day, o: Options): Manifest
    requires day in s.live && Sorts(o.sort)
  {
    ManifestOf(day, o.root, DayEntries(s, day, o))
  }

  /** Nothing about the day makes a run stop that chose so: within limits, no orphans, sources unchanged. */
  ghost predicate ReadyFor(s: Store, day: Day, o: Options, choice: Choice)
    requires day in s.live && Sorts(o.sort)
  {
    match choice
    case Fail => false
    case Skip => true
    case Select(Some(m)) => SourcesUnchanged(s, day, m.entries)
    case Select(None) =>
      var entries := DayEntries(s, day, o);
      && Fits(entries) && NamesFit(entries) && (o.archive ==> day !in s.tars) && day !in s.manifests
      && Readable(DayManifest(s, day, o))
  }

  ghost predicate Ready(s: Store, day: Day, o: Options)
    requires day in s.live && Sorts(o.sort)
  {
    ReadyFor(s, day, o, Choose(s, day, o))
  }

  function CostFor(s: Store, day: Day, o: Options, choice: Choice): nat
    requires day in s.live && Sorts(o.sort)
  {
    match choice
    case Select(Some(m)) => |m.entries|
    case Select(None) => 2 + |DayEntries(s, day, o)|
    case _ => 0
  }

  /** The durable actions the day needs at most. */
  function Cost(s: Store, day: Day, o: Options): nat
    requires day in s.live && Sorts(o.sort)
  {
    CostFor(s, day, o, Choose(s, day, o))
  }

  function FinalFor(s: Store, day: Day, o: Options, choice: Choice): Store
    requires day in s.live && Sorts(o.sort)
  {
    match choice
    case Select(Some(m)) => Pruned(s, day, Names(m.entries))
    case Select(None) => Pruned(Published(s, day, DayManifest(s, day, o)), day, Names(DayEntries(s, day, o)))
    case _ => s
  }

  /** The store once an archive-and-prune pass over the day is through. */
  function Final(s: Store, day: Day, o: Options): Store
    requires day in s.live && Sorts(o.sort)
  {
    FinalFor(s, day, o, Choose(s, day, o))
  }

  // ----- the entries of a day

  lemma {:induction false} EntriesOfMembers(s: Store, day: Day, names: seq<Name>)
    requires day in s.live && forall n :: n in names ==> n in s.live[day]
    ensures |EntriesOf(s, day, names)| == |names|
    ensures forall i :: 0 <= i < |names| ==> EntriesOf(s, day, names)[i] == EntryOf(s, day, names[i])
  {
    if names != [] {
      EntriesOfMembers(s, day, names[..|names| - 1]);
    }
  }

  lemma {:induction false} ListingSize<T>(list: seq<T>, elements: set<T>)
    requires forall x :: x in list <==> x in elements
    requires forall i, j :: 0 <= i < j < |list| ==> list[i] != list[j]
    ensures |list| == |elements|
  {
    if list == [] {
      assert elements == {};
    } else {
      var front, last := list[..|list| - 1], list[|list| - 1];
      assert list == front + [last];
      ListingSize(front, elements - {last});
    }
  }

  /** The entries of a day are a snapshot of exactly its Markdown files. */
  lemma DayEntriesAreSnapshot(s: Store, day: Day, o: Options)
    requires day in s.live && Sorts(o.sort) && Fits(DayEntries(s, day, o))
    ensures Snapshot(DayEntries(s, day, o), day)
    ensures |DayEntries(s, day, o)| == |Markdown(s, day)|
    ensures Names(DayEntries(s, day, o)) == Markdown(s, day)
    ensures SourcesUnchanged(s, day, DayEntries(s, day, o))
  {
    var list := o.sort(Markdown(s, day));
    ListingSize(list, Markdown(s, day));
    EntriesAreSnapshot(s, day, list);
    NamesOfEntries(s, day, list);
  }

  lemma EntriesAreSnapshot(s: Store, day: Day, list: seq<Name>)
    requires day in s.live && forall n :: n in list ==> n in s.live[day] && n in Markdown(s, day)
    requires Fits(EntriesOf(s, day, list))
    requires forall i, j :: 0 <= i < j < |list| ==> list[i] != list[j]
    ensures var entries := EntriesOf(s, day, list);
      |entries| == |list| && Snapshot(entries, day) && SourcesUnchanged(s, day, entries)
  {
    var entries := EntriesOf(s, day, list);
    EntriesOfMembers(s, day, list);
    forall e | e in entries ensures PathOk(e.path, day) && e.size == |e.sha| <= MAX_FILE && SourceUnchanged(s, day, e) {
      var i :| 0 <= i < |entries| && entries[i] == e;
      assert list[i] in list;
    }
  }

  lemma NamesOfEntries(s: Store, day: Day, list: seq<Name>)
    requires day in s.live && forall n :: n in list ==> n in s.live[day]
    ensures forall n :: n in Names(EntriesOf(s, day, list)) <==> n in list
  {
    var entries := EntriesOf(s, day, list);
    EntriesOfMembers(s, day, list);
    forall n ensures n in Names(entries) <==> n in list {
      if n in list {
        var i :| 0 <= i < |list| && list[i] == n;
        assert entries[i] in entries;
      }
      if n in Names(entries) {
        var e :| e in entries && e.path.In? && e.path.name == n;
        var i :| 0 <= i < |entries| && entries[i] == e;
        assert list[i] in list;
      }
    }
  }

  // ----- one undisturbed pass

  /** What a pruning pass leaves: some of the listed files gone, all of them if it lives long enough. */
  predicate PrunesUpTo(s: Store, day: Day, entries: seq<Entry>, fuel: nat, step: Step, k: nat)
    requires day in s.live
  {
    && k <= |entries| && step.store == Pruned(s, day, Names(entries[..k]))
    && (step.alive ==> k == |entries|)
    && (fuel >= |entries| ==> step.alive && step.fuel >= fuel - |entries|)
  }

  lemma PruneDayFinishes(s: Store, day: Day, o: Options, m: Manifest, fuel: nat) returns (k: nat)
    requires day in s.live && o.prune && m.root == o.root && SourcesUnchanged(s, day, m.entries)
    ensures PrunesUpTo(s, day, m.entries, fuel, PruneDay(s, day, o, m, fuel), k)
  {
    k := PruneIs(s, day, m.entries, fuel);
  }

  /** The archive of a ready day is verified as soon as it is published. */
  lemma PublishedDayIsValid(s: Store, day: Day, o: Options)
    requires day in s.live && Sorts(o.sort) && ReadyFor(s, day, o, Select(None)) && |Markdown(s, day)| <= o.maxFiles
    ensures var m := DayManifest(s, day, o);
      var v := Validate(Published(s, day, m), day, o.maxFiles); v.Valid? && v.manifest == m
  {
    DayEntriesAreSnapshot(s, day, o);
    ReadBackSucceedsIffReadable(s, day, o.root, DayEntries(s, day, o), o.maxFiles);
  }

  lemma PublishedSources(s: Store, day: Day, o: Options)
    requires day in s.live && Sorts(o.sort) && Fits(DayEntries(s, day, o))
    ensures var m := DayManifest(s, day, o); SourcesUnchanged(Published(s, day, m), day, m.entries)
  {
    DayEntriesAreSnapshot(s, day, o);
  }

  lemma ChosenIsArchived(s: Store, day: Day, o: Options, fuel: nat)
    requires day in s.live && Sorts(o.sort)
    ensures var step := RotateChosen(s, day, o, Select(None), fuel);
      step.store == s || step == ArchiveDay(s, day, o, DayManifest(s, day, o), fuel)
  {
  }

  lemma ReadyDayArchives(s: Store, day: Day, o: Options, fuel: nat)
    requires day in s.live && Sorts(o.sort) && o.archive && ReadyFor(s, day, o, Select(None))
    ensures RotateChosen(s, day, o, Select(None), fuel) == ArchiveDay(s, day, o, DayManifest(s, day, o), fuel)
  {
  }

  /** The two archive files are written and verified; what is left of the run prunes. */
  lemma ArchivedManifestPrunes(s: Store, day: Day, o: Options, m: Manifest, fuel: nat, step: Step) returns (k: nat)
    requires day in s.live && o.prune && day !in s.tars && day !in s.manifests && fuel >= 2 && m.root == o.root
    requires var v := Validate(Published(s, day, m), day, o.maxFiles); v.Valid? && v.manifest == m
    requires SourcesUnchanged(Published(s, day, m), day, m.entries)
    requires step == ArchiveDay(s, day, o, m, fuel)
    ensures PrunesUpTo(Published(s, day, m), day, m.entries, fuel - 2, step, k)
  {
    ArchiveGoesOn(s, day, o, m, fuel, VerifyAndPrune(Published(s, day, m), day, o, fuel - 2));
    k := VerifiedManifestPrunes(Published(s, day, m), day, o, m, fuel - 2, step);
  }

  lemma ArchiveGoesOn(s: Store, day: Day, o: Options, m: Manifest, fuel: nat, second: Step)
    requires day in s.live && day !in s.tars && day !in s.manifests && fuel >= 2
    requires second == VerifyAndPrune(Published(s, day, m), day, o, fuel - 2)
    ensures ArchiveDay(s, day, o, m, fuel) == second
  {
  }

  lemma VerifiedManifestPrunes(s: Store, day: Day, o: Options, m: Manifest, fuel: nat, step: Step) returns (k: nat)
    requires day in s.live && o.prune && m.root == o.root && SourcesUnchanged(s, day, m.entries)
    requires var v := Validate(s, day, o.maxFiles); v.Valid? && v.manifest == m
    requires step == VerifyAndPrune(s, day, o, fuel)
    ensures PrunesUpTo(s, day, m.entries, fuel, step, k)
  {
    k := PruneDayFinishes(s, day, o, m, fuel);
  }

  lemma ArchivedDayPrunes(s: Store, day: Day, o: Options, fuel: nat, step: Step) returns (k: nat)
    requires day in s.live && Sorts(o.sort) && o.archive && o.prune && fuel >= 2
    requires ReadyFor(s, day, o, Select(None)) && |Markdown(s, day)| <= o.maxFiles
    requires step == ArchiveDay(s, day, o, DayManifest(s, day, o), fuel)
    ensures var m := DayManifest(s, day, o); PrunesUpTo(Published(s, day, m), day, m.entries, fuel - 2, step, k)
  {
    PublishedSources(s, day, o);
    PublishedDayIsValid(s, day, o);
    k := ArchivedManifestPrunes(s, day, o, DayManifest(s, day, o), fuel, step);
  }

  /** What an archiving pass over a ready day leaves when it gets past its two publications. */
  lemma ArchiveDayLeaves(s: Store, day: Day, o: Options, fuel: nat, step: Step) returns (k: nat)
    requires day in s.live && Sorts(o.sort) && o.archive && o.prune && fuel >= 2
    requires ReadyFor(s, day, o, Select(None)) && |Markdown(s, day)| <= o.maxFiles
    requires step == RotateChosen(s, day, o, Select(None), fuel)
    ensures var m := DayManifest(s, day, o); PrunesUpTo(Published(s, day, m), day, m.entries, fuel - 2, step, k)
  {
    k := ArchivedDayPrunes(s, day, o, fuel, step);
  }

  /** And before that: nothing, or the tar alone. */
  lemma ArchiveDayStops(s: Store, day: Day, o: Options, fuel: nat)
    requires day in s.live && Sorts(o.sort) && o.archive && ReadyFor(s, day, o, Select(None)) && fuel < 2
    ensures RotateChosen(s, day, o, Select(None), fuel) ==
      Step(if fuel == 0 then s else s.(tars := s.tars[day := DayManifest(s, day, o).archiveSha]), 0, false)
  {
    ReadyDayArchives(s, day, o, fuel);
  }

  /** What is known of the choice without looking how it was made. */
  ghost predicate Sensible(s: Store, day: Day, o: Options, choice: Choice)
    requires day in s.live
  {
    && (choice.Select? ==> |Markdown(s, day)| <= o.maxFiles)
    && (choice.Select? && choice.manifest.Some? ==>
          var v := Validate(s, day, o.maxFiles);
          v.Valid? && v.manifest == choice.manifest.value && v.manifest.root == o.root)
  }

  lemma ChoiceIsSensible(s: Store, day: Day, o: Options)
    requires day in s.live
    ensures Sensible(s, day, o, Choose(s, day, o))
  {
  }

  lemma ReadyChoiceFinishes(s: Store, day: Day, o: Options, choice: Choice, fuel: nat)
    requires day in s.live && Sorts(o.sort) && o.archive && o.prune
    requires Sensible(s, day, o, choice) && ReadyFor(s, day, o, choice) && fuel >= CostFor(s, day, o, choice)
    ensures var step := RotateChosen(s, day, o, choice, fuel);
      step.alive && step.store == FinalFor(s, day, o, choice) && step.fuel >= fuel - CostFor(s, day, o, choice)
  {
    match choice
    case Select(Some(m)) =>
      var k := PruneDayFinishes(s, day, o, m, fuel);
      assert m.entries[..|m.entries|] == m.entries;
    case Select(None) =>
      var k := ArchiveDayLeaves(s, day, o, fuel, RotateChosen(s, day, o, choice, fuel));
      var entries := DayEntries(s, day, o);
      assert entries[..|entries|] == entries;
    case _ =>
  }

  /** One pass with enough fuel finishes a ready day. */
  lemma ReadyDayFinishes(s: Store, day: Day, o: Options, fuel: nat)
    requires day in s.live && Sorts(o.sort) && o.archive && o.prune && Ready(s, day, o)
    requires fuel >= Cost(s, day, o)
    ensures var step := RotateDay(s, day, o, fuel);
      step.alive && step.store == Final(s, day, o) && step.fuel >= fuel - Cost(s, day, o)
  {
    ChoiceIsSensible(s, day, o);
    ReadyChoiceFinishes(s, day, o, Choose(s, day, o), fuel);
  }

  // ----- a day whose archive is too large

  /** No archiving run gets past the day any more, whatever its options and whatever the writers do. */
  ghost predicate Stuck(s: Store, day: Day) {
    forall t, o: Options, fuel: nat :: Immutable(s, t) && day in t.live && Sorts(o.sort) && o.archive ==>
      RotateDay(t, day, o, fuel) == Step(t, fuel, false)
  }

  /** A day that passes every check but whose tar or manifest is above its read limit: it is published, keeps
      all its files, and is stuck from then on. */
  lemma OversizedArchiveBlocksTheDay(s: Store, day: Day, o: Options, fuel: nat)
    requires day in s.live && Sorts(o.sort) && o.archive && fuel >= 2 && Choose(s, day, o) == Select(None)
    requires day !in s.manifests && Fits(DayEntries(s, day, o)) && NamesFit(DayEntries(s, day, o))
    requires !Readable(DayManifest(s, day, o))
    ensures var step := RotateDay(s, day, o, fuel);
      !step.alive && step.store == Published(s, day, DayManifest(s, day, o)) && Stuck(step.store, day)
  {
    var m := DayManifest(s, day, o);
    var published := Published(s, day, m);
    OversizedIsRefused(published, published, day, o, m);
    forall t, p: Options, later: nat | Immutable(published, t) && day in t.live && Sorts(p.sort) && p.archive
      ensures RotateDay(t, day, p, later) == Step(t, later, false)
    {
      OversizedIsRefused(published, t, day, p, m);
    }
  }

  lemma OversizedIsRefused(s: Store, t: Store, day: Day, o: Options, m: Manifest)
    requires day in s.manifests && s.manifests[day] == Json(m, ManifestSize(m))
    requires day in s.tars && s.tars[day] == m.archiveSha
    requires !Readable(m) && Immutable(s, t) && day in t.live && o.archive
    ensures Validate(t, day, o.maxFiles) == Refused && Choose(t, day, o) == Fail
  {
  }

  // ----- the pass after a crash

  lemma PrunedAbsent(s: Store, day: Day, names: set<Name>)
    requires day in s.live && forall n :: n in names ==> n !in s.live[day]
    ensures Pruned(s, day, names) == s
  {
    assert s.live[day] - names == s.live[day];
    assert s.live[day := s.live[day]] == s.live;
    assert Removals(s, day, names) == {};
  }

  lemma NamesOfPrefix(entries: seq<Entry>, k: nat)
    requires k <= |entries|
    ensures Names(entries[..k]) <= Names(entries)
  {
  }

  lemma PrunedSources(base: Store, day: Day, names: set<Name>, entries: seq<Entry>)
    requires day in base.live && SourcesUnchanged(base, day, entries)
    ensures SourcesUnchanged(Pruned(base, day, names), day, entries)
  {
    forall e | e in entries ensures SourceUnchanged(Pruned(base, day, names), day, e) {
      assert SourceUnchanged(base, day, e);
    }
  }

  /** A verified day is skipped only when nothing listed is left. */
  lemma SkippedHasNothingLeft(s: Store, day: Day, o: Options, n: Name)
    requires day in s.live && o.archive && o.prune && Choose(s, day, o) == Skip
    requires var v := Validate(s, day, o.maxFiles); v.Valid? && n in Names(v.manifest.entries)
    ensures n !in s.live[day]
  {
    var m := Validate(s, day, o.maxFiles).manifest;
    ListedNameIsMarkdown(s, day, o.maxFiles, n);
    var e :| e in m.entries && e.path.In? && e.path.name == n;
  }

  /** With part of a verified day already gone, the day is still ready and ends the same. */
  lemma PartlyPrunedDay(base: Store, day: Day, o: Options, m: Manifest, k: nat)
    requires day in base.live && Sorts(o.sort) && o.archive && o.prune
    requires Validate(base, day, o.maxFiles).Valid? && Validate(base, day, o.maxFiles).manifest == m
    requires m.root == o.root && |Markdown(base, day)| <= o.maxFiles
    requires SourcesUnchanged(base, day, m.entries) && k <= |m.entries|
    ensures var c := Pruned(base, day, Names(m.entries[..k]));
      Ready(c, day, o) && Final(c, day, o) == Pruned(base, day, Names(m.entries))
  {
    var a, all := Names(m.entries[..k]), Names(m.entries);
    var c := Pruned(base, day, a);
    NamesOfPrefix(m.entries, k);
    PrunedTwice(base, day, a, all);
    SubsetSize(Markdown(c, day), Markdown(base, day));
    assert Validate(c, day, o.maxFiles) == Validate(base, day, o.maxFiles);
    PrunedSources(base, day, a, m.entries);
    if Choose(c, day, o) == Skip {
      forall n | n in all ensures n !in c.live[day] {
        SkippedHasNothingLeft(c, day, o, n);
      }
      PrunedAbsent(c, day, all);
    }
  }

  lemma ListedNameIsMarkdown(s: Store, day: Day, maxFiles: nat, n: Name)
    requires Validate(s, day, maxFiles).Valid? && n in Names(Validate(s, day, maxFiles).manifest.entries)
    ensures IsMarkdown(n)
  {
    var m := Validate(s, day, maxFiles).manifest;
    var e :| e in m.entries && e.path.In? && e.path.name == n;
    VerifiedEntryIsHeld(s, day, maxFiles, e);
  }

  /** After the publications the crashed day is a partly pruned one. */
  lemma PublishedDayResumes(s: Store, day: Day, o: Options, fuel: nat)
    requires day in s.live && Sorts(o.sort) && o.archive && o.prune && fuel >= 2
    requires ReadyFor(s, day, o, Select(None)) && |Markdown(s, day)| <= o.maxFiles
    ensures var c := RotateChosen(s, day, o, Select(None), fuel).store;
      day in c.live && Ready(c, day, o) && Final(c, day, o) == FinalFor(s, day, o, Select(None))
  {
    var m := DayManifest(s, day, o);
    var published := Published(s, day, m);
    var k := ArchiveDayLeaves(s, day, o, fuel, RotateChosen(s, day, o, Select(None), fuel));
    PublishedDayIsValid(s, day, o);
    PublishedSources(s, day, o);
    assert Markdown(published, day) == Markdown(s, day);
    PartlyPrunedDay(published, day, o, m, k);
  }

  lemma PruningDayResumes(s: Store, day: Day, o: Options, m: Manifest, fuel: nat)
    requires day in s.live && Sorts(o.sort) && o.archive && o.prune
    requires Sensible(s, day, o, Select(Some(m))) && ReadyFor(s, day, o, Select(Some(m)))
    ensures var c := RotateChosen(s, day, o, Select(Some(m)), fuel).store;
      day in c.live && Ready(c, day, o) && Final(c, day, o) == FinalFor(s, day, o, Select(Some(m)))
  {
    var k := PruneDayFinishes(s, day, o, m, fuel);
    PartlyPrunedDay(s, day, o, m, k);
  }

  /** The tar is there and its manifest is not. */
  predicate InGap(s: Store, day: Day) {
    day in s.tars && day !in s.manifests
  }

  /** Resume: whatever point a pass over a ready day stopped at, the next pass finishes with the same store as
      an undisturbed one; except between the two publications, after which the day stands still, nothing of it
      removed, until a person looks at it. */
  lemma CrashedDayResumes(s: Store, day: Day, o: Options, fuel: nat)
    requires day in s.live && Sorts(o.sort) && o.archive && o.prune && Ready(s, day, o)
    ensures var c := RotateDay(s, day, o, fuel).store;
      if Choose(s, day, o) == Select(None) && fuel == 1 then
        && InGap(c, day) && c.live == s.live && c.removed == s.removed
        && forall later: nat :: RotateDay(c, day, o, later) == Step(c, later, false)
      else
        day in c.live && Ready(c, day, o) && Final(c, day, o) == Final(s, day, o)
  {
    ChoiceIsSensible(s, day, o);
    match Choose(s, day, o)
    case Select(Some(m)) => PruningDayResumes(s, day, o, m, fuel);
    case Select(None) =>
      if fuel >= 2 {
        PublishedDayResumes(s, day, o, fuel);
      } else {
        ArchiveDayStops(s, day, o, fuel);
        OrphanStops(RotateDay(s, day, o, fuel).store, day, o);
      }
    case _ =>
  }

  lemma OrphanStops(s: Store, day: Day, o: Options)
    requires Sorts(o.sort)
    ensures day in s.live && o.archive && InGap(s, day) ==>
      forall later: nat :: RotateDay(s, day, o, later) == Step(s, later, false)
  {
    if day in s.live && o.archive && InGap(s, day) {
      assert Choose(s, day, o) == Fail;
    }
  }
}
