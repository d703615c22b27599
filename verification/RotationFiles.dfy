/** The rotation as it runs: loops over days, members and entries, changing two directories in place. */
module RotationFiles {
  import opened Optional
  import opened ByteStrings
  import opened RotationModel

  /** The dictionary of expected members. */
  method CollectExpected(entries: seq<Entry>) returns (expected: map<Path, Entry>)
    ensures expected == Expected(entries)
  {
    expected := map[];
    for i := 0 to |entries|
      invariant expected == Expected(entries[..i])
    {
      assert entries[..i + 1][..i] == entries[..i];
      expected := expected[entries[i].path := entries[i]];
    }
    assert entries[..|entries|] == entries;
  }

  /** The member loop of `validate_archive`; it stops at the first refusal. */
  method CollectBodies(expected: map<Path, Entry>, members: seq<Member>) returns (bodies: Option<map<Path, Bytes>>)
    ensures bodies == ReadMembers(expected, members)
  {
    var read := map[];
    for i := 0 to |members|
      invariant ReadMembers(expected, members[..i]) == Some(read)
    {
      assert members[..i + 1][..i] == members[..i];
      var m := members[i];
      if !m.regular || m.path !in expected || m.path in read || |m.body| > MAX_FILE {
        RefusalIsFinal(expected, members, i + 1);
        return None;
      }
      var entry := expected[m.path];
      if |m.body| != entry.size || m.body != entry.sha {
        RefusalIsFinal(expected, members, i + 1);
        return None;
      }
      read := read[m.path := m.body];
    }
    assert members[..|members|] == members;
    bodies := Some(read);
  }

  lemma {:induction false} RefusalIsFinal(expected: map<Path, Entry>, members: seq<Member>, i: nat)
    requires i <= |members| && ReadMembers(expected, members[..i]).None?
    ensures ReadMembers(expected, members).None?
    decreases |members|
  {
    if i == |members| {
      assert members[..i] == members;
    } else {
      var front := members[..|members| - 1];
      assert front[..i] == members[..i];
      RefusalIsFinal(expected, front, i);
    }
  }

  lemma {:induction false} TotalOfPrefix(entries: seq<Entry>, i: nat)
    requires i <= |entries|
    ensures Total(entries[..i]) <= Total(entries)
    decreases |entries|
  {
    if i == |entries| {
      assert entries[..i] == entries;
    } else {
      var front := entries[..|entries| - 1];
      assert front[..i] == entries[..i];
      TotalOfPrefix(front, i);
    }
  }

  lemma {:induction false} EntriesOfPrefix(s: Store, day: Day, names: seq<Name>, i: nat)
    requires day in s.live && (forall n :: n in names ==> n in s.live[day]) && i <= |names|
    ensures |EntriesOf(s, day, names)| == |names|
    ensures EntriesOf(s, day, names)[..i] == EntriesOf(s, day, names[..i])
    decreases |names|
  {
    if i == |names| {
      assert names[..i] == names;
      if i > 0 {
        EntriesOfPrefix(s, day, names[..i - 1], i - 1);
      }
    } else {
      var front := names[..|names| - 1];
      assert front[..i] == names[..i];
      EntriesOfPrefix(s, day, front, i);
    }
  }

  class Directories {
    var live: map<Day, map<Name, File>>
    var tars: map<Day, TarFile>
    var manifests: map<Day, ManifestFile>
    var removed: set<Removal>
    /** Durable actions left before the run is cut off. */
    var fuel: nat

    function Contents(): Store
      reads this
    {
      Store(live, tars, manifests, removed)
    }

    constructor (s: Store, actions: nat)
      ensures Contents() == s && fuel == actions
    {
      live, tars, manifests, removed, fuel := s.live, s.tars, s.manifests, s.removed, actions;
    }

    /** `validate_archive`. */
    method ValidateArchive(day: Day, maxMembers: nat) returns (v: Validation)
      ensures v == Validate(Contents(), day, maxMembers)
    {
      if day !in manifests { return Missing; }
      if manifests[day].NotManifest? || manifests[day].size > MAX_FILE { return Refused; }
      var m := manifests[day].manifest;
      if m.date != day || m.archive != day || |m.entries| > maxMembers { return Refused; }
      if day !in tars { return Missing; }
      var tar := tars[day];
      if TarSize(tar) > ARCHIVE_LIMIT || TarSize(tar) != m.archiveBytes || tar != m.archiveSha { return Refused; }
      var expected := CollectExpected(m.entries);
      if |expected| != |m.entries| { return Refused; }
      if exists p :: p in expected && !PathOk(p, day) { return Refused; }
      if tar.NotTar? { return Refused; }
      var bodies := CollectBodies(expected, tar.members);
      if bodies.None? { return Refused; }
      v := if bodies.value.Keys == expected.Keys then Valid(m, bodies.value) else Refused;
    }

    /** The reading loop: it gives up at the first file too large, or once the total is. */
    method ReadDay(day: Day, names: seq<Name>) returns (entries: Option<seq<Entry>>)
      requires day in live && forall n :: n in names ==> n in live[day]
      ensures var all := EntriesOf(Contents(), day, names); entries == if Fits(all) then Some(all) else None
    {
      var read, total := [], 0;
      ghost var all := EntriesOf(Contents(), day, names);
      for i := 0 to |names|
        invariant read == EntriesOf(Contents(), day, names[..i]) && total == Total(read)
        invariant Fits(read)
      {
        assert names[..i + 1][..i] == names[..i];
        EntriesOfPrefix(Contents(), day, names, i + 1);
        TotalOfPrefix(all, i + 1);
        var f := live[day][names[i]];
        ghost var longer := read + [EntryOf(Contents(), day, names[i])];
        assert longer == all[..i + 1] && longer[..|longer| - 1] == read;
        if |f.body| > MAX_FILE {
          assert longer[i] == all[i] && all[i] in all;
          return None;
        }
        total := total + |f.body|;
        if total > ARCHIVE_LIMIT - ARCHIVE_RESERVE {
          return None;
        }
        read := read + [Entry(In(day, names[i]), |f.body|, f.body, f.identity)];
      }
      assert names[..|names|] == names;
      entries := Some(read);
    }

    /** The unlink loop. */
    method PruneFiles(day: Day, entries: seq<Entry>) returns (alive: bool)
      requires day in live
      modifies `live, `removed, `fuel
      ensures Step(Contents(), fuel, alive) == Prune(old(Contents()), day, entries, old(fuel))
    {
      alive := true;
      for i := 0 to |entries|
        invariant day in live
        invariant Step(Contents(), fuel, alive) == Prune(old(Contents()), day, entries[..i], old(fuel))
      {
        assert entries[..i + 1][..i] == entries[..i];
        var e := entries[i];
        if alive && e.path.In? && e.path.name in live[day] {
          if fuel == 0 || !SourceUnchanged(Contents(), day, e) {
            alive := false;
          } else {
            removed := removed + {Removal(day, e.path.name, live[day][e.path.name].body)};
            live, fuel := live[day := live[day] - {e.path.name}], fuel - 1;
          }
        }
      }
      assert entries[..|entries|] == entries;
    }

    method PruneVerified(day: Day, o: Options, m: Manifest) returns (alive: bool)
      requires day in live
      modifies `live, `removed, `fuel
      ensures Step(Contents(), fuel, alive) == PruneDay(old(Contents()), day, o, m, old(fuel))
    {
      if m.root != o.root { return false; }
      if !o.prune { return true; }
      if !SourcesUnchanged(Contents(), day, m.entries) { return false; }
      alive := PruneFiles(day, m.entries);
    }

    /** Exclusive publication: an existing file is never replaced. */
    method WriteTar(day: Day, tar: TarFile) returns (alive: bool)
      modifies `tars, `fuel
      ensures alive == (old(fuel) > 0 && day !in old(tars)) && fuel == old(fuel) - if alive then 1 else 0
      ensures Contents() == if alive then Tarred(old(Contents()), day, tar) else old(Contents())
    {
      if fuel == 0 || day in tars { return false; }
      tars, fuel := tars[day := tar], fuel - 1;
      alive := true;
    }

    method WriteManifest(day: Day, m: Manifest) returns (alive: bool)
      modifies `manifests, `fuel
      ensures alive == (old(fuel) > 0 && day !in old(manifests)) && fuel == old(fuel) - if alive then 1 else 0
      ensures manifests == if alive then old(manifests)[day := Json(m, ManifestSize(m))] else old(manifests)
    {
      if fuel == 0 || day in manifests { return false; }
      manifests, fuel := manifests[day := Json(m, ManifestSize(m))], fuel - 1;
      alive := true;
    }

    /** The two publications. */
    method PublishFiles(day: Day, m: Manifest) returns (alive: bool)
      modifies `tars, `manifests, `fuel
      ensures Step(Contents(), fuel, alive) == PublishBoth(old(Contents()), day, m, old(fuel))
    {
      alive := WriteTar(day, m.archiveSha);
      if !alive { return; }
      alive := WriteManifest(day, m);
    }

    /** The two publications, the read-back, the pruning. */
    method PublishDay(day: Day, o: Options, m: Manifest) returns (alive: bool)
      requires day in live
      modifies this
      ensures Step(Contents(), fuel, alive) == ArchiveDay(old(Contents()), day, o, m, old(fuel))
    {
      alive := PublishFiles(day, m);
      if !alive { return; }
      alive := Verify(day, o);
    }

    method Verify(day: Day, o: Options) returns (alive: bool)
      requires day in live
      modifies `live, `removed, `fuel
      ensures Step(Contents(), fuel, alive) == VerifyAndPrune(old(Contents()), day, o, old(fuel))
    {
      var v := ValidateArchive(day, o.maxFiles);
      if !v.Valid? { return false; }
      alive := PruneVerified(day, o, v.manifest);
    }

    /** The body of the loop over days. */
    method RotateOne(day: Day, o: Options) returns (alive: bool)
      requires day in live && Sorts(o.sort)
      modifies this
      ensures Step(Contents(), fuel, alive) == RotateDay(old(Contents()), day, o, old(fuel))
    {
      match Choose(Contents(), day, o)
      case Fail => alive := false;
      case Skip => alive := true;
      case Select(Some(m)) => alive := PruneVerified(day, o, m);
      case Select(None) =>
        var entries := ReadDay(day, o.sort(Markdown(Contents(), day)));
        if entries.None? { return false; }
        if !o.archive { return true; }
        if !NamesFit(entries.value) { return false; }
        alive := PublishDay(day, o, ManifestOf(day, o.root, entries.value));
    }

    /** `rotate`, from the eligible days to the report. */
    method RotateAll(days: seq<Day>, o: Options, maxDates: nat) returns (p: Progress)
      requires (forall d :: d in days ==> d in live) && Sorts(o.sort)
      modifies this
      ensures p == Rotate(old(Contents()), days, o, maxDates, old(fuel))
      ensures p.step.store == Contents() && p.step.fuel == fuel
    {
      if o.prune && !o.archive {
        return Progress(Step(Contents(), fuel, false), [], [], []);
      }
      p := Progress(Step(Contents(), fuel, true), [], [], []);
      for i := 0 to |days|
        invariant p == RotateDays(old(Contents()), days[..i], o, maxDates, old(fuel))
        invariant p.step.store == Contents() && p.step.fuel == fuel
      {
        assert days[..i + 1][..i] == days[..i];
        var day := days[i];
        assert day in days;
        if p.step.alive {
          if |p.results| >= maxDates {
            p := p.(unexamined := p.unexamined + [day]);
          } else if Choose(Contents(), day, o) == Skip {
            p := p.(skipped := p.skipped + [day]);
          } else {
            var alive := RotateOne(day, o);
            p := p.(step := Step(Contents(), fuel, alive), results := if alive then p.results + [day] else p.results);
          }
        }
      }
      assert days[..|days|] == days;
    }
  }
}
