/** Publishing and reading back a day, and the unlink loop in closed form. */
module RotationDrain {
  import opened Optional
  import opened RotationModel
  import opened RotationLossless

  // ----- a published archive verifies, or it does not fit the read limit

  ghost predicate DistinctPaths(entries: seq<Entry>) {
    forall i, j :: 0 <= i < j < |entries| ==> entries[i].path != entries[j].path
  }

  /** Entries as a run takes them from the live directory. */
  ghost predicate Snapshot(entries: seq<Entry>, day: Day) {
    DistinctPaths(entries) && forall e :: e in entries ==> PathOk(e.path, day) && e.size == |e.sha| <= MAX_FILE
  }

  function Paths(entries: seq<Entry>): set<Path> {
    set e | e in entries :: e.path
  }

  lemma PathsStep(front: seq<Entry>, last: Entry)
    ensures Paths(front + [last]) == Paths(front) + {last.path}
  {
    forall p | p in Paths(front) + {last.path} ensures p in Paths(front + [last]) {
      if p in Paths(front) {
        var e :| e in front && e.path == p;
        assert e in front + [last];
      } else {
        assert last in front + [last];
      }
    }
  }

  lemma LastPathIsNew(entries: seq<Entry>)
    requires DistinctPaths(entries) && entries != []
    ensures entries[|entries| - 1].path !in Paths(entries[..|entries| - 1])
  {
  }

  lemma {:induction false} ExpectedPaths(entries: seq<Entry>)
    ensures Expected(entries).Keys == Paths(entries)
  {
    if entries != [] {
      var front, last := entries[..|entries| - 1], entries[|entries| - 1];
      ExpectedPaths(front);
      assert entries == front + [last];
      PathsStep(front, last);
    }
  }

  lemma {:induction false} DistinctPathsCount(entries: seq<Entry>)
    requires DistinctPaths(entries)
    ensures |Paths(entries)| == |entries|
  {
    if entries != [] {
      var front, last := entries[..|entries| - 1], entries[|entries| - 1];
      DistinctPathsCount(front);
      LastPathIsNew(entries);
      assert entries == front + [last];
      PathsStep(front, last);
    }
  }

  lemma SnapshotExpected(entries: seq<Entry>)
    requires DistinctPaths(entries)
    ensures |Expected(entries)| == |entries| && Expected(entries).Keys == Paths(entries)
  {
    ExpectedPaths(entries);
    DistinctPathsCount(entries);
  }

  lemma ReadStep(expected: map<Path, Entry>, members: seq<Member>, m: Member)
    requires ReadMembers(expected, members).Some? && MemberOk(expected, ReadMembers(expected, members).value, m)
    ensures ReadMembers(expected, members + [m]) == Some(ReadMembers(expected, members).value[m.path := m.body])
  {
    assert (members + [m])[..|members + [m]| - 1] == members;
  }

  /** The member loop accepts every prefix of a snapshot's own tar. */
  lemma {:induction false} SnapshotReads(all: seq<Entry>, part: seq<Entry>, day: Day)
    requires Snapshot(all, day) && part <= all
    ensures ReadMembers(Expected(all), MembersOf(part)).Some?
    ensures ReadMembers(Expected(all), MembersOf(part)).value.Keys == Paths(part)
  {
    if part != [] {
      var front := part[..|part| - 1];
      SnapshotReads(all, front, day);
      SnapshotMember(all, part, day);
      SnapshotReadStep(Expected(all), part);
    }
  }

  lemma SnapshotReadStep(expected: map<Path, Entry>, part: seq<Entry>)
    requires part != []
    requires var front, e := part[..|part| - 1], part[|part| - 1];
      var read := ReadMembers(expected, MembersOf(front));
      && read.Some? && read.value.Keys == Paths(front) && e.path !in Paths(front)
      && e.path in expected && expected[e.path] == e && e.size == |e.sha| <= MAX_FILE
    ensures var read := ReadMembers(expected, MembersOf(part)); read.Some? && read.value.Keys == Paths(part)
  {
    var front, e := part[..|part| - 1], part[|part| - 1];
    ReadStep(expected, MembersOf(front), Member(e.path, e.sha, true));
    assert part == front + [e];
    PathsStep(front, e);
  }

  /** The next entry of a snapshot is expected as it is, and not among the earlier ones. */
  lemma SnapshotMember(all: seq<Entry>, part: seq<Entry>, day: Day)
    requires Snapshot(all, day) && part <= all && part != []
    ensures var front, e := part[..|part| - 1], part[|part| - 1];
      && e.path !in Paths(front) && e.path in Expected(all) && Expected(all)[e.path] == e
      && e.size == |e.sha| <= MAX_FILE
  {
    var e := part[|part| - 1];
    assert DistinctPaths(part) && e == all[|part| - 1];
    LastPathIsNew(part);
    SnapshotExpected(all);
    ExpectedValues(all, e);
  }

  /** Both files of an archive are within the limits they are read back with. */
  predicate Readable(m: Manifest) {
    TarSize(m.archiveSha) <= ARCHIVE_LIMIT && ManifestSize(m) <= MAX_FILE
  }

  /** The read-back after publication succeeds exactly when tar and manifest are within their read limits. */
  lemma ReadBackSucceedsIffReadable(s: Store, day: Day, root: string, entries: seq<Entry>, maxFiles: nat)
    requires Snapshot(entries, day) && |entries| <= maxFiles
    ensures var m := ManifestOf(day, root, entries);
      var v := Validate(Published(s, day, m), day, maxFiles);
      if Readable(m) then v.Valid? && v.manifest == m else v == Refused
  {
    SnapshotExpected(entries);
    SnapshotReads(entries, entries, day);
    forall p | p in Expected(entries) ensures PathOk(p, day) {
      assert p in Paths(entries);
    }
  }

  // ----- pruning in closed form

  function Names(entries: seq<Entry>): set<Name> {
    set e | e in entries && e.path.In? :: e.path.name
  }

  function Removals(s: Store, day: Day, names: set<Name>): set<Removal>
    requires day in s.live
  {
    set n | n in names && n in s.live[day] :: Removal(day, n, s.live[day][n].body)
  }

  /** Every listed file gone at once. */
  function Pruned(s: Store, day: Day, names: set<Name>): Store
    requires day in s.live
  {
    s.(live := s.live[day := s.live[day] - names], removed := s.removed + Removals(s, day, names))
  }

  lemma PrunedNothing(s: Store, day: Day)
    requires day in s.live
    ensures Pruned(s, day, {}) == s
  {
    assert s.live[day] - {} == s.live[day];
    assert s.live[day := s.live[day]] == s.live;
    assert Removals(s, day, {}) == {};
  }

  /** Removing more of the same files adds up. */
  lemma PrunedTwice(s: Store, day: Day, a: set<Name>, b: set<Name>)
    requires day in s.live && a <= b
    ensures Pruned(Pruned(s, day, a), day, b) == Pruned(s, day, b)
  {
    var t := Pruned(s, day, a);
    assert t.live[day] - b == s.live[day] - b;
    assert t.live[day := s.live[day] - b] == s.live[day := s.live[day] - b];
    assert Removals(s, day, a) + Removals(t, day, b) == Removals(s, day, b) by {
      forall r | r in Removals(s, day, b) ensures r in Removals(s, day, a) + Removals(t, day, b) {
        assert r.name in a || r.name in t.live[day];
      }
    }
    assert s.removed + Removals(s, day, a) + Removals(t, day, b) == s.removed + Removals(s, day, b);
  }

  lemma UnlinkIsPruned(s: Store, day: Day, n: Name)
    requires day in s.live && n in s.live[day]
    ensures Unlink(s, day, n) == Pruned(s, day, {n})
  {
    assert Removals(s, day, {n}) == {Removal(day, n, s.live[day][n].body)};
  }

  lemma AbsentIsPruned(s: Store, day: Day, n: Name)
    requires day in s.live && n !in s.live[day]
    ensures Pruned(s, day, {n}) == s
  {
    assert s.live[day] - {n} == s.live[day];
    assert s.live[day := s.live[day]] == s.live;
    assert Removals(s, day, {n}) == {};
  }

  lemma NamesStep(entries: seq<Entry>, e: Entry)
    requires e.path.In?
    ensures Names(entries + [e]) == Names(entries) + {e.path.name}
  {
    forall n | n in Names(entries) + {e.path.name} ensures n in Names(entries + [e]) {
      if n in Names(entries) {
        var x :| x in entries && x.path.In? && x.path.name == n;
        assert x in entries + [e];
      } else {
        assert e in entries + [e];
      }
    }
  }

  lemma PrunedStep(s: Store, day: Day, names: set<Name>, n: Name)
    requires day in s.live
    ensures Pruned(Pruned(s, day, names), day, {n}) == Pruned(s, day, names + {n})
  {
    var t := Pruned(s, day, names);
    assert t.live[day] - {n} == s.live[day] - (names + {n});
    assert t.live[day := s.live[day] - (names + {n})] == s.live[day := s.live[day] - (names + {n})];
    assert Removals(s, day, names) + Removals(t, day, {n}) == Removals(s, day, names + {n}) by {
      forall r | r in Removals(s, day, names + {n}) ensures r in Removals(s, day, names) + Removals(t, day, {n}) {
        assert r.name in names || r.name in t.live[day];
      }
    }
    assert s.removed + Removals(s, day, names) + Removals(t, day, {n}) == s.removed + Removals(s, day, names + {n});
  }

  lemma PruneOneIs(s: Store, day: Day, names: set<Name>, step: Step, e: Entry)
    requires day in s.live && step.store == Pruned(s, day, names) && step.alive && SourceUnchanged(s, day, e)
    ensures var r := PruneOne(step, day, e);
      && r.store == Pruned(s, day, if r.alive then names + {e.path.name} else names)
      && (step.fuel > 0 ==> r.alive && r.fuel >= step.fuel - 1)
      && (!r.alive ==> r.fuel == 0)
  {
    PrunedStep(s, day, names, e.path.name);
    if e.path.name !in step.store.live[day] {
      AbsentIsPruned(step.store, day, e.path.name);
    } else {
      assert step.store.live[day][e.path.name] == s.live[day][e.path.name];
      UnlinkIsPruned(step.store, day, e.path.name);
    }
  }

  /** The unlink loop removes a prefix of the listed files: all of them if it is not stopped. */
  lemma {:induction false} PruneIs(s: Store, day: Day, entries: seq<Entry>, fuel: nat) returns (k: nat)
    requires day in s.live && SourcesUnchanged(s, day, entries)
    ensures k <= |entries| && Prune(s, day, entries, fuel).store == Pruned(s, day, Names(entries[..k]))
    ensures Prune(s, day, entries, fuel).alive ==> k == |entries|
    ensures var step := Prune(s, day, entries, fuel); fuel >= |entries| ==> step.alive && step.fuel >= fuel - |entries|
  {
    if entries == [] {
      k := 0;
      assert Names([]) == {};
      PrunedNothing(s, day);
    } else {
      var front, e := entries[..|entries| - 1], entries[|entries| - 1];
      assert e in entries && forall x :: x in front ==> x in entries;
      k := PruneIs(s, day, front, fuel);
      assert entries[..k] == front[..k];
      var step := Prune(s, day, front, fuel);
      if step.alive {
        assert front[..k] == front;
        PruneOneIs(s, day, Names(front), step, e);
        if PruneOne(step, day, e).alive {
          assert entries[..|entries|] == front + [e];
          NamesStep(front, e);
          k := |entries|;
        }
      }
    }
  }
}
