/** Which fresh days a run can archive, and two kinds of days that pass every check before publication and
    are stuck after it. */
module RotationLimits {
  import opened Optional
  import opened JsonText
  import opened RotationModel
  import opened RotationDrain
  import opened RotationResume

  /** Neither archive file exists, and there is work within the file budget. */
  predicate FreshDay(s: Store, day: Day, o: Options) {
    && day in s.live && o.archive && day !in s.tars && day !in s.manifests
    && 0 < |Markdown(s, day)| <= o.maxFiles
  }

  lemma FreshDayIsChosen(s: Store, day: Day, o: Options)
    requires FreshDay(s, day, o)
    ensures Choose(s, day, o) == Select(None)
  {
  }

  lemma UnprunedDayIsVerified(s: Store, day: Day, o: Options, fuel: nat)
    requires FreshDay(s, day, o) && Sorts(o.sort) && !o.prune && ReadyFor(s, day, o, Select(None))
    ensures VerifyAndPrune(Published(s, day, DayManifest(s, day, o)), day, o, fuel).alive
  {
    PublishedDayIsValid(s, day, o);
  }

  lemma UnprunedDayIsArchived(s: Store, day: Day, o: Options, fuel: nat)
    requires FreshDay(s, day, o) && Sorts(o.sort) && !o.prune && ReadyFor(s, day, o, Select(None)) && fuel >= 2
    ensures ArchiveDay(s, day, o, DayManifest(s, day, o), fuel).alive
  {
    UnprunedDayIsVerified(s, day, o, fuel - 2);
  }

  lemma ReadableDayIsArchived(s: Store, day: Day, o: Options, fuel: nat)
    requires FreshDay(s, day, o) && Sorts(o.sort) && fuel >= 2 + |Markdown(s, day)| && Choose(s, day, o) == Select(None)
    requires ReadyFor(s, day, o, Select(None))
    ensures RotateDay(s, day, o, fuel).alive
  {
    if o.prune {
      DayEntriesCount(s, day, o);
      ReadyDayFinishes(s, day, o, fuel);
    } else {
      ReadyDayArchives(s, day, o, fuel);
      UnprunedDayIsArchived(s, day, o, fuel);
    }
  }

  /** A fresh day is archived by a run that is given its time exactly when its files and its names are within
      the limits, and tar and manifest within the limits they are read back with. */
  lemma FreshDayIsArchivedIff(s: Store, day: Day, o: Options, fuel: nat)
    requires FreshDay(s, day, o) && Sorts(o.sort) && fuel >= 2 + |Markdown(s, day)|
    ensures RotateDay(s, day, o, fuel).alive <==>
      Fits(DayEntries(s, day, o)) && NamesFit(DayEntries(s, day, o)) && Readable(DayManifest(s, day, o))
  {
    FreshDayIsChosen(s, day, o);
    var entries := DayEntries(s, day, o);
    if Fits(entries) && NamesFit(entries) {
      if Readable(DayManifest(s, day, o)) {
        ReadableDayIsArchived(s, day, o, fuel);
      } else {
        OversizedArchiveBlocksTheDay(s, day, o, fuel);
      }
    } else {
      UnfitDayStops(s, day, o, fuel);
    }
  }

  lemma UnfitDayStops(s: Store, day: Day, o: Options, fuel: nat)
    requires day in s.live && o.archive && Sorts(o.sort)
    requires !Fits(DayEntries(s, day, o)) || !NamesFit(DayEntries(s, day, o))
    ensures RotateChosen(s, day, o, Select(None), fuel) == Step(s, fuel, false)
  {
  }

  // ----- sums over entries

  lemma OneMore(n: nat, x: nat)
    ensures (n + 1) * x == n * x + x
  {
  }

  /** Bodies of at most `size` bytes, `padded` in the tar. */
  lemma {:induction false} SizesAtMost(entries: seq<Entry>, size: nat, padded: nat)
    requires forall e :: e in entries ==> e.size == |e.sha| <= size && RoundUp(e.size, 512) <= padded
    ensures Total(entries) <= |entries| * size
    ensures TarData(MembersOf(entries)) <= |entries| * (512 + padded)
  {
    if entries != [] {
      var front, last := entries[..|entries| - 1], entries[|entries| - 1];
      assert last in entries;
      SizesAtMost(front, size, padded);
      OneMore(|front|, size);
      OneMore(|front|, 512 + padded);
      LastMember(front, last);
    }
  }

  lemma LastMember(front: seq<Entry>, last: Entry)
    ensures TarData(MembersOf(front + [last])) == TarData(MembersOf(front)) + 512 + RoundUp(|last.sha|, 512)
  {
    var members, member := MembersOf(front), Member(last.path, last.sha, true);
    assert (front + [last])[..|front|] == front;
    assert (members + [member])[..|members|] == members;
  }

  lemma {:induction false} TarAtLeast(entries: seq<Entry>, padded: nat)
    requires forall e :: e in entries ==> RoundUp(|e.sha|, 512) >= padded
    ensures TarData(MembersOf(entries)) >= |entries| * (512 + padded)
  {
    if entries != [] {
      var front, last := entries[..|entries| - 1], entries[|entries| - 1];
      assert last in entries && entries == front + [last];
      TarAtLeast(front, padded);
      OneMore(|front|, 512 + padded);
      LastMember(front, last);
    }
  }

  lemma {:induction false} JsonAtLeast(entries: seq<Entry>, n: nat, size: nat)
    requires n <= |entries| && forall e :: e in entries ==> EntryJson(e) >= size
    ensures EntriesJson(entries, n) >= n * size
  {
    if n > 0 {
      assert entries[n - 1] in entries;
      JsonAtLeast(entries, n - 1, size);
      OneMore(n - 1, size);
    }
  }

  /** Each entry of a day is the entry of one of its Markdown files. */
  lemma DayEntry(s: Store, day: Day, o: Options, e: Entry) returns (n: Name)
    requires day in s.live && Sorts(o.sort) && e in DayEntries(s, day, o)
    ensures n in Markdown(s, day) && e == EntryOf(s, day, n)
  {
    var list := o.sort(Markdown(s, day));
    EntriesOfMembers(s, day, list);
    var i :| 0 <= i < |list| && DayEntries(s, day, o)[i] == e;
    n := list[i];
    assert n in list;
  }

  lemma DayEntriesCount(s: Store, day: Day, o: Options)
    requires day in s.live && Sorts(o.sort)
    ensures |DayEntries(s, day, o)| == |Markdown(s, day)|
  {
    var list := o.sort(Markdown(s, day));
    EntriesOfMembers(s, day, list);
    ListingSize(list, Markdown(s, day));
  }

  // ----- many files one byte over a block

  const CROWD: nat := 2000
  const CROWD_BYTES: nat := 32769

  predicate CrowdFile(n: Name, f: File) {
    |f.body| == CROWD_BYTES && Utf8Length(n) <= USTAR_NAME
  }

  predicate CrowdEntry(e: Entry) {
    e.size == |e.sha| == CROWD_BYTES && e.path.In? && Utf8Length(e.path.name) <= USTAR_NAME
  }

  /** The reserve kept for tar overhead is too small: two thousand files of 32769 bytes, within every
      limit checked before publication, make a tar above the limit it is read back with. */
  lemma ReserveCanBeExceeded(entries: seq<Entry>)
    requires |entries| == CROWD && forall e :: e in entries ==> CrowdEntry(e)
    ensures Fits(entries) && NamesFit(entries)
    ensures TarSize(Tar(MembersOf(entries))) > ARCHIVE_LIMIT
  {
    assert RoundUp(CROWD_BYTES, 512) == 33280;
    SizesAtMost(entries, CROWD_BYTES, 33280);
    TarAtLeast(entries, 33280);
  }

  /** Such a day in the live directory: the run publishes its archive and stops, all files stay, and no
      later archiving run gets past the day. */
  lemma CrowdedDayGetsStuck(s: Store, day: Day, o: Options, fuel: nat)
    requires FreshDay(s, day, o) && Sorts(o.sort) && fuel >= 2 && |Markdown(s, day)| == CROWD
    requires forall n :: n in Markdown(s, day) ==> CrowdFile(n, s.live[day][n])
    ensures var step := RotateDay(s, day, o, fuel); !step.alive && step.store.live == s.live && Stuck(step.store, day)
  {
    var entries := DayEntries(s, day, o);
    DayEntriesCount(s, day, o);
    forall e | e in entries ensures CrowdEntry(e) {
      var n := DayEntry(s, day, o, e);
    }
    ReserveCanBeExceeded(entries);
    FreshDayIsChosen(s, day, o);
    OversizedArchiveBlocksTheDay(s, day, o, fuel);
  }

  // ----- names that JSON escapes

  const LONG_NAMES: nat := 10_000
  /** Nanoseconds: after September 2001. */
  const RECENTLY: nat := 1_000_000_000_000_000_000

  /** Ninety-seven control characters and the ending. */
  predicate LongName(n: Name) {
    |n| == USTAR_NAME && n[97..] == ".md" && forall c :: c in n[..97] ==> Control(c) && !ShortEscape(c)
  }

  predicate LongNamed(n: Name, f: File) {
    LongName(n) && |f.body| <= 4096 && f.identity.modified >= RECENTLY && f.identity.changed >= RECENTLY
  }

  predicate LongEntry(e: Entry) {
    && e.path.In? && LongName(e.path.name) && e.size == |e.sha| <= 4096
    && e.identity.modified >= RECENTLY && e.identity.changed >= RECENTLY
  }

  lemma LongNameLengths(n: Name)
    requires LongName(n)
    ensures Utf8Length(n) == 100 && EscapedLength(n) == 585
  {
    assert n == n[..97] + ".md";
    ControlsEscape(n[..97]);
    MarkdownEnding(n[..97]);
  }

  lemma RecentDigits(t: int)
    requires t >= RECENTLY
    ensures NumberLength(t) >= 19
  {
    assert PowerOfTen(9) == 1_000_000_000 by {
      assert PowerOfTen(3) == 1000;
      assert PowerOfTen(6) == 1_000_000;
    }
    assert PowerOfTen(18) == RECENTLY by {
      assert PowerOfTen(12) == 1_000_000_000_000;
      assert PowerOfTen(15) == 1_000_000_000_000_000;
    }
    DigitsAtLeast(t, 18);
  }

  lemma LongEntryJson(e: Entry)
    requires LongEntry(e)
    ensures EntryJson(e) >= 854
  {
    LongNameLengths(e.path.name);
    RecentDigits(e.identity.modified);
    RecentDigits(e.identity.changed);
  }

  lemma SmallBodyBlocks(n: nat)
    requires n <= 4096
    ensures RoundUp(n, 512) <= 4096
  {
  }

  lemma LongTarFits(data: nat)
    requires data <= LONG_NAMES * (512 + 4096)
    ensures RoundUp(data + 1024, 10240) <= ARCHIVE_LIMIT
  {
  }

  lemma LongEntriesFit(entries: seq<Entry>)
    requires |entries| == LONG_NAMES && forall e :: e in entries ==> LongEntry(e)
    ensures Fits(entries) && TarSize(Tar(MembersOf(entries))) <= ARCHIVE_LIMIT
  {
    forall e | e in entries ensures e.size == |e.sha| <= 4096 && RoundUp(e.size, 512) <= 4096 {
      SmallBodyBlocks(e.size);
    }
    SizesAtMost(entries, 4096, 4096);
    LongTarFits(TarData(MembersOf(entries)));
  }

  /** The manifest has a limit of its own that nothing before publication looks at: ten thousand small files
      with such names fit in every respect, and so does their tar, but the manifest is above the limit. */
  lemma ManifestCanExceedLimit(day: Day, root: string, entries: seq<Entry>)
    requires |entries| == LONG_NAMES && forall e :: e in entries ==> LongEntry(e)
    ensures Fits(entries) && NamesFit(entries)
    ensures TarSize(Tar(MembersOf(entries))) <= ARCHIVE_LIMIT
    ensures ManifestSize(ManifestOf(day, root, entries)) > MAX_FILE
  {
    LongEntriesFit(entries);
    forall e | e in entries ensures EntryJson(e) >= 854 && Utf8Length(e.path.name) == 100 {
      LongEntryJson(e);
      LongNameLengths(e.path.name);
    }
    JsonAtLeast(entries, |entries|, 854);
  }

  lemma LongNamesGetStuck(s: Store, day: Day, o: Options, fuel: nat)
    requires FreshDay(s, day, o) && Sorts(o.sort) && fuel >= 2 && |Markdown(s, day)| == LONG_NAMES
    requires forall n :: n in Markdown(s, day) ==> LongNamed(n, s.live[day][n])
    ensures TarSize(DayManifest(s, day, o).archiveSha) <= ARCHIVE_LIMIT
    ensures var step := RotateDay(s, day, o, fuel); !step.alive && step.store.live == s.live && Stuck(step.store, day)
  {
    var entries := DayEntries(s, day, o);
    DayEntriesCount(s, day, o);
    forall e | e in entries ensures LongEntry(e) {
      var n := DayEntry(s, day, o, e);
    }
    ManifestCanExceedLimit(day, o.root, entries);
    FreshDayIsChosen(s, day, o);
    OversizedArchiveBlocksTheDay(s, day, o, fuel);
  }
}
