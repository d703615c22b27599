/** Lossless log rotation: archive, verify, then prune
    (`validate_archive` and `rotate` in scripts/rotate_push_log.py).

    The writer lock keeps the live tree still during a run. A digest is modelled by the bytes it was
    taken of. A run is given `fuel` durable actions (publications and unlinks) and stops when they are
    used up, which covers a crash or a time-out after any of them.
 */
module RotationModel {
  import opened Optional
  import opened ByteStrings
  import opened JsonText

  type Day = int
  type Name = string

  const MAX_FILE: nat := 8 * 1024 * 1024
  const ARCHIVE_LIMIT: nat := 64 * 1024 * 1024
  const ARCHIVE_RESERVE: nat := 1024 * 1024
  /** The longest name field of a USTAR header. */
  const USTAR_NAME: nat := 100

  /** What `identity` takes from a file's status. */
  datatype Identity = Identity(device: nat, inode: nat, size: nat, modified: int, changed: int)

  datatype File = File(body: Bytes, identity: Identity)

  /** `day/name`, or a path of any other shape. */
  datatype Path = In(day: Day, name: Name) | Malformed(text: string)

  datatype Entry = Entry(path: Path, size: nat, sha: Bytes, identity: Identity)

  datatype Member = Member(path: Path, body: Bytes, regular: bool)

  /** A tar file; its digest is the file itself. */
  datatype TarFile = Tar(members: seq<Member>) | NotTar(size: nat)

  datatype Manifest = Manifest(date: Day, archive: Day, root: string, entries: seq<Entry>,
                               archiveBytes: nat, archiveSha: TarFile)

  /** A manifest file of `size` bytes, or a file of another kind. */
  datatype ManifestFile = Json(manifest: Manifest, size: nat) | NotManifest

  datatype Removal = Removal(day: Day, name: Name, body: Bytes)

  /** Both directories, and everything ever unlinked. */
  datatype Store = Store(live: map<Day, map<Name, File>>, tars: map<Day, TarFile>,
                         manifests: map<Day, ManifestFile>, removed: set<Removal>)

  /** The name ends in `.md`. */
  predicate IsMarkdown(n: Name) {
    |n| >= 3 && n[|n| - 3] == '.' && n[|n| - 2] == 'm' && n[|n| - 1] == 'd'
  }

  /** `.` or `..`. */
  predicate IsDots(n: Name) {
    1 <= |n| <= 2 && n[0] == '.' && n[|n| - 1] == '.'
  }

  function Markdown(s: Store, day: Day): set<Name>
    requires day in s.live
  {
    set n | n in s.live[day] && IsMarkdown(n)
  }

  function RoundUp(n: nat, block: nat): nat
    requires block > 0
  {
    (n + block - 1) / block * block
  }

  /** Headers and padded bodies. */
  function TarData(members: seq<Member>): nat {
    if members == [] then 0
    else TarData(members[..|members| - 1]) + 512 + RoundUp(|members[|members| - 1].body|, 512)
  }

  /** Two zero blocks, padded to a record. */
  function TarSize(t: TarFile): nat {
    match t
    case Tar(members) => RoundUp(TarData(members) + 1024, 10240)
    case NotTar(size) => size
  }

  function PathJson(p: Path): nat {
    match p
    case In(_, name) => 11 + EscapedLength(name)
    case Malformed(text) => EscapedLength(text)
  }

  function IdentityJson(i: Identity): nat {
    Digits(i.device) + Digits(i.inode) + Digits(i.size) + NumberLength(i.modified) + NumberLength(i.changed)
  }

  /** One entry of the indented manifest: its fixed text, and what varies. */
  function EntryJson(e: Entry): nat {
    216 + PathJson(e.path) + Digits(e.size) + IdentityJson(e.identity)
  }

  /** The first n entries. */
  function EntriesJson(entries: seq<Entry>, n: nat): nat
    requires n <= |entries|
  {
    if n == 0 then 0 else EntriesJson(entries, n - 1) + EntryJson(entries[n - 1])
  }

  /** The size of the manifest file that `json_bytes` makes. */
  function ManifestSize(m: Manifest): nat {
    (if m.entries == [] then 228 else 230) + EntriesJson(m.entries, |m.entries|)
      + Digits(m.archiveBytes) + EscapedLength(m.root)
  }

  function Expected(entries: seq<Entry>): map<Path, Entry> {
    if entries == [] then map[]
    else Expected(entries[..|entries| - 1])[entries[|entries| - 1].path := entries[|entries| - 1]]
  }

  predicate PathOk(p: Path, day: Day) {
    p.In? && p.day == day && IsMarkdown(p.name) && !IsDots(p.name)
  }

  predicate MemberOk(expected: map<Path, Entry>, bodies: map<Path, Bytes>, m: Member) {
    && m.regular && m.path in expected && m.path !in bodies && |m.body| <= MAX_FILE
    && |m.body| == expected[m.path].size && m.body == expected[m.path].sha
  }

  /** The member loop; None once a member is refused. */
  function ReadMembers(expected: map<Path, Entry>, members: seq<Member>): Option<map<Path, Bytes>> {
    if members == [] then Some(map[])
    else
      var last := members[|members| - 1];
      match ReadMembers(expected, members[..|members| - 1])
      case None => None
      case Some(bodies) => if MemberOk(expected, bodies, last) then Some(bodies[last.path := last.body]) else None
  }

  /** How `validate_archive` ends: a file is missing, something is refused, or all is verified. */
  datatype Validation = Missing | Refused | Valid(manifest: Manifest, bodies: map<Path, Bytes>)

  function Validate(s: Store, day: Day, maxMembers: nat): Validation {
    if day !in s.manifests then Missing
    else if s.manifests[day].NotManifest? || s.manifests[day].size > MAX_FILE then Refused
    else
      var m := s.manifests[day].manifest;
      if m.date != day || m.archive != day || |m.entries| > maxMembers then Refused
      else if day !in s.tars then Missing
      else
        var tar, expected := s.tars[day], Expected(m.entries);
        if TarSize(tar) > ARCHIVE_LIMIT || TarSize(tar) != m.archiveBytes || tar != m.archiveSha then Refused
        else if |expected| != |m.entries| then Refused
        else if exists p :: p in expected && !PathOk(p, day) then Refused
        else if tar.NotTar? then Refused
        else match ReadMembers(expected, tar.members)
          case None => Refused
          case Some(bodies) => if bodies.Keys == expected.Keys then Valid(m, bodies) else Refused
  }

  datatype Options = Options(root: string, archive: bool, prune: bool, maxFiles: nat,
                             sort: set<Name> -> seq<Name>)

  /** The order in which a directory's Markdown names are taken. */
  ghost predicate Sorts(sort: set<Name> -> seq<Name>) {
    forall names: set<Name> ::
      && (forall n :: n in sort(names) <==> n in names)
      && (forall i, j :: 0 <= i < j < |sort(names)| ==> sort(names)[i] != sort(names)[j])
  }

  function EntryOf(s: Store, day: Day, n: Name): Entry
    requires day in s.live && n in s.live[day]
  {
    var f := s.live[day][n];
    Entry(In(day, n), |f.body|, f.body, f.identity)
  }

  function EntriesOf(s: Store, day: Day, names: seq<Name>): seq<Entry>
    requires day in s.live && forall n :: n in names ==> n in s.live[day]
  {
    if names == [] then [] else EntriesOf(s, day, names[..|names| - 1]) + [EntryOf(s, day, names[|names| - 1])]
  }

  function Total(entries: seq<Entry>): nat {
    if entries == [] then 0 else Total(entries[..|entries| - 1]) + entries[|entries| - 1].size
  }

  function MembersOf(entries: seq<Entry>): seq<Member> {
    if entries == [] then []
    else MembersOf(entries[..|entries| - 1]) + [Member(entries[|entries| - 1].path, entries[|entries| - 1].sha, true)]
  }

  /** Everything the run checks while it reads a day and builds its tar. */
  predicate Fits(entries: seq<Entry>) {
    && (forall e :: e in entries ==> e.size <= MAX_FILE)
    && Total(entries) <= ARCHIVE_LIMIT - ARCHIVE_RESERVE
  }

  /** The header holds the date in its prefix field and the encoded name in its name field. */
  predicate NamesFit(entries: seq<Entry>) {
    forall e :: e in entries && e.path.In? ==> Utf8Length(e.path.name) <= USTAR_NAME
  }

  function ManifestOf(day: Day, root: string, entries: seq<Entry>): Manifest {
    var tar := Tar(MembersOf(entries));
    Manifest(day, day, root, entries, TarSize(tar), tar)
  }

  /** A step leaves the store, the fuel, and whether the run may go on. */
  datatype Step = Step(store: Store, fuel: nat, alive: bool)

  function Tarred(s: Store, day: Day, tar: TarFile): Store {
    s.(tars := s.tars[day := tar])
  }

  function Published(s: Store, day: Day, m: Manifest): Store {
    s.(tars := s.tars[day := m.archiveSha], manifests := s.manifests[day := Json(m, ManifestSize(m))])
  }

  /** The listed file is absent, or is the very file that was archived. */
  predicate SourceUnchanged(s: Store, day: Day, e: Entry)
    requires day in s.live
  {
    e.path.In? && (e.path.name in s.live[day] ==>
      var f := s.live[day][e.path.name];
      f.identity == e.identity && |f.body| == e.size && f.body == e.sha && |f.body| <= MAX_FILE)
  }

  predicate SourcesUnchanged(s: Store, day: Day, entries: seq<Entry>)
    requires day in s.live
  {
    forall e :: e in entries ==> SourceUnchanged(s, day, e)
  }

  function Unlink(s: Store, day: Day, n: Name): Store
    requires day in s.live && n in s.live[day]
  {
    s.(live := s.live[day := s.live[day] - {n}], removed := s.removed + {Removal(day, n, s.live[day][n].body)})
  }

  /** One listed file, if still there, is checked once more and removed. */
  function PruneOne(step: Step, day: Day, e: Entry): (r: Step)
    requires day in step.store.live
    ensures day in r.store.live
  {
    if !step.alive then step
    else if !e.path.In? || e.path.name !in step.store.live[day] then step
    else if step.fuel == 0 || !SourceUnchanged(step.store, day, e) then Step(step.store, step.fuel, false)
    else Step(Unlink(step.store, day, e.path.name), step.fuel - 1, true)
  }

  /** The unlink loop. */
  function Prune(s: Store, day: Day, entries: seq<Entry>, fuel: nat): Step
    requires day in s.live
    ensures day in Prune(s, day, entries, fuel).store.live
  {
    if entries == [] then Step(s, fuel, true)
    else PruneOne(Prune(s, day, entries[..|entries| - 1], fuel), day, entries[|entries| - 1])
  }

  datatype Choice = Fail | Skip | Select(manifest: Option<Manifest>)

  /** What the run decides about a day before touching it. */
  function Choose(s: Store, day: Day, o: Options): Choice
    requires day in s.live
  {
    var names := Markdown(s, day);
    var v := if o.archive then Validate(s, day, o.maxFiles) else Missing;
    if v.Refused? then Fail
    else if v.Valid? then
      if v.manifest.root != o.root then Fail
      else if !o.prune || forall e :: e in v.manifest.entries && e.path.In? ==> e.path.name !in names then Skip
      else if |names| > o.maxFiles then Fail
      else Select(Some(v.manifest))
    else if o.archive && day in s.tars then Fail
    else if names == {} then Skip
    else if |names| > o.maxFiles then Fail
    else Select(None)
  }

  function PruneDay(s: Store, day: Day, o: Options, m: Manifest, fuel: nat): Step
    requires day in s.live
  {
    if m.root != o.root then Step(s, fuel, false)
    else if !o.prune then Step(s, fuel, true)
    else if !SourcesUnchanged(s, day, m.entries) then Step(s, fuel, false)
    else Prune(s, day, m.entries, fuel)
  }

  /** Prune only what a verification established. */
  function PruneIfValid(s: Store, day: Day, o: Options, v: Validation, fuel: nat): Step
    requires day in s.live
  {
    match v
    case Valid(verified, _) => PruneDay(s, day, o, verified, fuel)
    case _ => Step(s, fuel, false)
  }

  /** Read the day's archive back, and prune. */
  function VerifyAndPrune(s: Store, day: Day, o: Options, fuel: nat): Step
    requires day in s.live
  {
    PruneIfValid(s, day, o, Validate(s, day, o.maxFiles), fuel)
  }

  /** Publish the tar, publish its manifest, both exclusively. */
  function PublishBoth(s: Store, day: Day, m: Manifest, fuel: nat): Step {
    if fuel == 0 || day in s.tars then Step(s, fuel, false)
    else if fuel == 1 || day in s.manifests then Step(Tarred(s, day, m.archiveSha), fuel - 1, false)
    else Step(Published(s, day, m), fuel - 2, true)
  }

  /** Where the run is after a second step that follows only if the first one went through. */
  function Then(first: Step, second: Step): Step {
    if first.alive then second else first
  }

  function ArchiveDay(s: Store, day: Day, o: Options, m: Manifest, fuel: nat): Step
    requires day in s.live
  {
    var listed := PublishBoth(s, day, m, fuel);
    Then(listed, VerifyAndPrune(Published(s, day, m), day, o, listed.fuel))
  }

  function RotateDay(s: Store, day: Day, o: Options, fuel: nat): Step
    requires day in s.live && Sorts(o.sort)
  {
    RotateChosen(s, day, o, Choose(s, day, o), fuel)
  }

  function RotateChosen(s: Store, day: Day, o: Options, choice: Choice, fuel: nat): Step
    requires day in s.live && Sorts(o.sort)
  {
    match choice
    case Fail => Step(s, fuel, false)
    case Skip => Step(s, fuel, true)
    case Select(Some(m)) => PruneDay(s, day, o, m, fuel)
    case Select(None) =>
      var entries := EntriesOf(s, day, o.sort(Markdown(s, day)));
      if !Fits(entries) then Step(s, fuel, false)
      else if !o.archive then Step(s, fuel, true)
      else if !NamesFit(entries) then Step(s, fuel, false)
      else ArchiveDay(s, day, o, ManifestOf(day, o.root, entries), fuel)
  }

  /** A run so far: what it did to the store, and the three lists of its report. */
  datatype Progress = Progress(step: Step, results: seq<Day>, skipped: seq<Day>, unexamined: seq<Day>)

  /** One iteration of the loop over the eligible days. */
  function Advance(p: Progress, day: Day, o: Options, maxDates: nat): Progress
    requires day in p.step.store.live && Sorts(o.sort)
  {
    AdvanceBy(p, day, maxDates, Choose(p.step.store, day, o), RotateDay(p.step.store, day, o, p.step.fuel))
  }

  /** The same, given what was chosen and where that led. */
  function AdvanceBy(p: Progress, day: Day, maxDates: nat, choice: Choice, step: Step): Progress {
    if !p.step.alive then p
    else if |p.results| >= maxDates then p.(unexamined := p.unexamined + [day])
    else if choice == Skip then p.(skipped := p.skipped + [day])
    else p.(step := step, results := if step.alive then p.results + [day] else p.results)
  }

  function RotateDays(s: Store, days: seq<Day>, o: Options, maxDates: nat, fuel: nat): (p: Progress)
    requires (forall d :: d in days ==> d in s.live) && Sorts(o.sort)
    ensures p.step.store.live.Keys == s.live.Keys
  {
    if days == [] then Progress(Step(s, fuel, true), [], [], [])
    else
      var p := RotateDays(s, days[..|days| - 1], o, maxDates, fuel);
      RotateDayKeepsDays(p.step.store, days[|days| - 1], o, p.step.fuel);
      Advance(p, days[|days| - 1], o, maxDates)
  }

  lemma {:induction false} PruneKeepsDays(s: Store, day: Day, entries: seq<Entry>, fuel: nat)
    requires day in s.live
    ensures Prune(s, day, entries, fuel).store.live.Keys == s.live.Keys
  {
    if entries != [] {
      PruneKeepsDays(s, day, entries[..|entries| - 1], fuel);
    }
  }

  lemma RotateDayKeepsDays(s: Store, day: Day, o: Options, fuel: nat)
    requires day in s.live && Sorts(o.sort)
    ensures RotateDay(s, day, o, fuel).store.live.Keys == s.live.Keys
  {
    forall m: Manifest {
      PruneKeepsDays(s, day, m.entries, fuel);
    }
    match Choose(s, day, o)
    case Select(None) =>
      var entries := EntriesOf(s, day, o.sort(Markdown(s, day)));
      ArchiveDayKeepsDays(s, day, o, ManifestOf(day, o.root, entries), fuel);
    case _ =>
  }

  lemma ArchiveDayKeepsDays(s: Store, day: Day, o: Options, m: Manifest, fuel: nat)
    requires day in s.live
    ensures ArchiveDay(s, day, o, m, fuel).store.live.Keys == s.live.Keys
  {
    var listed := PublishBoth(s, day, m, fuel);
    forall verified: Manifest {
      PruneKeepsDays(Published(s, day, m), day, verified.entries, listed.fuel);
    }
  }

  /** One run. Pruning without archiving is refused outright. */
  function Rotate(s: Store, days: seq<Day>, o: Options, maxDates: nat, fuel: nat): Progress
    requires (forall d :: d in days ==> d in s.live) && Sorts(o.sort)
  {
    if o.prune && !o.archive then Progress(Step(s, fuel, false), [], [], [])
    else RotateDays(s, days, o, maxDates, fuel)
  }
}
