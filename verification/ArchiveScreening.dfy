/** The read-only screen over live and rotated logs: one read budget across both, duplicate groups
    without conflicting paths, and the pending/commit join. */
module ArchiveScreening {
  import opened Optional
  import opened ByteStrings
  import opened RotationModel
  import opened RotationLossless
  import opened FiniteSets

  // ----- member reads of one verification

  /** The member loop of a verification with its read counter. */
  datatype Reading = Reading(bodies: map<Path, Bytes>, attempts: nat, ok: bool)

  predicate Readable(expected: map<Path, Entry>, bodies: map<Path, Bytes>, m: Member) {
    m.regular && m.path in expected && m.path !in bodies && |m.body| <= MAX_FILE
  }

  function ReadCounted(expected: map<Path, Entry>, members: seq<Member>): Reading {
    if members == [] then Reading(map[], 0, true)
    else
      var r, m := ReadCounted(expected, members[..|members| - 1]), members[|members| - 1];
      if !r.ok then r
      else if !Readable(expected, r.bodies, m) then r.(ok := false)
      else if !MemberOk(expected, r.bodies, m) then Reading(r.bodies, r.attempts + 1, false)
      else Reading(r.bodies[m.path := m.body], r.attempts + 1, true)
  }

  /** Every attempt, a failing last one included, is for a path of its own; the counter changes nothing
      else about the loop. */
  lemma {:induction false} AttemptsAreBounded(expected: map<Path, Entry>, members: seq<Member>)
    ensures var r := ReadCounted(expected, members);
      && r.bodies.Keys <= expected.Keys && r.attempts <= |expected|
      && (r.ok ==> r.attempts == |r.bodies|)
      && ReadMembers(expected, members) == if r.ok then Some(r.bodies) else None
  {
    if members != [] {
      var front, m := members[..|members| - 1], members[|members| - 1];
      AttemptsAreBounded(expected, front);
      var r := ReadCounted(expected, front);
      if r.ok && Readable(expected, r.bodies, m) {
        ProperSubsetSize(r.bodies.Keys, expected.Keys, m.path);
      }
    }
  }

  predicate OverBudget(s: Store, day: Day, budget: nat) {
    && day in s.manifests && s.manifests[day].Json? && s.manifests[day].size <= MAX_FILE
    && var m := s.manifests[day].manifest; m.date == day && m.archive == day && |m.entries| > budget
  }

  /** The member reads `validate_archive` makes. */
  function MemberReads(s: Store, day: Day, budget: nat): nat {
    if day !in s.manifests || s.manifests[day].NotManifest? || day !in s.tars then 0
    else if s.manifests[day].size > MAX_FILE then 0
    else
      var m, tar := s.manifests[day].manifest, s.tars[day];
      var expected := Expected(m.entries);
      if m.date != day || m.archive != day || |m.entries| > budget then 0
      else if TarSize(tar) > ARCHIVE_LIMIT || TarSize(tar) != m.archiveBytes || tar != m.archiveSha then 0
      else if |expected| != |m.entries| || tar.NotTar? then 0
      else if exists p :: p in expected && !PathOk(p, day) then 0
      else ReadCounted(expected, tar.members).attempts
  }

  lemma MemberReadsFitBudget(s: Store, day: Day, budget: nat)
    ensures MemberReads(s, day, budget) <= budget
  {
    if day in s.manifests && s.manifests[day].Json? && day in s.tars && s.tars[day].Tar? {
      AttemptsAreBounded(Expected(s.manifests[day].manifest.entries), s.tars[day].members);
    }
  }

  // ----- what is loaded

  type Key = (Bytes, Bytes)

  /** A live file after its own checks: Markdown, a pending or committed artifact, or unusable. */
  datatype Content =
    | Body(body: Bytes)
    | Pending(key: Key, artifact: Bytes)
    | Commit(key: Key, pending: Bytes)
    | Unusable

  datatype Leaf = Leaf(path: Path, content: Content)

  /** One call of `record_body`. */
  datatype Loaded = Loaded(path: Path, body: Bytes)

  function LiveBodies(leaves: seq<Leaf>): set<Loaded> {
    set x | x in leaves && x.content.Body? :: Loaded(x.path, x.content.body)
  }

  function BodiesOf(v: Validation, root: string): set<Loaded> {
    if v.Valid? && v.manifest.root == root then set p | p in v.bodies :: Loaded(p, v.bodies[p]) else {}
  }

  /** What the archive behind one manifest name has to offer; a name that is no date has nothing. */
  function Offered(s: Store, root: string, name: Option<Day>): set<Loaded> {
    if name.None? then {} else BodiesOf(Validate(s, name.value, EntryCount(s, name.value)), root)
  }

  ghost predicate OfferedByOne(s: Store, root: string, names: seq<Option<Day>>, x: Loaded) {
    exists i :: 0 <= i < |names| && x in Offered(s, root, names[i])
  }

  /** The archive verifies and is of this source. */
  predicate Genuine(v: Validation, root: string) {
    v.Valid? && v.manifest.root == root
  }

  predicate Sourced(s: Store, root: string, name: Option<Day>) {
    name.Some? && Genuine(Validate(s, name.value, EntryCount(s, name.value)), root)
  }

  lemma WithinBudgetNothingIsLost(s: Store, root: string, day: Day, budget: nat)
    ensures BodiesOf(Validate(s, day, budget), root) <= Offered(s, root, Some(day))
    ensures !OverBudget(s, day, budget) ==> BodiesOf(Validate(s, day, budget), root) == Offered(s, root, Some(day))
    ensures !OverBudget(s, day, budget) ==> (Genuine(Validate(s, day, budget), root) <==> Sourced(s, root, Some(day)))
  {
    if Validate(s, day, budget).Valid? {
      ValidationIgnoresBudget(s, day, budget);
    }
  }

  /** One date of the archive loop. */
  method LoadArchive(s: Store, root: string, name: Option<Day>, budget: nat)
    returns (count: nat, bodies: set<Loaded>, over: bool, genuine: bool)
    ensures count <= budget && bodies <= Offered(s, root, name)
    ensures !over ==> bodies == Offered(s, root, name) && genuine == Sourced(s, root, name)
  {
    if name.None? {
      return 0, {}, false, false;
    }
    WithinBudgetNothingIsLost(s, root, name.value, budget);
    MemberReadsFitBudget(s, name.value, budget);
    count := MemberReads(s, name.value, budget);
    bodies := BodiesOf(Validate(s, name.value, budget), root);
    over := OverBudget(s, name.value, budget);
    genuine := Genuine(Validate(s, name.value, budget), root);
  }

  /** The archive loop after i names. */
  ghost predicate LoadedUpTo(s: Store, root: string, names: seq<Option<Day>>, i: int, loaded: set<Loaded>,
                             truncated: bool, unverified: bool)
    requires 0 <= i <= |names|
  {
    && (forall x :: x in loaded ==> OfferedByOne(s, root, names, x))
    && (!truncated ==> WholeUpTo(s, root, names, i, loaded))
    && (!truncated ==> (!unverified <==> SourcedUpTo(s, root, names, i)))
  }

  ghost predicate WholeUpTo(s: Store, root: string, names: seq<Option<Day>>, i: int, loaded: set<Loaded>)
    requires 0 <= i <= |names|
  {
    forall j :: 0 <= j < i ==> Offered(s, root, names[j]) <= loaded
  }

  ghost predicate SourcedUpTo(s: Store, root: string, names: seq<Option<Day>>, i: int)
    requires 0 <= i <= |names|
  {
    forall j :: 0 <= j < i ==> Sourced(s, root, names[j])
  }

  lemma OfferedHere(s: Store, root: string, names: seq<Option<Day>>, i: int, x: Loaded)
    requires 0 <= i < |names| && x in Offered(s, root, names[i])
    ensures OfferedByOne(s, root, names, x)
  {
  }

  lemma PartOfSum(part: set<Loaded>, a: set<Loaded>, b: set<Loaded>)
    requires part <= a
    ensures part <= a + b
  {
  }

  lemma WholeOneMore(s: Store, root: string, names: seq<Option<Day>>, i: int, loaded: set<Loaded>, bodies: set<Loaded>)
    requires 0 <= i < |names| && WholeUpTo(s, root, names, i, loaded) && bodies == Offered(s, root, names[i])
    ensures WholeUpTo(s, root, names, i + 1, loaded + bodies)
  {
    forall j | 0 <= j < i + 1 ensures Offered(s, root, names[j]) <= loaded + bodies {
      if j < i {
        PartOfSum(Offered(s, root, names[j]), loaded, bodies);
      }
    }
  }

  lemma SourcedOneMore(s: Store, root: string, names: seq<Option<Day>>, i: int)
    requires 0 <= i < |names|
    ensures SourcedUpTo(s, root, names, i + 1) <==> SourcedUpTo(s, root, names, i) && Sourced(s, root, names[i])
  {
  }

  lemma LoadsOneMore(s: Store, root: string, names: seq<Option<Day>>, i: int, loaded: set<Loaded>, truncated: bool,
                     unverified: bool, bodies: set<Loaded>, over: bool, genuine: bool)
    requires 0 <= i < |names| && LoadedUpTo(s, root, names, i, loaded, truncated, unverified)
    requires bodies <= Offered(s, root, names[i])
    requires !over ==> bodies == Offered(s, root, names[i]) && genuine == Sourced(s, root, names[i])
    ensures LoadedUpTo(s, root, names, i + 1, loaded + bodies, truncated || over, unverified || !genuine)
  {
    forall x | x in bodies ensures OfferedByOne(s, root, names, x) {
      OfferedHere(s, root, names, i, x);
    }
    if !truncated && !over {
      WholeOneMore(s, root, names, i, loaded, bodies);
      SourcedOneMore(s, root, names, i);
    }
  }

  lemma AllLoaded(s: Store, root: string, names: seq<Option<Day>>, loaded: set<Loaded>, truncated: bool,
                  unverified: bool)
    requires LoadedUpTo(s, root, names, |names|, loaded, truncated, unverified)
    ensures !truncated ==> forall x :: OfferedByOne(s, root, names, x) ==> x in loaded
  {
  }

  /** The archive loop. A date is verified against what the leaves and the earlier dates left over, so the
      limit holds however the verifications end; and unless the screen calls itself truncated, every
      verified archive of this source is loaded whole. */
  method LoadArchives(s: Store, root: string, names: seq<Option<Day>>, limit: nat, leafReads: nat)
    returns (loaded: set<Loaded>, memberReads: nat, truncated: bool, unverified: bool)
    requires leafReads <= limit
    ensures leafReads + memberReads <= limit
    ensures forall x :: x in loaded ==> OfferedByOne(s, root, names, x)
    ensures !truncated ==> forall x :: OfferedByOne(s, root, names, x) ==> x in loaded
    ensures !truncated ==> (!unverified <==> SourcedUpTo(s, root, names, |names|))
  {
    loaded, memberReads, truncated, unverified := {}, 0, false, false;
    var attempted := 0;
    for i := 0 to |names|
      invariant leafReads + memberReads <= limit
      invariant LoadedUpTo(s, root, names, i, loaded, truncated, unverified)
    {
      var remaining := limit - leafReads - memberReads;
      if remaining <= 0 || attempted >= limit {
        truncated := true;
        return;
      }
      attempted := attempted + 1;
      var count, bodies, over, genuine := LoadArchive(s, root, names[i], remaining);
      LoadsOneMore(s, root, names, i, loaded, truncated, unverified, bodies, over, genuine);
      memberReads, loaded, truncated := memberReads + count, loaded + bodies, truncated || over;
      unverified := unverified || !genuine;
    }
    AllLoaded(s, root, names, loaded, truncated, unverified);
  }

  /** Whatever an archive offers, a rotation could have unlinked: the verified archive holds it. */
  lemma OfferedIsHeld(s: Store, root: string, names: seq<Option<Day>>, x: Loaded)
    requires OfferedByOne(s, root, names, x)
    ensures x.path.In? && Held(s, Removal(x.path.day, x.path.name, x.body))
  {
    var i :| 0 <= i < |names| && x in Offered(s, root, names[i]);
    var v := Validate(s, names[i].value, EntryCount(s, names[i].value));
    assert x.path in Expected(v.manifest.entries);
  }

  // ----- grouping

  /** The two dictionaries `record_body` fills say what was loaded. */
  ghost predicate Dictionaries(loaded: set<Loaded>, revisions: map<Path, set<Bytes>>, groups: map<Bytes, set<Path>>) {
    && (forall p, b :: Loaded(p, b) in loaded <==> p in revisions && b in revisions[p])
    && (forall p, b :: Loaded(p, b) in loaded <==> b in groups && p in groups[b])
  }

  method RecordAll(loaded: set<Loaded>) returns (revisions: map<Path, set<Bytes>>, groups: map<Bytes, set<Path>>)
    ensures Dictionaries(loaded, revisions, groups)
  {
    revisions, groups := map[], map[];
    var todo := loaded;
    while todo != {}
      invariant todo <= loaded
      invariant Dictionaries(loaded - todo, revisions, groups)
    {
      var x :| x in todo;
      assert loaded - (todo - {x}) == loaded - todo + {x};
      todo := todo - {x};
      revisions := revisions[x.path := (if x.path in revisions then revisions[x.path] else {}) + {x.body}];
      groups := groups[x.body := (if x.body in groups then groups[x.body] else {}) + {x.path}];
    }
    assert loaded - todo == loaded;
  }

  predicate Conflicting(revisions: map<Path, set<Bytes>>, p: Path) {
    p in revisions && |revisions[p]| > 1
  }

  /** The conflict loop: a path with two contents leaves every group. */
  method DropConflicts(revisions: map<Path, set<Bytes>>, groups: map<Bytes, set<Path>>)
    returns (kept: map<Bytes, set<Path>>, conflicts: set<Path>)
    ensures forall p :: p in conflicts <==> Conflicting(revisions, p)
    ensures kept.Keys == groups.Keys && forall b :: b in groups ==> kept[b] == groups[b] - conflicts
  {
    kept, conflicts := groups, {};
    var todo := revisions.Keys;
    while todo != {}
      invariant todo <= revisions.Keys
      invariant forall p :: p in conflicts <==> p !in todo && Conflicting(revisions, p)
      invariant kept.Keys == groups.Keys && forall b :: b in groups ==> kept[b] == groups[b] - conflicts
    {
      var p :| p in todo;
      todo := todo - {p};
      if |revisions[p]| > 1 {
        conflicts := conflicts + {p};
        kept := map b | b in kept :: kept[b] - {p};
      }
    }
  }

  lemma LargeMeansTwo<T>(s: set<T>)
    ensures |s| > 1 <==> exists b, c :: b in s && c in s && b != c
  {
    if |s| > 1 {
      var b :| b in s;
      assert |s - {b}| == |s| - 1;
      var c :| c in s - {b};
    }
    if b, c :| b in s && c in s && b != c {
      ProperSubsetSize({b}, s, c);
    }
  }

  /** The path was loaded with this content and never with another. */
  ghost predicate OnlyContent(loaded: set<Loaded>, p: Path, b: Bytes) {
    Loaded(p, b) in loaded && forall c :: Loaded(p, c) in loaded ==> c == b
  }

  ghost predicate Grouped(loaded: set<Loaded>, groups: map<Bytes, set<Path>>, conflicts: set<Path>) {
    && (forall p, b :: (b in groups && p in groups[b]) <==> OnlyContent(loaded, p, b))
    && (forall p :: p in conflicts <==> exists b, c :: Loaded(p, b) in loaded && Loaded(p, c) in loaded && b != c)
  }

  lemma ConflictIs(loaded: set<Loaded>, revisions: map<Path, set<Bytes>>, groups: map<Bytes, set<Path>>, p: Path)
    requires Dictionaries(loaded, revisions, groups)
    ensures Conflicting(revisions, p) <==> exists b, c :: Loaded(p, b) in loaded && Loaded(p, c) in loaded && b != c
  {
    if p in revisions {
      LargeMeansTwo(revisions[p]);
    }
    if Conflicting(revisions, p) {
      var b, c :| b in revisions[p] && c in revisions[p] && b != c;
      assert Loaded(p, b) in loaded && Loaded(p, c) in loaded;
    }
  }

  /** Grouping is sound and complete: a path is in the group of a content exactly when that is the only
      content it was loaded with. */
  method Group(loaded: set<Loaded>) returns (groups: map<Bytes, set<Path>>, conflicts: set<Path>)
    ensures Grouped(loaded, groups, conflicts)
  {
    var revisions, all := RecordAll(loaded);
    groups, conflicts := DropConflicts(revisions, all);
    forall p
      ensures Conflicting(revisions, p) <==> exists b, c :: Loaded(p, b) in loaded && Loaded(p, c) in loaded && b != c
    {
      ConflictIs(loaded, revisions, all, p);
    }
    forall p, b ensures (b in groups && p in groups[b]) <==> OnlyContent(loaded, p, b) {
      assert Loaded(p, b) in loaded <==> b in all && p in all[b];
    }
  }

  // ----- the pending/commit join

  ghost predicate HasPending(leaves: seq<Leaf>, key: Key, artifact: Bytes) {
    exists i :: 0 <= i < |leaves| && leaves[i].content == Pending(key, artifact)
  }

  function Hashes(attempts: map<Key, set<Bytes>>, k: Key): set<Bytes> {
    if k in attempts then attempts[k] else {}
  }

  /** The pending hashes are filed under their attempts. */
  ghost predicate Filed(attempts: map<Key, set<Bytes>>, leaves: seq<Leaf>) {
    forall k, a :: a in Hashes(attempts, k) <==> HasPending(leaves, k, a)
  }

  method CollectPending(leaves: seq<Leaf>) returns (attempts: map<Key, set<Bytes>>)
    ensures Filed(attempts, leaves)
  {
    attempts := map[];
    for i := 0 to |leaves|
      invariant Filed(attempts, leaves[..i])
    {
      ghost var was := attempts;
      var x := leaves[i];
      if x.content.Pending? {
        attempts := attempts[x.content.key := Hashes(attempts, x.content.key) + {x.content.artifact}];
      }
      forall k, a ensures a in Hashes(attempts, k) <==> HasPending(leaves[..i + 1], k, a) {
        PendingStep(leaves, i, k, a);
        assert a in Hashes(was, k) <==> HasPending(leaves[..i], k, a);
      }
    }
    assert leaves[..|leaves|] == leaves;
  }

  lemma PendingStep(leaves: seq<Leaf>, i: nat, k: Key, a: Bytes)
    requires i < |leaves|
    ensures HasPending(leaves[..i + 1], k, a) <==> HasPending(leaves[..i], k, a) || leaves[i].content == Pending(k, a)
  {
    if HasPending(leaves[..i], k, a) {
      var j :| 0 <= j < i && leaves[..i][j].content == Pending(k, a);
      assert leaves[..i + 1][j] == leaves[..i][j];
    }
    if HasPending(leaves[..i + 1], k, a) && leaves[i].content != Pending(k, a) {
      var j :| 0 <= j < i + 1 && leaves[..i + 1][j].content == Pending(k, a);
      assert leaves[..i][j] == leaves[..i + 1][j];
    }
    assert leaves[..i + 1][i] == leaves[i];
  }

  /** Leaf i is a commit, and `pending` says whether one of these leaves is the pending artifact it names. */
  ghost predicate CommitAt(leaves: seq<Leaf>, i: int, pending: bool) {
    && 0 <= i < |leaves| && leaves[i].content.Commit?
    && pending == HasPending(leaves, leaves[i].content.key, leaves[i].content.pending)
  }

  /** Every commit is joined to its attempt or reported unavailable, never both: joined exactly when a
      pending artifact of the same attempt has the hash it names, wherever in the listing that one stands. */
  method JoinCommits(leaves: seq<Leaf>) returns (joined: set<int>, unavailable: set<int>)
    ensures forall i :: i in joined <==> CommitAt(leaves, i, true)
    ensures forall i :: i in unavailable <==> CommitAt(leaves, i, false)
  {
    var attempts := CollectPending(leaves);
    joined, unavailable := {}, {};
    for n := 0 to |leaves|
      invariant forall i :: i in joined <==> i < n && CommitAt(leaves, i, true)
      invariant forall i :: i in unavailable <==> i < n && CommitAt(leaves, i, false)
    {
      var x := leaves[n];
      if x.content.Commit? {
        if x.content.pending !in Hashes(attempts, x.content.key) {
          unavailable := unavailable + {n};
        } else {
          joined := joined + {n};
        }
      }
    }
  }

  // ----- the screen

  ghost predicate Available(leaves: seq<Leaf>, s: Store, root: string, names: seq<Option<Day>>, x: Loaded) {
    x in LiveBodies(leaves) || OfferedByOne(s, root, names, x)
  }

  /** No path is available with two contents. */
  ghost predicate Agreeing(leaves: seq<Leaf>, s: Store, root: string, names: seq<Option<Day>>) {
    forall p, b, c :: Available(leaves, s, root, names, Loaded(p, b)) && Available(leaves, s, root, names, Loaded(p, c))
      ==> b == c
  }

  predicate AllUsable(leaves: seq<Leaf>) {
    forall i :: 0 <= i < |leaves| ==> !leaves[i].content.Unusable?
  }

  /** Nothing the screen looks at is unavailable: usable leaves, genuine archives, one content a path, and a
      pending artifact for every commit. */
  ghost predicate AllInOrder(leaves: seq<Leaf>, s: Store, root: string, names: seq<Option<Day>>) {
    && AllUsable(leaves) && SourcedUpTo(s, root, names, |names|)
    && Agreeing(leaves, s, root, names)
    && forall i :: !CommitAt(leaves, i, false)
  }

  ghost predicate LoadedAll(leaves: seq<Leaf>, s: Store, root: string, names: seq<Option<Day>>, loaded: set<Loaded>) {
    forall x :: x in loaded <==> Available(leaves, s, root, names, x)
  }

  lemma NoConflictMeansAgreeing(leaves: seq<Leaf>, s: Store, root: string, names: seq<Option<Day>>,
                                loaded: set<Loaded>, groups: map<Bytes, set<Path>>, conflicts: set<Path>)
    requires LoadedAll(leaves, s, root, names, loaded) && Grouped(loaded, groups, conflicts)
    ensures conflicts == {} <==> Agreeing(leaves, s, root, names)
  {
    if conflicts == {} {
      forall p, b, c
        | Available(leaves, s, root, names, Loaded(p, b)) && Available(leaves, s, root, names, Loaded(p, c))
        ensures b == c
      {
        assert Loaded(p, b) in loaded && Loaded(p, c) in loaded && p !in conflicts;
      }
    } else {
      var p :| p in conflicts;
      var b, c :| Loaded(p, b) in loaded && Loaded(p, c) in loaded && b != c;
      assert Available(leaves, s, root, names, Loaded(p, b)) && Available(leaves, s, root, names, Loaded(p, c));
    }
  }

  lemma StatusMeansOrder(leaves: seq<Leaf>, s: Store, root: string, names: seq<Option<Day>>, loaded: set<Loaded>,
                         groups: map<Bytes, set<Path>>, conflicts: set<Path>, unavailable: set<int>, unverified: bool)
    requires LoadedAll(leaves, s, root, names, loaded) && Grouped(loaded, groups, conflicts)
    requires !unverified <==> SourcedUpTo(s, root, names, |names|)
    requires forall i :: i in unavailable <==> CommitAt(leaves, i, false)
    ensures AllUsable(leaves) && !unverified && conflicts == {} && unavailable == {} <==>
      AllInOrder(leaves, s, root, names)
  {
    NoConflictMeansAgreeing(leaves, s, root, names, loaded, groups, conflicts);
    NoneUnavailable(leaves, unavailable);
  }

  lemma NoneUnavailable(leaves: seq<Leaf>, unavailable: set<int>)
    requires forall i :: i in unavailable <==> CommitAt(leaves, i, false)
    ensures unavailable == {} <==> forall i :: !CommitAt(leaves, i, false)
  {
    if i :| CommitAt(leaves, i, false) {
      assert i in unavailable;
    } else {
      forall i ensures i !in unavailable {
        assert !CommitAt(leaves, i, false);
      }
      assert unavailable == {};
    }
  }

  /** `screen_archives`. The reads of live leaves and archive members together stay within the limit; the
      groups are those of what was loaded; an untruncated screen has loaded all there is; and it calls itself
      partial exactly when it was truncated or something it looked at was not in order. */
  method Screen(leaves: seq<Leaf>, s: Store, root: string, names: seq<Option<Day>>, limit: nat)
    returns (leafReads: nat, memberReads: nat, truncated: bool, groups: map<Bytes, set<Path>>, conflicts: set<Path>,
             joined: set<int>, unavailable: set<int>, partial: bool, ghost loaded: set<Loaded>)
    ensures leafReads + memberReads <= limit && leafReads <= |leaves|
    ensures Grouped(loaded, groups, conflicts)
    ensures forall x :: x in loaded ==> Available(leaves, s, root, names, x)
    ensures !truncated ==> leafReads == |leaves| && LoadedAll(leaves, s, root, names, loaded)
    ensures forall i :: i in joined <==> CommitAt(leaves[..leafReads], i, true)
    ensures forall i :: i in unavailable <==> CommitAt(leaves[..leafReads], i, false)
    ensures !partial <==> !truncated && AllInOrder(leaves, s, root, names)
  {
    leafReads := if limit < |leaves| then limit else |leaves|;
    var read := leaves[..leafReads];
    var archived, members, cut, unverified := LoadArchives(s, root, names, limit, leafReads);
    memberReads, truncated := members, cut || leafReads < |leaves|;
    var all := LiveBodies(read) + archived;
    loaded := all;
    groups, conflicts := Group(all);
    joined, unavailable := JoinCommits(read);
    var unusable := exists i :: 0 <= i < |read| && read[i].content.Unusable?;
    partial := truncated || unusable || unverified || conflicts != {} || unavailable != {};
    if !truncated {
      assert read == leaves;
      StatusMeansOrder(leaves, s, root, names, all, groups, conflicts, unavailable, unverified);
    }
  }
}
