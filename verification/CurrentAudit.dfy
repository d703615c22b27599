/** The reference pass of the current-source audit (`reference_errors` in
    scripts/architecture-docs/current_audit.rb): the catalog checks, less evidence that only the architecture
    uses, and the closure of every evidence list. */
module CurrentAudit {
  import V = CatalogValidator
  import C = EvidenceClosure

  type Id = string

  const BUSINESS: Id := "business"
  const ARCHITECTURE: Id := "architecture"

  /** An evidence entry of the manifest with its audit domains and the evidence it depends on. */
  datatype Entry = Entry(evidence: V.Evidence, domains: seq<Id>, dependencies: seq<Id>)

  datatype Group = Group(id: Id, evidenceIds: seq<Id>, supportingFiles: seq<Id>)

  datatype FileEntry = FileEntry(path: Id, groupIds: seq<Id>)

  datatype Audit = Audit(kinds: seq<V.Kind>, producers: seq<V.Producer>, units: seq<V.Unit>, entries: seq<Entry>,
                         files: seq<FileEntry>, enumEvidence: Id, excluded: seq<Id>, groups: seq<Group>)

  function EvidenceOf(entries: seq<Entry>): (r: seq<V.Evidence>)
    ensures |r| == |entries| && forall i :: 0 <= i < |r| ==> r[i] == entries[i].evidence
  {
    seq(|entries|, i requires 0 <= i < |entries| => entries[i].evidence)
  }

  function PathsOf(files: seq<FileEntry>): (r: seq<Id>)
    ensures |r| == |files| && forall i :: 0 <= i < |r| ==> r[i] == files[i].path
  {
    seq(|files|, i requires 0 <= i < |files| => files[i].path)
  }

  function GroupIds(groups: seq<Group>): (r: seq<Id>)
    ensures |r| == |groups| && forall i :: 0 <= i < |r| ==> r[i] == groups[i].id
  {
    seq(|groups|, i requires 0 <= i < |groups| => groups[i].id)
  }

  /** What the catalog validator sees of it. */
  function Base(a: Audit): V.Catalog {
    V.Catalog(a.kinds, a.producers, a.units, EvidenceOf(a.entries), PathsOf(a.files), a.enumEvidence, a.excluded)
  }

  function Ids(a: Audit): seq<Id> {
    V.EvidenceIds(EvidenceOf(a.entries))
  }

  function LinkOf(e: Entry): C.Evidence {
    C.Evidence(e.evidence.id, e.domains, e.dependencies)
  }

  /** What the closure check sees of it. */
  function Links(a: Audit): (r: seq<C.Evidence>)
    ensures |r| == |a.entries| && forall i :: 0 <= i < |r| ==> r[i] == LinkOf(a.entries[i])
  {
    seq(|a.entries|, i requires 0 <= i < |a.entries| => LinkOf(a.entries[i]))
  }

  // ----- the evidence lists

  datatype Context = OfKind(kind: Id) | OfProducer(id: Id) | OfRelation(id: Id, relation: Id) | OfGroup(id: Id)

  datatype List = List(context: Context, ids: seq<Id>)

  function KindList(k: V.Kind): List {
    List(OfKind(k.kind), k.evidenceIds)
  }

  function ProducerLists(p: V.Producer): seq<List> {
    [List(OfProducer(p.id), p.evidenceIds), List(OfRelation(p.id, "trigger"), p.trigger),
     List(OfRelation(p.id, "source"), p.source), List(OfRelation(p.id, "authority"), p.authority),
     List(OfRelation(p.id, "policy"), p.policy)]
  }

  function GroupList(g: Group): List {
    List(OfGroup(g.id), g.evidenceIds)
  }

  /** A list of a kind, of a producer, or of one of its relations. */
  ghost predicate BusinessList(a: Audit, l: List) {
    (exists k :: k in a.kinds && l == KindList(k)) || (exists p :: p in a.producers && l in ProducerLists(p))
  }

  ghost predicate GroupUses(a: Audit, x: Id) {
    exists g :: g in a.groups && x in g.evidenceIds
  }

  ghost predicate ListUses(a: Audit, x: Id) {
    exists l :: BusinessList(a, l) && x in l.ids
  }

  ghost predicate Closed(a: Audit, l: List, domain: Id) {
    C.Closed(Links(a), l.ids, domain)
  }

  ghost predicate ListsClosed(a: Audit) {
    && (forall l :: BusinessList(a, l) ==> Closed(a, l, BUSINESS))
    && (forall g :: g in a.groups ==> Closed(a, GroupList(g), ARCHITECTURE))
  }

  // ----- the checks

  predicate Exclusive(e: Entry) {
    e.domains == [ARCHITECTURE]
  }

  ghost predicate ExclusiveId(a: Audit, x: Id) {
    exists e :: e in a.entries && Exclusive(e) && e.evidence.id == x
  }

  /** Architecture evidence belongs to a group, and dependencies are known and not repeated. */
  ghost predicate EntryOk(a: Audit, e: Entry) {
    && (ARCHITECTURE in e.domains ==> GroupUses(a, e.evidence.id))
    && V.Distinct(e.dependencies) && forall d :: d in e.dependencies ==> d in Ids(a)
  }

  predicate GroupKnown(a: Audit, g: Group) {
    forall x :: x in g.evidenceIds ==> x in Ids(a)
  }

  /** The ids of the groups that rest on the file. */
  function Owners(groups: seq<Group>, path: Id): seq<Id> {
    if groups == [] then []
    else
      var last := groups[|groups| - 1];
      Owners(groups[..|groups| - 1], path) + if path in last.supportingFiles then [last.id] else []
  }

  predicate FileOk(a: Audit, f: FileEntry) {
    V.SameItems(Owners(a.groups, f.path), f.groupIds)
  }

  /** A group rests on all files of its evidence, and on files of the manifest only. */
  predicate GroupFilesOk(a: Audit, g: Group) {
    && (forall e :: e in a.entries && e.evidence.id in g.evidenceIds ==> e.evidence.locator.path in g.supportingFiles)
    && (forall p :: p in g.supportingFiles ==> p in PathsOf(a.files))
  }

  /** Catalog errors, less those about unused evidence of the architecture. */
  ghost predicate CatalogOk(a: Audit) {
    V.CheckedButForUse(Base(a)) && forall x :: V.Unreferenced(Base(a), x) ==> ExclusiveId(a, x)
  }

  ghost predicate GroupsOk(a: Audit) {
    && V.Distinct(GroupIds(a.groups))
    && (forall g :: g in a.groups ==> GroupKnown(a, g) && GroupFilesOk(a, g))
    && (forall f :: f in a.files ==> FileOk(a, f))
  }

  ghost predicate Silent(a: Audit) {
    CatalogOk(a) && (forall e :: e in a.entries ==> EntryOk(a, e)) && ListsClosed(a) && GroupsOk(a)
  }

  // ----- what the checks mean

  /** What the schema pass has established. */
  ghost predicate Schema(a: Audit) {
    && V.Schema(Base(a))
    && (forall e :: e in a.entries ==> V.Distinct(e.domains) && e.domains != [] && KnownDomains(e.domains))
    && (forall f :: f in a.files ==> V.Distinct(f.groupIds))
  }

  predicate KnownDomains(domains: seq<Id>) {
    forall d :: d in domains ==> d == BUSINESS || d == ARCHITECTURE
  }

  /** Evidence is listed exactly when the business side or the architecture uses it. */
  ghost predicate EvidenceUsed(a: Audit) {
    forall x :: x in Ids(a) <==> V.BusinessUses(Base(a), x) || GroupUses(a, x)
  }

  /** The domains of an entry are its uses; whether the evidence of the enumeration itself is marked as business
      is left open. */
  ghost predicate DomainsAreUses(a: Audit, e: Entry) {
    && (ARCHITECTURE in e.domains <==> GroupUses(a, e.evidence.id))
    && (BUSINESS in e.domains ==> V.BusinessUses(Base(a), e.evidence.id))
    && (ListUses(a, e.evidence.id) ==> BUSINESS in e.domains)
  }

  ghost predicate DependenciesOk(a: Audit, e: Entry) {
    V.Distinct(e.dependencies) && forall d :: d in e.dependencies ==> d in Ids(a)
  }

  /** File and group agree on who rests on whom, and the file names groups only. */
  ghost predicate OwnershipMatches(a: Audit, f: FileEntry) {
    && (forall g :: g in a.groups ==> (g.id in f.groupIds <==> f.path in g.supportingFiles))
    && (forall x :: x in f.groupIds ==> x in GroupIds(a.groups))
  }

  ghost predicate Audited(a: Audit) {
    && V.Consistent(Base(a)) && EvidenceUsed(a) && ListsClosed(a)
    && (forall e :: e in a.entries ==> DomainsAreUses(a, e) && DependenciesOk(a, e))
    && V.Distinct(GroupIds(a.groups))
    && (forall g :: g in a.groups ==> GroupFilesOk(a, g))
    && (forall f :: f in a.files ==> OwnershipMatches(a, f))
  }

  lemma EntryIsListed(a: Audit, e: Entry)
    requires e in a.entries
    ensures e.evidence.id in Ids(a) && LinkOf(e) in Links(a)
  {
    var i :| 0 <= i < |a.entries| && a.entries[i] == e;
    assert Ids(a)[i] == e.evidence.id && Links(a)[i] == LinkOf(e);
  }

  lemma ListedEntry(a: Audit, x: Id) returns (e: Entry)
    requires x in Ids(a)
    ensures e in a.entries && e.evidence.id == x
  {
    var i :| 0 <= i < |Ids(a)| && Ids(a)[i] == x;
    e := a.entries[i];
  }

  lemma SameEntry(a: Audit, e: Entry, f: Entry)
    requires V.Distinct(Ids(a)) && e in a.entries && f in a.entries && e.evidence.id == f.evidence.id
    ensures e == f
  {
    var i :| 0 <= i < |a.entries| && a.entries[i] == e;
    var j :| 0 <= j < |a.entries| && a.entries[j] == f;
    assert Ids(a)[i] == Ids(a)[j];
  }

  /** Whatever is on a closed list belongs to the domain. */
  lemma ClosedListDomain(a: Audit, l: List, domain: Id, e: Entry)
    requires Closed(a, l, domain) && e in a.entries && e.evidence.id in l.ids
    ensures domain in e.domains
  {
    EntryIsListed(a, e);
    C.StepsSuffice(Links(a), l.ids, domain);
    assert C.EntryOk(LinkOf(e), l.ids, domain);
  }

  lemma BusinessRefersIffUses(a: Audit, x: Id)
    requires forall p :: p in a.producers ==> V.EvidenceOk(p)
    ensures x in V.Referenced(Base(a)) <==> V.BusinessUses(Base(a), x)
  {
    V.ReferencedIsUsed(Base(a), x);
  }

  lemma ProducersOk(a: Audit)
    requires V.Consistent(Base(a))
    ensures forall p :: p in a.producers ==> V.EvidenceOk(p)
  {
  }

  // ----- silence means audited

  lemma SilentEvidence(a: Audit, x: Id)
    requires Silent(a) && V.Consistent(Base(a))
    ensures x in Ids(a) <==> V.BusinessUses(Base(a), x) || GroupUses(a, x)
  {
    ProducersOk(a);
    BusinessRefersIffUses(a, x);
    if x in Ids(a) && x !in V.Referenced(Base(a)) {
      assert V.Unreferenced(Base(a), x);
      var e :| e in a.entries && Exclusive(e) && e.evidence.id == x;
      assert EntryOk(a, e);
    }
    if GroupUses(a, x) {
      var g :| g in a.groups && x in g.evidenceIds;
      assert GroupKnown(a, g);
    }
  }

  lemma SilentDomains(a: Audit, e: Entry)
    requires Silent(a) && V.Consistent(Base(a)) && e in a.entries
    ensures DomainsAreUses(a, e) && DependenciesOk(a, e)
  {
    var x := e.evidence.id;
    assert EntryOk(a, e);
    if GroupUses(a, x) {
      var g :| g in a.groups && x in g.evidenceIds;
      ClosedListDomain(a, GroupList(g), ARCHITECTURE, e);
    }
    if ListUses(a, x) {
      var l :| BusinessList(a, l) && x in l.ids;
      ClosedListDomain(a, l, BUSINESS, e);
    }
    if BUSINESS in e.domains {
      BusinessEvidenceIsUsed(a, e);
    }
  }

  lemma BusinessEvidenceIsUsed(a: Audit, e: Entry)
    requires CatalogOk(a) && V.Consistent(Base(a)) && e in a.entries && BUSINESS in e.domains
    ensures V.BusinessUses(Base(a), e.evidence.id)
  {
    var x := e.evidence.id;
    EntryIsListed(a, e);
    ProducersOk(a);
    BusinessRefersIffUses(a, x);
    if x !in V.Referenced(Base(a)) {
      assert V.Unreferenced(Base(a), x);
      var f :| f in a.entries && Exclusive(f) && f.evidence.id == x;
      SameEntry(a, e, f);
    }
  }

  lemma {:induction false} OwnersAre(groups: seq<Group>, path: Id)
    requires V.Distinct(GroupIds(groups))
    ensures V.Distinct(Owners(groups, path))
    ensures forall x :: x in Owners(groups, path) <==> exists g :: g in groups && g.id == x && path in g.supportingFiles
  {
    if groups != [] {
      var front, last := groups[..|groups| - 1], groups[|groups| - 1];
      assert groups == front + [last];
      assert GroupIds(front) == GroupIds(groups)[..|groups| - 1];
      OwnersAre(front, path);
      var before := Owners(front, path);
      forall i | 0 <= i < |before| ensures before[i] != last.id {
        assert before[i] in before;
        var g :| g in front && g.id == before[i];
        var j :| 0 <= j < |front| && front[j] == g;
        assert GroupIds(groups)[j] != GroupIds(groups)[|groups| - 1];
      }
    }
  }

  lemma SameGroup(groups: seq<Group>, g: Group, h: Group)
    requires V.Distinct(GroupIds(groups)) && g in groups && h in groups && g.id == h.id
    ensures g == h
  {
    var i :| 0 <= i < |groups| && groups[i] == g;
    var j :| 0 <= j < |groups| && groups[j] == h;
    assert GroupIds(groups)[i] == GroupIds(groups)[j];
  }

  lemma GroupIsListed(groups: seq<Group>, g: Group)
    requires g in groups
    ensures g.id in GroupIds(groups)
  {
    var i :| 0 <= i < |groups| && groups[i] == g;
    assert GroupIds(groups)[i] == g.id;
  }

  /** The sorted comparison of owners is the symmetry of the relation. */
  lemma OwnershipComparison(a: Audit, f: FileEntry)
    requires V.Distinct(GroupIds(a.groups)) && V.Distinct(f.groupIds)
    ensures FileOk(a, f) <==> OwnershipMatches(a, f)
  {
    var owners := Owners(a.groups, f.path);
    OwnersAre(a.groups, f.path);
    V.SortedComparison(owners, f.groupIds);
    if FileOk(a, f) {
      forall g | g in a.groups ensures g.id in f.groupIds <==> f.path in g.supportingFiles {
        if g.id in owners {
          var h :| h in a.groups && h.id == g.id && f.path in h.supportingFiles;
          SameGroup(a.groups, g, h);
        }
      }
      forall x | x in f.groupIds ensures x in GroupIds(a.groups) {
        var g :| g in a.groups && g.id == x && f.path in g.supportingFiles;
        GroupIsListed(a.groups, g);
      }
    }
    if OwnershipMatches(a, f) {
      forall x ensures x in owners <==> x in f.groupIds {
        if x in f.groupIds {
          var i :| 0 <= i < |a.groups| && GroupIds(a.groups)[i] == x;
          assert a.groups[i] in a.groups;
        }
      }
    }
  }

  lemma SilentIsAudited(a: Audit)
    requires Silent(a) && Schema(a)
    ensures Audited(a)
  {
    V.CheckedIsConsistent(Base(a));
    forall x ensures x in Ids(a) <==> V.BusinessUses(Base(a), x) || GroupUses(a, x) {
      SilentEvidence(a, x);
    }
    forall e | e in a.entries ensures DomainsAreUses(a, e) && DependenciesOk(a, e) {
      SilentDomains(a, e);
    }
    forall f | f in a.files ensures OwnershipMatches(a, f) {
      OwnershipComparison(a, f);
    }
  }

  // ----- and audited means silence

  lemma OneValueOnce(xs: seq<Id>, x: Id)
    requires V.Distinct(xs) && xs != [] && forall i :: 0 <= i < |xs| ==> xs[i] == x
    ensures xs == [x]
  {
    assert xs[0] == xs[|xs| - 1];
  }

  /** An entry that is not marked as business is marked as architecture alone. */
  lemma OnlyArchitecture(e: Entry)
    requires V.Distinct(e.domains) && e.domains != [] && KnownDomains(e.domains) && BUSINESS !in e.domains
    ensures Exclusive(e)
  {
    forall i | 0 <= i < |e.domains| ensures e.domains[i] == ARCHITECTURE {
      assert e.domains[i] in e.domains;
    }
    OneValueOnce(e.domains, ARCHITECTURE);
  }

  lemma UnreferencedIsExclusive(a: Audit, x: Id)
    requires Audited(a) && Schema(a) && V.Unreferenced(Base(a), x)
    ensures ExclusiveId(a, x)
  {
    var e := ListedEntry(a, x);
    ProducersOk(a);
    BusinessRefersIffUses(a, x);
    assert DomainsAreUses(a, e);
    OnlyArchitecture(e);
  }

  lemma AuditedCatalog(a: Audit)
    requires Audited(a) && Schema(a)
    ensures CatalogOk(a)
  {
    ProducersOk(a);
    forall x | x in V.Referenced(Base(a)) ensures x in Ids(a) {
      BusinessRefersIffUses(a, x);
    }
    V.ConsistentIsChecked(Base(a));
    forall x | V.Unreferenced(Base(a), x) ensures ExclusiveId(a, x) {
      UnreferencedIsExclusive(a, x);
    }
  }

  lemma AuditedGroups(a: Audit)
    requires Audited(a) && Schema(a)
    ensures GroupsOk(a)
  {
    forall g | g in a.groups ensures GroupKnown(a, g) {
      forall x | x in g.evidenceIds ensures x in Ids(a) {
        assert GroupUses(a, x);
      }
    }
    forall f | f in a.files ensures FileOk(a, f) {
      OwnershipComparison(a, f);
    }
  }

  /** The pass is sound and complete: it is silent exactly when the catalog is consistent, every list of a kind,
      a producer, a relation or a group is closed within its domain, evidence is listed just when one side uses
      it, the domains of each entry are its uses, and files and groups agree. */
  lemma SilenceMeansAudited(a: Audit)
    requires Schema(a)
    ensures Silent(a) <==> Audited(a)
  {
    if Silent(a) {
      SilentIsAudited(a);
    }
    if Audited(a) {
      AuditedCatalog(a);
      AuditedGroups(a);
      forall e | e in a.entries ensures EntryOk(a, e) {
        assert DomainsAreUses(a, e) && DependenciesOk(a, e);
      }
    }
  }

  // ----- the loops that collect errors

  datatype Error = OfCatalog(error: V.Error) | ArchitectureUnreferenced(id: Id) | ArchitectureMissing(id: Id)
    | DuplicateDependency(id: Id) | DependencyMissing(id: Id) | OfClosure(context: Context, problem: C.Error)
    | DuplicateGroup(error: V.Error) | FileOwnership(path: Id) | FileIncomplete(group: Id, path: Id)
    | FileMissing(group: Id, path: Id)

  function ExclusiveIds(a: Audit): set<Id> {
    set e | e in a.entries && Exclusive(e) :: e.evidence.id
  }

  /** Whether `reject!` takes the error out. */
  predicate Rejected(exclusive: set<Id>, e: V.Error) {
    e.EvidenceUnreferenced? && e.id in exclusive
  }

  method Reject(found: seq<V.Error>, exclusive: set<Id>) returns (errors: seq<Error>)
    ensures errors == [] <==> forall j :: 0 <= j < |found| ==> Rejected(exclusive, found[j])
  {
    errors := [];
    for i := 0 to |found|
      invariant errors == [] <==> forall j :: 0 <= j < i ==> Rejected(exclusive, found[j])
    {
      if !Rejected(exclusive, found[i]) {
        errors := errors + [OfCatalog(found[i])];
      }
    }
  }

  method CatalogErrors(a: Audit) returns (errors: seq<Error>)
    ensures errors == [] <==> CatalogOk(a)
  {
    var found := V.ReferenceErrors(Base(a));
    RejectedMeans(a, found);
    errors := Reject(found, ExclusiveIds(a));
  }

  lemma RejectedMeans(a: Audit, found: seq<V.Error>)
    requires (forall e :: e in found ==> e.EvidenceUnreferenced?) <==> V.CheckedButForUse(Base(a))
    requires forall x :: V.EvidenceUnreferenced(x) in found <==> V.Unreferenced(Base(a), x)
    ensures (forall j :: 0 <= j < |found| ==> Rejected(ExclusiveIds(a), found[j])) <==> CatalogOk(a)
  {
    if forall j :: 0 <= j < |found| ==> Rejected(ExclusiveIds(a), found[j]) {
      forall x | V.Unreferenced(Base(a), x) ensures ExclusiveId(a, x) {
        assert V.EvidenceUnreferenced(x) in found;
      }
    }
    if CatalogOk(a) {
      forall j | 0 <= j < |found| ensures Rejected(ExclusiveIds(a), found[j]) {
        assert found[j] in found && found[j] == V.EvidenceUnreferenced(found[j].id);
        assert V.Unreferenced(Base(a), found[j].id);
      }
    }
  }

  function GroupReferences(a: Audit): set<Id> {
    set g, x | g in a.groups && x in g.evidenceIds :: x
  }

  method EntryErrors(a: Audit, e: Entry) returns (errors: seq<Error>)
    ensures errors == [] <==> EntryOk(a, e)
  {
    errors := [];
    if ARCHITECTURE in e.domains && e.evidence.id !in GroupReferences(a) {
      errors := errors + [ArchitectureUnreferenced(e.evidence.id)];
    }
    if !V.Distinct(e.dependencies) {
      errors := errors + [DuplicateDependency(e.evidence.id)];
    }
    var missing := DependencyErrors(a, e);
    errors := errors + missing;
  }

  method DependencyErrors(a: Audit, e: Entry) returns (errors: seq<Error>)
    ensures errors == [] <==> forall d :: d in e.dependencies ==> d in Ids(a)
  {
    errors := [];
    for i := 0 to |e.dependencies|
      invariant errors == [] <==> forall j :: 0 <= j < i ==> e.dependencies[j] in Ids(a)
    {
      if e.dependencies[i] !in Ids(a) {
        errors := errors + [DependencyMissing(e.dependencies[i])];
      }
    }
  }

  method EntriesErrors(a: Audit) returns (errors: seq<Error>)
    ensures errors == [] <==> forall e :: e in a.entries ==> EntryOk(a, e)
  {
    errors := [];
    for i := 0 to |a.entries|
      invariant errors == [] <==> forall j :: 0 <= j < i ==> EntryOk(a, a.entries[j])
    {
      var more := EntryErrors(a, a.entries[i]);
      errors := errors + more;
    }
  }

  method ListErrors(a: Audit, l: List, domain: Id) returns (errors: seq<Error>)
    ensures errors == [] <==> Closed(a, l, domain)
  {
    var found := C.ClosureErrors(Links(a), l.ids, domain);
    errors := seq(|found|, i requires 0 <= i < |found| => OfClosure(l.context, found[i]));
  }

  method AllListErrors(a: Audit, lists: seq<List>, domain: Id) returns (errors: seq<Error>)
    ensures errors == [] <==> forall l :: l in lists ==> Closed(a, l, domain)
  {
    errors := [];
    for i := 0 to |lists|
      invariant errors == [] <==> forall j :: 0 <= j < i ==> Closed(a, lists[j], domain)
    {
      var more := ListErrors(a, lists[i], domain);
      errors := errors + more;
    }
  }

  /** `business_lists`. */
  method BusinessLists(a: Audit) returns (lists: seq<List>)
    ensures forall l :: l in lists <==> BusinessList(a, l)
  {
    lists := [];
    for i := 0 to |a.kinds|
      invariant forall l :: l in lists <==> exists j :: 0 <= j < i && l == KindList(a.kinds[j])
    {
      lists := lists + [KindList(a.kinds[i])];
    }
    ghost var kinds := lists;
    for i := 0 to |a.producers|
      invariant forall l :: l in lists <==> l in kinds || exists j :: 0 <= j < i && l in ProducerLists(a.producers[j])
    {
      lists := lists + ProducerLists(a.producers[i]);
    }
  }

  function GroupLists(groups: seq<Group>): (r: seq<List>)
    ensures |r| == |groups| && forall i :: 0 <= i < |r| ==> r[i] == GroupList(groups[i])
  {
    seq(|groups|, i requires 0 <= i < |groups| => GroupList(groups[i]))
  }

  method ClosureErrors(a: Audit) returns (errors: seq<Error>)
    ensures errors == [] <==> ListsClosed(a)
  {
    var lists := BusinessLists(a);
    var business := AllListErrors(a, lists, BUSINESS);
    var architecture := AllListErrors(a, GroupLists(a.groups), ARCHITECTURE);
    errors := business + architecture;
    GroupListsAre(a.groups);
  }

  lemma GroupListsAre(groups: seq<Group>)
    ensures forall l :: l in GroupLists(groups) <==> exists g :: g in groups && l == GroupList(g)
  {
    forall g | g in groups ensures GroupList(g) in GroupLists(groups) {
      var i :| 0 <= i < |groups| && groups[i] == g;
      assert GroupLists(groups)[i] == GroupList(g);
    }
  }

  method CollectOwners(groups: seq<Group>, path: Id) returns (owners: seq<Id>)
    ensures owners == Owners(groups, path)
  {
    owners := [];
    for i := 0 to |groups|
      invariant owners == Owners(groups[..i], path)
    {
      assert groups[..i + 1][..i] == groups[..i];
      if path in groups[i].supportingFiles {
        owners := owners + [groups[i].id];
      }
    }
    assert groups[..|groups|] == groups;
  }

  method FileErrors(a: Audit) returns (errors: seq<Error>)
    ensures errors == [] <==> forall f :: f in a.files ==> FileOk(a, f)
  {
    errors := [];
    for i := 0 to |a.files|
      invariant errors == [] <==> forall j :: 0 <= j < i ==> FileOk(a, a.files[j])
    {
      var owners := CollectOwners(a.groups, a.files[i].path);
      if multiset(owners) != multiset(a.files[i].groupIds) {
        errors := errors + [FileOwnership(a.files[i].path)];
      }
    }
  }

  method GroupFileErrors(a: Audit, g: Group) returns (errors: seq<Error>)
    ensures errors == [] <==> GroupFilesOk(a, g)
  {
    errors := [];
    for i := 0 to |a.entries|
      invariant errors == [] <==> forall j :: 0 <= j < i && a.entries[j].evidence.id in g.evidenceIds ==>
        a.entries[j].evidence.locator.path in g.supportingFiles
    {
      var v := a.entries[i].evidence;
      if v.id in g.evidenceIds && v.locator.path !in g.supportingFiles {
        errors := errors + [FileIncomplete(g.id, v.locator.path)];
      }
    }
    var incomplete := errors;
    for i := 0 to |g.supportingFiles|
      invariant errors == [] <==>
        incomplete == [] && forall j :: 0 <= j < i ==> g.supportingFiles[j] in PathsOf(a.files)
    {
      if g.supportingFiles[i] !in PathsOf(a.files) {
        errors := errors + [FileMissing(g.id, g.supportingFiles[i])];
      }
    }
  }

  method GroupReferenceErrors(a: Audit, g: Group) returns (errors: seq<Error>)
    ensures errors == [] <==> GroupKnown(a, g)
  {
    errors := [];
    for i := 0 to |g.evidenceIds|
      invariant errors == [] <==> forall j :: 0 <= j < i ==> g.evidenceIds[j] in Ids(a)
    {
      if g.evidenceIds[i] !in Ids(a) {
        errors := errors + [ArchitectureMissing(g.evidenceIds[i])];
      }
    }
  }

  method GroupErrors(a: Audit) returns (errors: seq<Error>)
    ensures errors == [] <==> GroupsOk(a)
  {
    var found := V.Duplicates(GroupIds(a.groups));
    errors := seq(|found|, i requires 0 <= i < |found| => DuplicateGroup(found[i]));
    ghost var duplicates := errors;
    for i := 0 to |a.groups|
      invariant errors == [] <==>
        duplicates == [] && forall j :: 0 <= j < i ==> GroupKnown(a, a.groups[j]) && GroupFilesOk(a, a.groups[j])
    {
      var missing := GroupReferenceErrors(a, a.groups[i]);
      var byFile := GroupFileErrors(a, a.groups[i]);
      errors := errors + missing + byFile;
    }
    var files := FileErrors(a);
    errors := errors + files;
  }

  /** `reference_errors` of the audit, up to the bindings. */
  method ReferenceErrors(a: Audit) returns (errors: seq<Error>)
    ensures errors == [] <==> Silent(a)
    ensures Schema(a) ==> (errors == [] <==> Audited(a))
  {
    var byCatalog := CatalogErrors(a);
    var byEntry := EntriesErrors(a);
    var byList := ClosureErrors(a);
    var byGroup := GroupErrors(a);
    errors := byCatalog + byEntry + byList + byGroup;
    if Schema(a) {
      SilenceMeansAudited(a);
    }
  }
}
