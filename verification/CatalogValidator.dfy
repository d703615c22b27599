/** The relational validator of the push capability catalog (`reference_errors` in
    scripts/architecture-docs/catalog.rb). */
module CatalogValidator {
  type Id = string

  datatype Kind = Kind(kind: Id, inactive: bool, producerIds: seq<Id>, evidenceIds: seq<Id>)

  /** A producer; its four relations are given by their evidence ids. */
  datatype Producer = Producer(id: Id, kinds: seq<Id>, phases: seq<Id>, family: Id, owner: Id, unit: Id,
                               evidenceIds: seq<Id>, trigger: seq<Id>, source: seq<Id>, authority: seq<Id>,
                               policy: seq<Id>, knownGaps: seq<Id>) {
    function Relations(): seq<Id> {
      trigger + source + authority + policy
    }
  }

  datatype Unit = Unit(id: Id, producerIds: seq<Id>, owner: Id, families: seq<Id>, phases: seq<Id>)

  datatype Locator = Locator(path: Id, kind: Id, symbol: Id)

  datatype Evidence = Evidence(id: Id, locator: Locator)

  /** The catalog and its evidence manifest. */
  datatype Catalog = Catalog(kinds: seq<Kind>, producers: seq<Producer>, units: seq<Unit>, evidence: seq<Evidence>,
                             files: seq<Id>, enumEvidence: Id, excluded: seq<Id>)

  const EXCLUDED: seq<Id> := ["PaperBuy", "Watchdog"]

  datatype Error = Duplicate(id: Id) | DuplicateLocator(locator: Locator) | ProducerMissing(id: Id)
    | ReferenceMissing(id: Id) | EvidenceUnreferenced(id: Id)
    | ProducerKindMismatch(id: Id) | UnitReferenceMissing(id: Id) | CompletionOwnerMismatch(id: Id)
    | UnitProducerMismatch(id: Id) | ProducerEvidenceIncomplete(id: Id) | ExternalReasonMissing(id: Id)
    | UnitOccurrenceMismatch(id: Id) | UnitPhaseMismatch(id: Id) | SharedOwnerSplit(id: Id)
    | ExcludedKindInEnum(id: Id) | ExcludedMismatch

  predicate Distinct<T(==)>(xs: seq<T>) {
    forall i, j :: 0 <= i < j < |xs| ==> xs[i] != xs[j]
  }

  /** What the schema pass has established: lists of references repeat nothing, and those of a unit are
      not empty. */
  predicate Schema(c: Catalog) {
    && (forall k :: k in c.kinds ==> Distinct(k.producerIds))
    && (forall p :: p in c.producers ==> Distinct(p.kinds))
    && (forall u :: u in c.units ==> Distinct(u.producerIds) && u.producerIds != [])
    && (forall u :: u in c.units ==> Distinct(u.families) && Distinct(u.phases))
  }

  // ----- lists compared after sorting

  function KindIds(kinds: seq<Kind>): (r: seq<Id>)
    ensures |r| == |kinds| && forall i :: 0 <= i < |r| ==> r[i] == kinds[i].kind
  {
    seq(|kinds|, i requires 0 <= i < |kinds| => kinds[i].kind)
  }

  function ProducerIds(producers: seq<Producer>): (r: seq<Id>)
    ensures |r| == |producers| && forall i :: 0 <= i < |r| ==> r[i] == producers[i].id
  {
    seq(|producers|, i requires 0 <= i < |producers| => producers[i].id)
  }

  function UnitIds(units: seq<Unit>): (r: seq<Id>)
    ensures |r| == |units| && forall i :: 0 <= i < |r| ==> r[i] == units[i].id
  {
    seq(|units|, i requires 0 <= i < |units| => units[i].id)
  }

  function EvidenceIds(evidence: seq<Evidence>): (r: seq<Id>)
    ensures |r| == |evidence| && forall i :: 0 <= i < |r| ==> r[i] == evidence[i].id
  {
    seq(|evidence|, i requires 0 <= i < |evidence| => evidence[i].id)
  }

  function Locators(evidence: seq<Evidence>): (r: seq<Locator>)
    ensures |r| == |evidence| && forall i :: 0 <= i < |r| ==> r[i] == evidence[i].locator
  {
    seq(|evidence|, i requires 0 <= i < |evidence| => evidence[i].locator)
  }

  /** The names of the kinds that list this producer. */
  function Reverse(kinds: seq<Kind>, id: Id): seq<Id> {
    if kinds == [] then []
    else
      var last := kinds[|kinds| - 1];
      Reverse(kinds[..|kinds| - 1], id) + if id in last.producerIds then [last.kind] else []
  }

  /** The producers that name this unit. */
  function Members(producers: seq<Producer>, unit: Id): seq<Producer> {
    if producers == [] then []
    else
      var last := producers[|producers| - 1];
      Members(producers[..|producers| - 1], unit) + if last.unit == unit then [last] else []
  }

  function Families(producers: seq<Producer>): set<Id> {
    set p | p in producers :: p.family
  }

  function Phases(producers: seq<Producer>): set<Id> {
    set p, x | p in producers && x in p.phases :: x
  }

  /** All evidence the catalog refers to. */
  function Referenced(c: Catalog): set<Id> {
    {c.enumEvidence} + (set k, x | k in c.kinds && x in k.evidenceIds :: x) +
    (set p, x | p in c.producers && x in p.evidenceIds + p.Relations() :: x)
  }

  /** Equal after sorting. */
  predicate SameItems(a: seq<Id>, b: seq<Id>) {
    multiset(a) == multiset(b)
  }

  lemma {:induction false} OccursOnce(xs: seq<Id>, x: Id)
    requires Distinct(xs)
    ensures multiset(xs)[x] == if x in xs then 1 else 0
  {
    if xs != [] {
      var front := xs[..|xs| - 1];
      assert xs == front + [xs[|xs| - 1]];
      OccursOnce(front, x);
    }
  }

  /** For lists that repeat nothing, sorting compares the sets. */
  lemma SortedComparison(a: seq<Id>, b: seq<Id>)
    requires Distinct(a) && Distinct(b)
    ensures SameItems(a, b) <==> forall x :: x in a <==> x in b
  {
    if SameItems(a, b) {
      forall x ensures x in a <==> x in b {
        assert x in multiset(a) <==> x in multiset(b);
      }
    }
    if forall x :: x in a <==> x in b {
      forall x ensures multiset(a)[x] == multiset(b)[x] {
        OccursOnce(a, x);
        OccursOnce(b, x);
      }
    }
  }

  lemma {:induction false} ReverseIs(kinds: seq<Kind>, id: Id)
    requires Distinct(KindIds(kinds))
    ensures Distinct(Reverse(kinds, id))
    ensures forall x :: x in Reverse(kinds, id) <==> exists k :: k in kinds && k.kind == x && id in k.producerIds
  {
    if kinds != [] {
      var front, last := kinds[..|kinds| - 1], kinds[|kinds| - 1];
      assert kinds == front + [last];
      assert KindIds(front) == KindIds(kinds)[..|kinds| - 1];
      ReverseIs(front, id);
      var before := Reverse(front, id);
      forall i | 0 <= i < |before| ensures before[i] != last.kind {
        assert before[i] in before;
        var k :| k in front && k.kind == before[i];
        var j :| 0 <= j < |front| && front[j] == k;
        assert KindIds(kinds)[j] != KindIds(kinds)[|kinds| - 1];
      }
    }
  }

  lemma {:induction false} MembersAre(producers: seq<Producer>, unit: Id)
    requires Distinct(ProducerIds(producers))
    ensures Distinct(ProducerIds(Members(producers, unit)))
    ensures forall p :: p in Members(producers, unit) <==> p in producers && p.unit == unit
  {
    if producers != [] {
      var front, last := producers[..|producers| - 1], producers[|producers| - 1];
      assert producers == front + [last];
      assert ProducerIds(front) == ProducerIds(producers)[..|producers| - 1];
      MembersAre(front, unit);
      var before := Members(front, unit);
      forall i | 0 <= i < |before| ensures before[i].id != last.id {
        assert before[i] in front;
        var j :| 0 <= j < |front| && front[j] == before[i];
        assert ProducerIds(producers)[j] != ProducerIds(producers)[|producers| - 1];
      }
    }
  }

  // ----- the checks

  predicate KindOk(c: Catalog, k: Kind) {
    (k.inactive || k.producerIds != []) && forall id :: id in k.producerIds ==> id in ProducerIds(c.producers)
  }

  ghost predicate HasUnit(c: Catalog, p: Producer) {
    p.unit in UnitIds(c.units)
  }

  /** The first unit of that name is the one `find` returns. */
  predicate FirstUnit(c: Catalog, id: Id, u: nat) {
    u < |c.units| && c.units[u].id == id && forall j :: 0 <= j < u ==> c.units[j].id != id
  }

  ghost predicate ProducerOk(c: Catalog, p: Producer) {
    SameItems(Reverse(c.kinds, p.id), p.kinds) && HasUnit(c, p) && InItsUnit(c, p) && EvidenceOk(p)
  }

  /** The unit that is found has the same owner and lists the producer. */
  ghost predicate InItsUnit(c: Catalog, p: Producer) {
    forall u: nat :: FirstUnit(c, p.unit, u) ==> p.owner == c.units[u].owner && p.id in c.units[u].producerIds
  }

  predicate EvidenceOk(p: Producer) {
    (forall x :: x in p.Relations() ==> x in p.evidenceIds) && (p.kinds == [] ==> p.knownGaps != [])
  }

  predicate UnitOk(c: Catalog, u: Unit) {
    var members := Members(c.producers, u.id);
    && SameItems(ProducerIds(members), u.producerIds)
    && SortedSet(Families(members), u.families) && SortedSet(Phases(members), u.phases)
  }

  /** A sorted list without repetitions compared with a sorted list. */
  predicate SortedSet(items: set<Id>, listed: seq<Id>) {
    multiset(items) == multiset(listed)
  }

  predicate ReferencesListed(c: Catalog) {
    forall x :: x in Referenced(c) ==> x in EvidenceIds(c.evidence)
  }

  predicate Unreferenced(c: Catalog, x: Id) {
    x in EvidenceIds(c.evidence) && x !in Referenced(c)
  }

  predicate EvidenceMatches(c: Catalog) {
    ReferencesListed(c) && forall x :: x in EvidenceIds(c.evidence) ==> x in Referenced(c)
  }

  predicate ExcludedOk(c: Catalog) {
    SameItems(c.excluded, EXCLUDED) && forall x :: x in c.excluded ==> x !in KindIds(c.kinds)
  }

  ghost predicate OwnersOk(c: Catalog) {
    forall p, q :: p in c.producers && q in c.producers && p.owner == q.owner ==> p.unit == q.unit
  }

  predicate DistinctIds(c: Catalog) {
    && Distinct(KindIds(c.kinds)) && Distinct(ProducerIds(c.producers)) && Distinct(UnitIds(c.units))
    && Distinct(EvidenceIds(c.evidence)) && Distinct(c.files) && Distinct(Locators(c.evidence))
  }

  /** All checks but the one for unused evidence. */
  ghost predicate CheckedButForUse(c: Catalog) {
    && DistinctIds(c) && ReferencesListed(c) && ExcludedOk(c)
    && (forall i :: 0 <= i < |c.kinds| ==> KindOk(c, c.kinds[i]))
    && (forall i :: 0 <= i < |c.producers| ==> ProducerOk(c, c.producers[i]))
    && (forall i :: 0 <= i < |c.units| ==> UnitOk(c, c.units[i]))
    && OwnersOk(c)
  }

  ghost predicate Checked(c: Catalog) {
    CheckedButForUse(c) && EvidenceMatches(c)
  }

  // ----- what the checks mean

  /** A kind lists the producer exactly when the producer lists the kind; and it lists kinds only. */
  ghost predicate KindsMatch(c: Catalog, p: Producer) {
    && (forall k :: k in c.kinds ==> (p.id in k.producerIds <==> k.kind in p.kinds))
    && (forall x :: x in p.kinds ==> x in KindIds(c.kinds))
  }

  /** The unit lists exactly the producers that name it. */
  ghost predicate ListsItsOwn(c: Catalog, u: Unit) {
    && (forall p :: p in c.producers ==> (p.id in u.producerIds <==> p.unit == u.id))
    && (forall id :: id in u.producerIds ==> id in ProducerIds(c.producers))
  }

  ghost predicate FamiliesCovered(c: Catalog, u: Unit) {
    forall x :: x in u.families <==> exists p :: p in c.producers && p.unit == u.id && p.family == x
  }

  ghost predicate PhasesCovered(c: Catalog, u: Unit) {
    forall x :: x in u.phases <==> exists p :: p in c.producers && p.unit == u.id && x in p.phases
  }

  /** The enumeration, a kind or a producer refers to the evidence. */
  ghost predicate BusinessUses(c: Catalog, x: Id) {
    || x == c.enumEvidence
    || (exists k :: k in c.kinds && x in k.evidenceIds)
    || (exists p :: p in c.producers && x in p.evidenceIds)
  }

  /** The evidence entries are exactly what the enumeration, a kind or a producer refers to. */
  ghost predicate EvidenceUsed(c: Catalog) {
    forall x :: x in EvidenceIds(c.evidence) <==> BusinessUses(c, x)
  }

  /** Completion owners and units correspond one to one. */
  ghost predicate OwnersMatchUnits(c: Catalog) {
    && (forall u, p :: u in c.units && p in c.producers && p.unit == u.id ==> p.owner == u.owner)
    && (forall u, v :: u in c.units && v in c.units && u.owner == v.owner ==> u == v)
  }

  /** What the checks mean, except for the evidence. */
  ghost predicate Consistent(c: Catalog) {
    && DistinctIds(c) && ExcludedOk(c)
    && (forall k :: k in c.kinds ==> KindOk(c, k))
    && (forall p :: p in c.producers ==> KindsMatch(c, p) && p.unit in UnitIds(c.units) && EvidenceOk(p))
    && (forall u :: u in c.units ==> ListsItsOwn(c, u) && FamiliesCovered(c, u) && PhasesCovered(c, u))
    && OwnersMatchUnits(c)
  }

  ghost predicate Meaning(c: Catalog) {
    Consistent(c) && EvidenceUsed(c)
  }

  lemma SameKind(kinds: seq<Kind>, k: Kind, l: Kind)
    requires Distinct(KindIds(kinds)) && k in kinds && l in kinds && k.kind == l.kind
    ensures k == l
  {
    var i :| 0 <= i < |kinds| && kinds[i] == k;
    var j :| 0 <= j < |kinds| && kinds[j] == l;
    assert KindIds(kinds)[i] == KindIds(kinds)[j];
  }

  lemma SameProducer(producers: seq<Producer>, p: Producer, q: Producer)
    requires Distinct(ProducerIds(producers)) && p in producers && q in producers && p.id == q.id
    ensures p == q
  {
    var i :| 0 <= i < |producers| && producers[i] == p;
    var j :| 0 <= j < |producers| && producers[j] == q;
    assert ProducerIds(producers)[i] == ProducerIds(producers)[j];
  }

  lemma SameUnit(units: seq<Unit>, u: Unit, v: Unit)
    requires Distinct(UnitIds(units)) && u in units && v in units && u.id == v.id
    ensures u == v
  {
    var i :| 0 <= i < |units| && units[i] == u;
    var j :| 0 <= j < |units| && units[j] == v;
    assert UnitIds(units)[i] == UnitIds(units)[j];
  }

  /** The reverse-lookup comparison is the symmetry of the relation. */
  lemma ReverseComparison(c: Catalog, p: Producer)
    requires Distinct(KindIds(c.kinds)) && Distinct(p.kinds)
    ensures SameItems(Reverse(c.kinds, p.id), p.kinds) <==> KindsMatch(c, p)
  {
    var reverse := Reverse(c.kinds, p.id);
    ReverseIs(c.kinds, p.id);
    SortedComparison(reverse, p.kinds);
    if SameItems(reverse, p.kinds) {
      forall k | k in c.kinds ensures p.id in k.producerIds <==> k.kind in p.kinds {
        if k.kind in reverse {
          var l :| l in c.kinds && l.kind == k.kind && p.id in l.producerIds;
          SameKind(c.kinds, k, l);
        }
      }
      forall x | x in p.kinds ensures x in KindIds(c.kinds) {
        var k :| k in c.kinds && k.kind == x && p.id in k.producerIds;
        KindIsListed(c.kinds, k);
      }
    }
    if KindsMatch(c, p) {
      forall x | x in p.kinds ensures x in reverse {
        var i :| 0 <= i < |c.kinds| && KindIds(c.kinds)[i] == x;
        assert c.kinds[i] in c.kinds && c.kinds[i].kind == x;
      }
    }
  }

  lemma KindIsListed(kinds: seq<Kind>, k: Kind)
    requires k in kinds
    ensures k.kind in KindIds(kinds)
  {
    var i :| 0 <= i < |kinds| && kinds[i] == k;
    assert KindIds(kinds)[i] == k.kind;
  }

  lemma ProducerIsListed(producers: seq<Producer>, p: Producer)
    requires p in producers
    ensures p.id in ProducerIds(producers)
  {
    var i :| 0 <= i < |producers| && producers[i] == p;
    assert ProducerIds(producers)[i] == p.id;
  }

  lemma ListedProducer(producers: seq<Producer>, id: Id) returns (p: Producer)
    requires id in ProducerIds(producers)
    ensures p in producers && p.id == id
  {
    var i :| 0 <= i < |producers| && ProducerIds(producers)[i] == id;
    p := producers[i];
  }

  /** The member comparison says the unit lists its own producers. */
  lemma MemberComparison(c: Catalog, u: Unit)
    requires Distinct(ProducerIds(c.producers)) && Distinct(u.producerIds)
    ensures SameItems(ProducerIds(Members(c.producers, u.id)), u.producerIds) <==> ListsItsOwn(c, u)
  {
    var members := Members(c.producers, u.id);
    MembersAre(c.producers, u.id);
    SortedComparison(ProducerIds(members), u.producerIds);
    if SameItems(ProducerIds(members), u.producerIds) {
      forall p | p in c.producers ensures p.id in u.producerIds <==> p.unit == u.id {
        if p.id in ProducerIds(members) {
          var q := ListedProducer(members, p.id);
          SameProducer(c.producers, p, q);
        }
        if p in members {
          ProducerIsListed(members, p);
        }
      }
      forall id | id in u.producerIds ensures id in ProducerIds(c.producers) {
        var q := ListedProducer(members, id);
        ProducerIsListed(c.producers, q);
      }
    }
    if ListsItsOwn(c, u) {
      forall id ensures id in ProducerIds(members) <==> id in u.producerIds {
        if id in ProducerIds(members) {
          var q := ListedProducer(members, id);
        }
        if id in u.producerIds {
          var q := ListedProducer(c.producers, id);
          ProducerIsListed(members, q);
        }
      }
    }
  }

  lemma SetComparison(items: set<Id>, listed: seq<Id>)
    requires Distinct(listed)
    ensures SortedSet(items, listed) <==> forall x :: x in listed <==> x in items
  {
    forall x
      ensures multiset(items)[x] == (if x in items then 1 else 0) && multiset(listed)[x] == if x in listed then 1 else 0
    {
      OccursOnce(listed, x);
    }
    if SortedSet(items, listed) {
      forall x ensures x in listed <==> x in items {
        assert multiset(items)[x] == multiset(listed)[x];
      }
    }
    if forall x :: x in listed <==> x in items {
      forall x ensures multiset(items)[x] == multiset(listed)[x] {
        assert x in listed <==> x in items;
      }
    }
  }

  lemma FamilyComparison(c: Catalog, u: Unit)
    requires Distinct(ProducerIds(c.producers)) && Distinct(u.families)
    ensures SortedSet(Families(Members(c.producers, u.id)), u.families) <==> FamiliesCovered(c, u)
  {
    var members := Members(c.producers, u.id);
    MembersAre(c.producers, u.id);
    SetComparison(Families(members), u.families);
    forall x ensures x in Families(members) <==> exists p :: p in c.producers && p.unit == u.id && p.family == x {
      if p :| p in c.producers && p.unit == u.id && p.family == x {
        assert p in members;
      }
    }
  }

  lemma PhaseComparison(c: Catalog, u: Unit)
    requires Distinct(ProducerIds(c.producers)) && Distinct(u.phases)
    ensures SortedSet(Phases(Members(c.producers, u.id)), u.phases) <==> PhasesCovered(c, u)
  {
    var members := Members(c.producers, u.id);
    MembersAre(c.producers, u.id);
    SetComparison(Phases(members), u.phases);
    forall x ensures x in Phases(members) <==> exists p :: p in c.producers && p.unit == u.id && x in p.phases {
      if p :| p in c.producers && p.unit == u.id && x in p.phases {
        assert p in members;
      }
    }
  }

  /** Relations add no evidence of their own once they are contained in the producer's list. */
  lemma ReferencedIsUsed(c: Catalog, x: Id)
    requires forall p :: p in c.producers ==> EvidenceOk(p)
    ensures x in Referenced(c) <==> BusinessUses(c, x)
  {
    if p :| p in c.producers && x in p.evidenceIds + p.Relations() {
      assert EvidenceOk(p) && x in p.evidenceIds;
    }
    if p :| p in c.producers && x in p.evidenceIds {
      assert x in p.evidenceIds + p.Relations();
    }
  }

  lemma EvidenceComparison(c: Catalog)
    requires forall p :: p in c.producers ==> EvidenceOk(p)
    ensures EvidenceMatches(c) <==> EvidenceUsed(c)
  {
    forall x ensures x in Referenced(c) <==> BusinessUses(c, x) {
      ReferencedIsUsed(c, x);
    }
  }

  lemma FindsTheUnit(c: Catalog, p: Producer, u: Unit)
    requires Distinct(UnitIds(c.units)) && u in c.units && u.id == p.unit
    ensures HasUnit(c, p) && exists i: nat :: FirstUnit(c, p.unit, i) && c.units[i] == u
  {
    var i: nat :| i < |c.units| && c.units[i] == u;
    assert UnitIds(c.units)[i] == p.unit;
    forall j | 0 <= j < i ensures c.units[j].id != p.unit {
      assert UnitIds(c.units)[j] != UnitIds(c.units)[i];
    }
    assert FirstUnit(c, p.unit, i);
  }

  lemma OwnUnit(c: Catalog, p: Producer) returns (u: Unit)
    requires p.unit in UnitIds(c.units)
    ensures u in c.units && u.id == p.unit
  {
    var i :| 0 <= i < |c.units| && UnitIds(c.units)[i] == p.unit;
    u := c.units[i];
  }

  lemma UnitRelations(c: Catalog, u: Unit)
    requires Distinct(ProducerIds(c.producers)) && Schema(c) && u in c.units
    ensures UnitOk(c, u) <==> ListsItsOwn(c, u) && FamiliesCovered(c, u) && PhasesCovered(c, u)
  {
    MemberComparison(c, u);
    FamilyComparison(c, u);
    PhaseComparison(c, u);
  }

  /** A unit whose list is not empty has a producer, and that producer carries the owner of the unit. */
  lemma UnitHasMember(c: Catalog, u: Unit) returns (p: Producer)
    requires CheckedButForUse(c) && Schema(c) && u in c.units
    ensures p in c.producers && p.unit == u.id && p.owner == u.owner
  {
    var i :| 0 <= i < |c.units| && c.units[i] == u;
    UnitRelations(c, u);
    p := ListedProducer(c.producers, u.producerIds[0]);
    OwnerOfUnit(c, u, p);
  }

  lemma OwnerOfUnit(c: Catalog, u: Unit, p: Producer)
    requires CheckedButForUse(c) && u in c.units && p in c.producers && p.unit == u.id
    ensures p.owner == u.owner
  {
    var j :| 0 <= j < |c.producers| && c.producers[j] == p;
    FindsTheUnit(c, p, u);
  }

  lemma CheckedOwnersMatch(c: Catalog)
    requires CheckedButForUse(c) && Schema(c)
    ensures OwnersMatchUnits(c)
  {
    forall u, p | u in c.units && p in c.producers && p.unit == u.id ensures p.owner == u.owner {
      OwnerOfUnit(c, u, p);
    }
    forall u, v | u in c.units && v in c.units && u.owner == v.owner ensures u == v {
      var p := UnitHasMember(c, u);
      var q := UnitHasMember(c, v);
      SameUnit(c.units, u, v);
    }
  }

  lemma CheckedProducer(c: Catalog, p: Producer)
    requires CheckedButForUse(c) && Schema(c) && p in c.producers
    ensures KindsMatch(c, p) && p.unit in UnitIds(c.units) && EvidenceOk(p)
  {
    var i :| 0 <= i < |c.producers| && c.producers[i] == p;
    ReverseComparison(c, p);
  }

  lemma CheckedUnit(c: Catalog, u: Unit)
    requires CheckedButForUse(c) && Schema(c) && u in c.units
    ensures ListsItsOwn(c, u) && FamiliesCovered(c, u) && PhasesCovered(c, u)
  {
    var i :| 0 <= i < |c.units| && c.units[i] == u;
    UnitRelations(c, u);
  }

  lemma CheckedIsConsistent(c: Catalog)
    requires CheckedButForUse(c) && Schema(c)
    ensures Consistent(c)
  {
    forall k | k in c.kinds ensures KindOk(c, k) {
      var i :| 0 <= i < |c.kinds| && c.kinds[i] == k;
    }
    forall p | p in c.producers ensures KindsMatch(c, p) && p.unit in UnitIds(c.units) && EvidenceOk(p) {
      CheckedProducer(c, p);
    }
    forall u | u in c.units ensures ListsItsOwn(c, u) && FamiliesCovered(c, u) && PhasesCovered(c, u) {
      CheckedUnit(c, u);
    }
    CheckedOwnersMatch(c);
  }

  lemma MeaningfulProducer(c: Catalog, p: Producer)
    requires Distinct(KindIds(c.kinds)) && Distinct(p.kinds) && p in c.producers && KindsMatch(c, p) && HasUnit(c, p)
    requires EvidenceOk(p) && OwnersMatchUnits(c) && forall u :: u in c.units ==> ListsItsOwn(c, u)
    ensures ProducerOk(c, p)
  {
    ReverseComparison(c, p);
    forall i: nat | FirstUnit(c, p.unit, i) ensures p.owner == c.units[i].owner && p.id in c.units[i].producerIds {
      assert c.units[i] in c.units && ListsItsOwn(c, c.units[i]);
    }
  }

  lemma MeaningfulOwners(c: Catalog)
    requires OwnersMatchUnits(c) && forall p :: p in c.producers ==> HasUnit(c, p)
    ensures OwnersOk(c)
  {
    forall p, q | p in c.producers && q in c.producers && p.owner == q.owner ensures p.unit == q.unit {
      var u := OwnUnit(c, p);
      var v := OwnUnit(c, q);
    }
  }

  lemma ConsistentIsChecked(c: Catalog)
    requires Consistent(c) && ReferencesListed(c) && Schema(c)
    ensures CheckedButForUse(c)
  {
    assert forall p :: p in c.producers ==> HasUnit(c, p);
    MeaningfulOwners(c);
    forall i | 0 <= i < |c.producers| ensures ProducerOk(c, c.producers[i]) {
      MeaningfulProducer(c, c.producers[i]);
    }
    forall i | 0 <= i < |c.units| ensures UnitOk(c, c.units[i]) {
      UnitRelations(c, c.units[i]);
    }
  }

  /** The validator is sound and complete: on catalogs of the right shape it stays silent exactly when kinds
      and producers relate symmetrically, units partition the producers, and owners match units one to one. */
  lemma SilenceMeansConsistency(c: Catalog)
    requires Schema(c)
    ensures Checked(c) <==> Meaning(c)
  {
    if Checked(c) {
      CheckedIsConsistent(c);
      EvidenceComparison(c);
    }
    if Meaning(c) {
      EvidenceComparison(c);
      ConsistentIsChecked(c);
    }
  }

  // ----- the loops that collect errors

  /** None of the errors is about unused evidence. */
  predicate Others(errors: seq<Error>) {
    forall e :: e in errors ==> !e.EvidenceUnreferenced?
  }

  method Duplicates(ids: seq<Id>) returns (errors: seq<Error>)
    ensures errors == [] <==> Distinct(ids)
    ensures Others(errors)
  {
    errors := [];
    var seen: set<Id> := {};
    for i := 0 to |ids|
      invariant forall x :: x in seen <==> x in ids[..i]
      invariant Others(errors)
      invariant errors == [] <==> Distinct(ids[..i])
    {
      assert ids[..i + 1] == ids[..i] + [ids[i]];
      if ids[i] in seen {
        var j :| 0 <= j < i && ids[..i][j] == ids[i];
        assert ids[..i + 1][j] == ids[..i + 1][i];
        errors := errors + [Duplicate(ids[i])];
      }
      seen := seen + {ids[i]};
    }
    assert ids[..|ids|] == ids;
  }

  method LocatorErrors(locators: seq<Locator>) returns (errors: seq<Error>)
    ensures errors == [] <==> Distinct(locators)
    ensures Others(errors)
  {
    errors := [];
    for i := 0 to |locators|
      invariant Others(errors)
      invariant errors == [] <==> Distinct(locators[..i])
    {
      assert locators[..i + 1] == locators[..i] + [locators[i]];
      if locators[i] in locators[..i] {
        var j :| 0 <= j < i && locators[..i][j] == locators[i];
        assert locators[..i + 1][j] == locators[..i + 1][i];
        errors := errors + [DuplicateLocator(locators[i])];
      }
    }
    assert locators[..|locators|] == locators;
  }

  method KindErrors(c: Catalog) returns (errors: seq<Error>)
    ensures errors == [] <==> forall i :: 0 <= i < |c.kinds| ==> KindOk(c, c.kinds[i])
    ensures Others(errors)
  {
    errors := [];
    var producers := ProducerIds(c.producers);
    for n := 0 to |c.kinds|
      invariant Others(errors)
      invariant errors == [] <==> forall i :: 0 <= i < n ==> KindOk(c, c.kinds[i])
    {
      var k := c.kinds[n];
      if !k.inactive && k.producerIds == [] {
        errors := errors + [ProducerMissing(k.kind)];
      }
      var missing := Missing(k.producerIds, producers);
      errors := errors + missing;
    }
  }

  method Missing(ids: seq<Id>, known: seq<Id>) returns (errors: seq<Error>)
    ensures errors == [] <==> forall id :: id in ids ==> id in known
    ensures Others(errors)
  {
    errors := [];
    for i := 0 to |ids|
      invariant Others(errors)
      invariant errors == [] <==> forall id :: id in ids[..i] ==> id in known
    {
      assert ids[..i + 1] == ids[..i] + [ids[i]];
      if ids[i] !in known {
        errors := errors + [ReferenceMissing(ids[i])];
      }
    }
    assert ids[..|ids|] == ids;
  }

  /** `find`: the first unit of that name. */
  method FindUnit(c: Catalog, id: Id) returns (found: bool, u: nat)
    ensures found <==> id in UnitIds(c.units)
    ensures found ==> FirstUnit(c, id, u)
  {
    u := 0;
    while u < |c.units|
      invariant u <= |c.units| && forall j :: 0 <= j < u ==> c.units[j].id != id
    {
      if c.units[u].id == id {
        assert UnitIds(c.units)[u] == id;
        return true, u;
      }
      u := u + 1;
    }
    found := false;
  }

  method CollectReverse(kinds: seq<Kind>, id: Id) returns (reverse: seq<Id>)
    ensures reverse == Reverse(kinds, id)
  {
    reverse := [];
    for i := 0 to |kinds|
      invariant reverse == Reverse(kinds[..i], id)
    {
      assert kinds[..i + 1][..i] == kinds[..i];
      if id in kinds[i].producerIds {
        reverse := reverse + [kinds[i].kind];
      }
    }
    assert kinds[..|kinds|] == kinds;
  }

  method CollectMembers(producers: seq<Producer>, unit: Id) returns (members: seq<Producer>)
    ensures members == Members(producers, unit)
  {
    members := [];
    for i := 0 to |producers|
      invariant members == Members(producers[..i], unit)
    {
      assert producers[..i + 1][..i] == producers[..i];
      if producers[i].unit == unit {
        members := members + [producers[i]];
      }
    }
    assert producers[..|producers|] == producers;
  }

  method UnitReferenceErrors(c: Catalog, p: Producer) returns (errors: seq<Error>)
    ensures errors == [] <==> HasUnit(c, p) && InItsUnit(c, p)
    ensures Others(errors)
  {
    errors := [];
    var found, u := FindUnit(c, p.unit);
    if !found {
      errors := errors + [UnitReferenceMissing(p.id)];
    } else {
      if p.owner != c.units[u].owner {
        errors := errors + [CompletionOwnerMismatch(p.id)];
      }
      if p.id !in c.units[u].producerIds {
        errors := errors + [UnitProducerMismatch(p.id)];
      }
    }
  }

  method ProducerEvidenceErrors(p: Producer) returns (errors: seq<Error>)
    ensures errors == [] <==> EvidenceOk(p)
    ensures Others(errors)
  {
    errors := [];
    if exists x :: x in p.Relations() && x !in p.evidenceIds {
      errors := errors + [ProducerEvidenceIncomplete(p.id)];
    }
    if p.kinds == [] && p.knownGaps == [] {
      errors := errors + [ExternalReasonMissing(p.id)];
    }
  }

  method ProducerError(c: Catalog, p: Producer) returns (errors: seq<Error>)
    ensures errors == [] <==> ProducerOk(c, p)
    ensures Others(errors)
  {
    errors := [];
    var reverse := CollectReverse(c.kinds, p.id);
    if multiset(reverse) != multiset(p.kinds) {
      errors := errors + [ProducerKindMismatch(p.id)];
    }
    var byUnit := UnitReferenceErrors(c, p);
    var byEvidence := ProducerEvidenceErrors(p);
    errors := errors + byUnit + byEvidence;
  }

  method ProducerErrors(c: Catalog) returns (errors: seq<Error>)
    ensures errors == [] <==> forall i :: 0 <= i < |c.producers| ==> ProducerOk(c, c.producers[i])
    ensures Others(errors)
  {
    errors := [];
    for n := 0 to |c.producers|
      invariant Others(errors)
      invariant errors == [] <==> forall i :: 0 <= i < n ==> ProducerOk(c, c.producers[i])
    {
      var more := ProducerError(c, c.producers[n]);
      errors := errors + more;
    }
  }

  method UnitError(c: Catalog, u: Unit) returns (errors: seq<Error>)
    ensures errors == [] <==> UnitOk(c, u)
    ensures Others(errors)
  {
    errors := [];
    var members := CollectMembers(c.producers, u.id);
    if multiset(ProducerIds(members)) != multiset(u.producerIds) {
      errors := errors + [UnitProducerMismatch(u.id)];
    }
    if multiset(Families(members)) != multiset(u.families) {
      errors := errors + [UnitOccurrenceMismatch(u.id)];
    }
    if multiset(Phases(members)) != multiset(u.phases) {
      errors := errors + [UnitPhaseMismatch(u.id)];
    }
  }

  method UnitErrors(c: Catalog) returns (errors: seq<Error>)
    ensures errors == [] <==> forall i :: 0 <= i < |c.units| ==> UnitOk(c, c.units[i])
    ensures Others(errors)
  {
    errors := [];
    for n := 0 to |c.units|
      invariant Others(errors)
      invariant errors == [] <==> forall i :: 0 <= i < n ==> UnitOk(c, c.units[i])
    {
      var more := UnitError(c, c.units[n]);
      errors := errors + more;
    }
  }

  /** The units of one owner's producers, one owner group after another. */
  function UnitsOf(c: Catalog, owner: Id): set<Id> {
    set p | p in c.producers && p.owner == owner :: p.unit
  }

  ghost predicate OneUnit(c: Catalog, owner: Id) {
    forall p, q :: p in c.producers && q in c.producers && p.owner == owner && q.owner == owner ==> p.unit == q.unit
  }

  lemma SplitMeansTwoUnits(c: Catalog, owner: Id)
    ensures |UnitsOf(c, owner)| <= 1 <==> OneUnit(c, owner)
  {
    var units := UnitsOf(c, owner);
    if |units| <= 1 {
      forall p, q | p in c.producers && q in c.producers && p.owner == owner && q.owner == owner
        ensures p.unit == q.unit
      {
        assert p.unit in units && q.unit in units;
        assert |units - {p.unit}| == 0;
        assert q.unit !in units - {p.unit};
      }
    }
    if |units| > 1 {
      var a :| a in units;
      assert |units - {a}| == |units| - 1;
      var b :| b in units - {a};
      var p :| p in c.producers && p.owner == owner && p.unit == a;
      var q :| q in c.producers && q.owner == owner && q.unit == b;
    }
  }

  method OwnerErrors(c: Catalog) returns (errors: seq<Error>)
    ensures errors == [] <==> OwnersOk(c)
    ensures Others(errors)
  {
    errors := [];
    var owners := set p | p in c.producers :: p.owner;
    var todo := owners;
    while todo != {}
      invariant todo <= owners
      invariant Others(errors)
      invariant errors == [] <==> forall owner :: owner in owners - todo ==> OneUnit(c, owner)
    {
      var owner :| owner in todo;
      SplitMeansTwoUnits(c, owner);
      if |UnitsOf(c, owner)| > 1 {
        errors := errors + [SharedOwnerSplit(owner)];
      }
      assert owners - (todo - {owner}) == owners - todo + {owner};
      todo := todo - {owner};
    }
    assert owners - todo == owners;
    if forall owner :: owner in owners ==> OneUnit(c, owner) {
      forall p, q | p in c.producers && q in c.producers && p.owner == q.owner ensures p.unit == q.unit {
        assert OneUnit(c, p.owner);
      }
    }
  }

  method Unlisted(ids: set<Id>, known: set<Id>) returns (missing: set<Id>)
    ensures missing == {} <==> forall x :: x in ids ==> x in known
  {
    missing := ids - known;
    if missing == {} {
      forall x | x in ids ensures x in known {
        assert x !in ids - known;
      }
    } else {
      var x :| x in missing;
    }
  }

  /** Evidence referred to but not listed. */
  method MissingEvidence(c: Catalog) returns (errors: seq<Error>)
    ensures Others(errors)
    ensures errors == [] <==> ReferencesListed(c)
  {
    errors := [];
    var listed := set x | x in EvidenceIds(c.evidence);
    var missing := Unlisted(Referenced(c), listed);
    while missing != {}
      invariant Others(errors)
      invariant missing != {} ==> !ReferencesListed(c)
      invariant errors != [] ==> !ReferencesListed(c)
      invariant errors == [] && missing == {} ==> ReferencesListed(c)
    {
      var x :| x in missing;
      missing, errors := missing - {x}, errors + [ReferenceMissing(x)];
    }
  }

  /** Evidence listed but not referred to. */
  method UnusedEvidence(c: Catalog) returns (errors: seq<Error>)
    ensures forall e :: e in errors <==> e.EvidenceUnreferenced? && Unreferenced(c, e.id)
  {
    errors := [];
    var listed := set x | x in EvidenceIds(c.evidence);
    var unused := listed - Referenced(c);
    var todo := unused;
    while todo != {}
      invariant todo <= unused
      invariant forall e :: e in errors <==> e.EvidenceUnreferenced? && e.id in unused - todo
    {
      var x :| x in todo;
      todo, errors := todo - {x}, errors + [EvidenceUnreferenced(x)];
    }
  }

  method ExcludedErrors(c: Catalog) returns (errors: seq<Error>)
    ensures errors == [] <==> ExcludedOk(c)
    ensures Others(errors)
  {
    errors := [];
    for i := 0 to |c.excluded|
      invariant Others(errors)
      invariant errors == [] <==> forall j :: 0 <= j < i ==> c.excluded[j] !in KindIds(c.kinds)
    {
      if c.excluded[i] in KindIds(c.kinds) {
        errors := errors + [ExcludedKindInEnum(c.excluded[i])];
      }
    }
    if multiset(c.excluded) != multiset(EXCLUDED) {
      errors := errors + [ExcludedMismatch];
    }
  }

  method DuplicateErrors(c: Catalog) returns (errors: seq<Error>)
    ensures errors == [] <==> DistinctIds(c)
    ensures Others(errors)
  {
    var kinds := Duplicates(KindIds(c.kinds));
    var producers := Duplicates(ProducerIds(c.producers));
    var units := Duplicates(UnitIds(c.units));
    var evidence := Duplicates(EvidenceIds(c.evidence));
    var files := Duplicates(c.files);
    var locators := LocatorErrors(Locators(c.evidence));
    errors := kinds + producers + units + evidence + files + locators;
  }

  lemma ErrorsTogether(c: Catalog, errors: seq<Error>, others: seq<Error>, unused: seq<Error>)
    requires (others == [] <==> CheckedButForUse(c)) && Others(others)
    requires forall e :: e in unused <==> e.EvidenceUnreferenced? && Unreferenced(c, e.id)
    requires forall e :: e in errors <==> e in others || e in unused
    ensures errors == [] <==> Checked(c)
    ensures (forall e :: e in errors ==> e.EvidenceUnreferenced?) <==> CheckedButForUse(c)
    ensures forall x :: EvidenceUnreferenced(x) in errors <==> Unreferenced(c, x)
  {
    if others != [] {
      assert others[0] in others && others[0] in errors;
    }
    if errors == [] {
      forall x | x in EvidenceIds(c.evidence) ensures x in Referenced(c) {
        assert EvidenceUnreferenced(x) !in errors;
      }
    } else {
      assert errors[0] in errors;
      assert errors[0] in unused ==> Unreferenced(c, errors[0].id);
    }
  }

  /** `reference_errors`. */
  method ReferenceErrors(c: Catalog) returns (errors: seq<Error>)
    ensures errors == [] <==> Checked(c)
    ensures (forall e :: e in errors ==> e.EvidenceUnreferenced?) <==> CheckedButForUse(c)
    ensures forall x :: EvidenceUnreferenced(x) in errors <==> Unreferenced(c, x)
    ensures Schema(c) ==> (errors == [] <==> Meaning(c))
  {
    var duplicates := DuplicateErrors(c);
    var byKind := KindErrors(c);
    var missing := MissingEvidence(c);
    var unused := UnusedEvidence(c);
    var byProducer := ProducerErrors(c);
    var byUnit := UnitErrors(c);
    var byOwner := OwnerErrors(c);
    var byExclusion := ExcludedErrors(c);
    var others := duplicates + byKind + missing + byProducer + byUnit + byOwner + byExclusion;
    errors := duplicates + byKind + missing + unused + byProducer + byUnit + byOwner + byExclusion;
    assert forall e :: e in errors <==> e in others || e in unused;
    assert others == [] <==> CheckedButForUse(c);
    ErrorsTogether(c, errors, others, unused);
    if Schema(c) {
      SilenceMeansConsistency(c);
    }
  }
}
