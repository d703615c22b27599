/** The dependency check on evidence lists: a list passes exactly when nothing reachable from it is missing. */
module EvidenceClosure {
  type Id = string

  datatype Evidence = Evidence(id: Id, domains: seq<Id>, dependencies: seq<Id>)

  datatype Error = DomainMismatch(id: Id) | DependencyMissing(id: Id, dependency: Id)

  predicate EntryOk(e: Evidence, ids: seq<Id>, domain: Id) {
    e.id in ids ==> domain in e.domains && forall d :: d in e.dependencies ==> d in ids
  }

  /** Some entry of the manifest makes one piece of evidence depend on another. */
  ghost predicate Depends(evidence: seq<Evidence>, a: Id, b: Id) {
    exists e :: e in evidence && e.id == a && b in e.dependencies
  }

  /** A chain of dependencies. */
  ghost predicate Chain(evidence: seq<Evidence>, path: seq<Id>) {
    forall i :: 0 <= i < |path| - 1 ==> Depends(evidence, path[i], path[i + 1])
  }

  ghost predicate Reaches(evidence: seq<Evidence>, a: Id, b: Id) {
    exists path :: |path| > 0 && path[0] == a && path[|path| - 1] == b && Chain(evidence, path)
  }

  /** All the evidence the list leads to is on the list, and all of it belongs to the domain. */
  ghost predicate Closed(evidence: seq<Evidence>, ids: seq<Id>, domain: Id) {
    && (forall a, b :: a in ids && Reaches(evidence, a, b) ==> b in ids)
    && (forall a, e :: a in ids && e in evidence && Reaches(evidence, a, e.id) ==> domain in e.domains)
  }

  lemma {:induction false} ChainStays(evidence: seq<Evidence>, ids: seq<Id>, domain: Id, path: seq<Id>)
    requires forall e :: e in evidence ==> EntryOk(e, ids, domain)
    requires |path| > 0 && path[0] in ids && Chain(evidence, path)
    ensures path[|path| - 1] in ids
  {
    if |path| > 1 {
      assert Depends(evidence, path[0], path[1]);
      forall i | 0 <= i < |path[1..]| - 1 ensures Depends(evidence, path[1..][i], path[1..][i + 1]) {
        assert Depends(evidence, path[i + 1], path[i + 1 + 1]);
      }
      ChainStays(evidence, ids, domain, path[1..]);
    }
  }

  /** Checking single steps is checking all chains. */
  lemma StepsSuffice(evidence: seq<Evidence>, ids: seq<Id>, domain: Id)
    ensures (forall e :: e in evidence ==> EntryOk(e, ids, domain)) <==> Closed(evidence, ids, domain)
  {
    if forall e :: e in evidence ==> EntryOk(e, ids, domain) {
      forall a, b | a in ids && Reaches(evidence, a, b) ensures b in ids {
        var path :| |path| > 0 && path[0] == a && path[|path| - 1] == b && Chain(evidence, path);
        ChainStays(evidence, ids, domain, path);
      }
    }
    if Closed(evidence, ids, domain) {
      forall e | e in evidence ensures EntryOk(e, ids, domain) {
        assert Chain(evidence, [e.id]) && [e.id][0] == e.id;
        forall d | e.id in ids && d in e.dependencies ensures d in ids {
          var path := [e.id, d];
          assert Chain(evidence, path) && path[0] == e.id && path[1] == d;
        }
      }
    }
  }

  method DependencyErrors(e: Evidence, ids: seq<Id>) returns (errors: seq<Error>)
    ensures errors == [] <==> forall d :: d in e.dependencies ==> d in ids
  {
    errors := [];
    for i := 0 to |e.dependencies|
      invariant errors == [] <==> forall d :: d in e.dependencies[..i] ==> d in ids
    {
      assert e.dependencies[..i + 1] == e.dependencies[..i] + [e.dependencies[i]];
      if e.dependencies[i] !in ids {
        errors := errors + [DependencyMissing(e.id, e.dependencies[i])];
      }
    }
    assert e.dependencies[..|e.dependencies|] == e.dependencies;
  }

  method EntryErrors(e: Evidence, ids: seq<Id>, domain: Id) returns (errors: seq<Error>)
    ensures errors == [] <==> EntryOk(e, ids, domain)
  {
    errors := [];
    if e.id in ids {
      if domain !in e.domains {
        errors := errors + [DomainMismatch(e.id)];
      }
      var missing := DependencyErrors(e, ids);
      errors := errors + missing;
    }
  }

  /** `closure_errors`. */
  method ClosureErrors(evidence: seq<Evidence>, ids: seq<Id>, domain: Id) returns (errors: seq<Error>)
    ensures errors == [] <==> Closed(evidence, ids, domain)
  {
    errors := [];
    for n := 0 to |evidence|
      invariant errors == [] <==> forall i :: 0 <= i < n ==> EntryOk(evidence[i], ids, domain)
    {
      var more := EntryErrors(evidence[n], ids, domain);
      errors := errors + more;
    }
    assert errors == [] <==> forall e :: e in evidence ==> EntryOk(e, ids, domain);
    StepsSuffice(evidence, ids, domain);
  }
}
