/** What a change of rules does to a state: which findings it removes, and exactly when it can be told
    from the projection at all. */
module Limits {
  import opened Basics
  import opened Model
  import opened ConflictIndex
  import opened Findings
  import opened Lifecycle
  import opened Records
  import opened State
  import opened Tables
  import opened Incremental
  import opened Checkpoint
  import opened Projection
  import opened Scopes
  import opened Compaction
  import opened Equivalence
  import opened Reopening

  // ---------------------------------------------------------------- findings that stand, and do not

  /** No finding stands on a predicate registered as multi-valued. */
  lemma MultiValuedNeverConflicts(log: set<Op>, registry: Registry, w: Window, key: ClaimKey)
    requires CollisionFree(log) && registry.RuleFor(key.predicateName).multiValued
    ensures key !in StateOf(log, registry, w).findings.byKey
    ensures forall id :: id in StateOf(log, registry, w).findings.byId ==> StateOf(log, registry, w).findings.byId[id].key != key
  {
    var s := StateOf(log, registry, w);
    StateLists(log, registry, w);
    StateFields(log, registry, w);
    hide StateOf;
    hide RecordsOf;
    hide CollisionFree;
    var byKey, facts := s.activity.byKey, FactsOf(RecordsOf(log));
    FindingsInjective(byKey, byKey.Keys, facts, registry);
    NoFinding(ClaimsAt(byKey, key), facts, registry, key);
    var cs := FindingSet(byKey, facts, registry);
    hide FindingOf;
    if key in s.findings.byKey {
      ByIdEntry(cs, ConflictKeyOf, key);
    }
    forall id | id in s.findings.byId ensures s.findings.byId[id].key != key {
      ByIdEntry(cs, ConflictIdOf, id);
    }
  }

  lemma NoFinding(listed: seq<Claim>, facts: Facts, registry: Registry, key: ClaimKey)
    requires KeyList(listed, key) && registry.RuleFor(key.predicateName).multiValued
    ensures FindingOf(key, ByClaimId(listed), facts, registry).None?
  {
    ByClaimIdProperties(listed);
    NoPairs(ByClaimId(listed), registry, key);
  }

  /** Two active claims of the log that cannot both hold. */
  ghost predicate Clashing(log: set<Op>, registry: Registry, x: Claim, y: Claim) {
    var listed := ClaimsAt(StateOf(log, registry, UNSCOPED).activity.byKey, x.key);
    x in listed && y in listed && Incompatible(x, y, registry)
  }

  /** Incompatible active claims have a finding of their key, filed under key and identifier. */
  lemma ClashIsFiled(log: set<Op>, registry: Registry, x: Claim, y: Claim) returns (c: ConflictSet)
    requires CollisionFree(log) && Clashing(log, registry, x, y)
    ensures var t := StateOf(log, registry, UNSCOPED).findings;
            x.key in t.byKey && t.byKey[x.key] == [c] && c.id in t.byId && t.byId[c.id] == c && c.key == x.key && c.keys == {x.key}
  {
    var s := StateOf(log, registry, UNSCOPED);
    StateLists(log, registry, UNSCOPED);
    StateFields(log, registry, UNSCOPED);
    hide StateOf;
    hide RecordsOf;
    hide CollisionFree;
    hide Incompatible;
    var byKey, facts := s.activity.byKey, FactsOf(RecordsOf(log));
    PairIsCandidate(x.key, ClaimsAt(byKey, x.key), facts, registry, x, y);
    hide FindingOf;
    c := FindingAt(byKey, x.key, facts, registry).value;
    FindingFiled(byKey, facts, registry, x.key);
  }

  lemma FindingFiled(byKey: map<ClaimKey, seq<Claim>>, facts: Facts, registry: Registry, key: ClaimKey)
    requires ListsByKey(byKey) && key in byKey && HasFinding(byKey, key, facts, registry)
    ensures var t, c := TablesOf(FindingSet(byKey, facts, registry)), FindingAt(byKey, key, facts, registry).value;
            key in t.byKey && t.byKey[key] == [c] && c.id in t.byId && t.byId[c.id] == c && c.key == key && c.keys == {key}
  {
    FindingsInjective(byKey, byKey.Keys, facts, registry);
    FindingAtIdentity(byKey, key, facts, registry);
    var cs, c := FindingSet(byKey, facts, registry), FindingAt(byKey, key, facts, registry).value;
    assert c in cs;
    hide FindingAt;
    ByIdEntry(cs, ConflictKeyOf, key);
    ByIdEntry(cs, ConflictIdOf, c.id);
  }

  // ---------------------------------------------------------------- when a change of rules shows

  /** Both states project to the same records, in every namespace. */
  ghost predicate ProjectAlike(s: MemoryState, t: MemoryState) {
    forall namespace, p :: ProjectedAt(s, namespace, p) == ProjectedAt(t, namespace, p)
  }

  ghost function RenderedFindings(s: MemoryState): map<ConflictId, ConflictSet> {
    map id | id in s.findings.byId :: Rendered(s.findings.byId[id])
  }

  /** The same claims are retracted and the same findings stand, whatever their lists of values. */
  ghost predicate SameOutcome(s: MemoryState, t: MemoryState) {
    s.activity.inactive == t.activity.inactive && RenderedFindings(s) == RenderedFindings(t)
  }

  /** What the argument needs of the states of one log under two sets of rules. */
  lemma StateTabled(log: set<Op>, registry: Registry)
    requires CollisionFree(log)
    ensures var s := StateOf(log, registry, UNSCOPED);
            s.records == RecordsOf(log) && s.activity.inapplicable == {}
            && s.activity.inactive == InactiveIds(s.records.claims, RetractionsIn(log), registry)
            && s.lifecycle == FoldOf(FoldInputs(s.records, HistoriesOf(s.records), s.findings.byRef, None))
  {
    ReachedHere(log, registry);
    StateRecordsOf(log, registry);
    ActivityOfState(log, registry, UNSCOPED);
    StateParts(log, registry, UNSCOPED);
    ReachedParts(StateOf(log, registry, UNSCOPED), log, registry);
    hide StateOf;
    hide Reached;
    hide RecordsOf;
    hide CollisionFree;
    hide InactiveIds;
    hide WellFiled;
    hide FoldOf;
    hide HistoriesOf;
    hide FindingSet;
  }

  /** Filed findings are told apart by identifier and by reference, and name their key. */
  ghost predicate CrossFiled(byId: map<ConflictId, ConflictSet>, byRef: map<ConflictRef, ConflictSet>) {
    && (forall id :: id in byId ==> FiledBoth(byId[id], byId, byRef) && byId[id].id == id)
    && (forall ref :: ref in byRef ==> FiledBoth(byRef[ref], byId, byRef) && byRef[ref].ref == ref)
  }

  ghost predicate FiledBoth(c: ConflictSet, byId: map<ConflictId, ConflictSet>, byRef: map<ConflictRef, ConflictSet>) {
    c.key in c.keys && c.id in byId && byId[c.id] == c && c.ref in byRef && byRef[c.ref] == c
  }

  lemma FiledFindings(log: set<Op>, registry: Registry)
    requires CollisionFree(log)
    ensures var t := StateOf(log, registry, UNSCOPED).findings; CrossFiled(t.byId, t.byRef)
  {
    var s := StateOf(log, registry, UNSCOPED);
    StateLists(log, registry, UNSCOPED);
    StateFields(log, registry, UNSCOPED);
    hide StateOf;
    hide RecordsOf;
    hide CollisionFree;
    var byKey, facts := s.activity.byKey, FactsOf(RecordsOf(log));
    FindingsInjective(byKey, byKey.Keys, facts, registry);
    hide FindingsAmong;
    hide FindingAt;
    TablesCross(FindingSet(byKey, facts, registry));
    hide CrossFiled;
  }

  lemma TablesCross(cs: set<ConflictSet>)
    requires Injective(cs, ConflictIdOf) && Injective(cs, ConflictRefOf) && forall c :: c in cs ==> DirectOn(c, c.key)
    ensures CrossFiled(ById(cs, ConflictIdOf), ById(cs, ConflictRefOf))
  {
    var byId, byRef := ById(cs, ConflictIdOf), ById(cs, ConflictRefOf);
    forall id | id in byId ensures FiledBoth(byId[id], byId, byRef) && byId[id].id == id {
      ByIdEntry(cs, ConflictIdOf, id);
      ByIdEntry(cs, ConflictRefOf, byId[id].ref);
    }
    forall ref | ref in byRef ensures FiledBoth(byRef[ref], byId, byRef) && byRef[ref].ref == ref {
      ByIdEntry(cs, ConflictRefOf, ref);
      ByIdEntry(cs, ConflictIdOf, byRef[ref].id);
    }
  }

  lemma OutcomeOutlines(s: FindingTables, t: FindingTables)
    requires CrossFiled(s.byId, s.byRef) && CrossFiled(t.byId, t.byRef)
    requires (map id | id in s.byId :: Rendered(s.byId[id])) == (map id | id in t.byId :: Rendered(t.byId[id]))
    ensures SameOutlines(s.byRef, t.byRef)
  {
    OutlinesIncluded(s, t);
    OutlinesIncluded(t, s);
  }

  lemma OutlinesIncluded(s: FindingTables, t: FindingTables)
    requires CrossFiled(s.byId, s.byRef) && CrossFiled(t.byId, t.byRef)
    requires (map id | id in s.byId :: Rendered(s.byId[id])) == (map id | id in t.byId :: Rendered(t.byId[id]))
    ensures forall ref :: ref in s.byRef ==> ref in t.byRef && OutlineOf(s.byRef[ref]) == OutlineOf(t.byRef[ref])
  {
    var a, b := map id | id in s.byId :: Rendered(s.byId[id]), map id | id in t.byId :: Rendered(t.byId[id]);
    forall ref | ref in s.byRef ensures ref in t.byRef && OutlineOf(s.byRef[ref]) == OutlineOf(t.byRef[ref]) {
      var c := s.byRef[ref];
      assert FiledBoth(c, s.byId, s.byRef);
      assert c.id in a && c.id in b && a[c.id] == b[c.id];
      assert FiledBoth(t.byId[c.id], t.byId, t.byRef);
      assert OutlineOf(Rendered(c)) == OutlineOf(c) && OutlineOf(Rendered(t.byId[c.id])) == OutlineOf(t.byId[c.id]);
      assert Rendered(c).ref == c.ref && Rendered(t.byId[c.id]).ref == t.byId[c.id].ref;
    }
  }

  /** The same claims and findings project to the same records. */
  lemma OutcomeProjects(s: MemoryState, t: MemoryState)
    requires s.records == t.records && s.activity.inapplicable == t.activity.inapplicable && s.lifecycle == t.lifecycle
    requires SameOutcome(s, t)
    ensures ProjectAlike(s, t)
  {
    forall namespace, p ensures ProjectedAt(s, namespace, p) == ProjectedAt(t, namespace, p) {
      OutcomeRecord(s, t, namespace, p);
    }
  }

  lemma OutcomeRecord(s: MemoryState, t: MemoryState, namespace: Name, p: ProjectionId)
    requires s.records == t.records && s.activity.inapplicable == t.activity.inapplicable && s.lifecycle == t.lifecycle
    requires SameOutcome(s, t)
    ensures ProjectedAt(s, namespace, p) == ProjectedAt(t, namespace, p)
  {
    var a, b := RenderedFindings(s), RenderedFindings(t);
    forall cid ensures (cid in s.findings.byId <==> cid in t.findings.byId)
                       && (cid in s.findings.byId ==> Rendered(s.findings.byId[cid]) == Rendered(t.findings.byId[cid]))
    {
      assert cid in a <==> cid in b;
      assert cid in a ==> a[cid] == b[cid];
    }
    forall cid, id | cid in s.findings.byId ensures HasCandidate(s.findings.byId[cid], id) <==> HasCandidate(t.findings.byId[cid], id) {
      assert HasCandidate(Rendered(s.findings.byId[cid]), id) <==> HasCandidate(s.findings.byId[cid], id);
      assert HasCandidate(Rendered(t.findings.byId[cid]), id) <==> HasCandidate(t.findings.byId[cid], id);
    }
    assert p.ClaimProjection? ==> ConflictsOfClaim(s.findings.byId, p.claim) == ConflictsOfClaim(t.findings.byId, p.claim);
    assert p.ConflictProjection? && p.conflict in s.findings.byId ==>
             Rendered(s.findings.byId[p.conflict]).keys == s.findings.byId[p.conflict].keys
             && Rendered(t.findings.byId[p.conflict]).keys == t.findings.byId[p.conflict].keys
             && Rendered(s.findings.byId[p.conflict]).ref == s.findings.byId[p.conflict].ref
             && Rendered(t.findings.byId[p.conflict]).ref == t.findings.byId[p.conflict].ref;
    hide ConflictsOfClaim;
    hide HasCandidate;
    hide ConcernsNamespace;
    hide StatusOr;
  }

  /** Records say which claims are retracted and which findings stand. */
  lemma RecordsTell(s: MemoryState, t: MemoryState)
    requires s.records == t.records && s.activity.inapplicable == {} == t.activity.inapplicable && ProjectAlike(s, t)
    requires CrossFiled(s.findings.byId, s.findings.byRef) && CrossFiled(t.findings.byId, t.findings.byRef)
    ensures forall id :: id in s.records.claims ==> (id in s.activity.inactive <==> id in t.activity.inactive)
    ensures RenderedFindings(s) == RenderedFindings(t)
  {
    forall id | id in s.records.claims ensures id in s.activity.inactive <==> id in t.activity.inactive {
      var namespace := s.records.claims[id].key.namespace;
      assert ProjectedAt(s, namespace, ClaimProjection(id)) == ProjectedAt(t, namespace, ClaimProjection(id));
    }
    FindingsTold(s, t);
    FindingsTold(t, s);
    assert RenderedFindings(s).Keys == RenderedFindings(t).Keys;
  }

  lemma FindingsTold(s: MemoryState, t: MemoryState)
    requires ProjectAlike(s, t) && CrossFiled(s.findings.byId, s.findings.byRef)
    ensures forall cid :: cid in s.findings.byId ==>
              cid in t.findings.byId && Rendered(s.findings.byId[cid]) == Rendered(t.findings.byId[cid])
  {
    forall cid | cid in s.findings.byId
      ensures cid in t.findings.byId && Rendered(s.findings.byId[cid]) == Rendered(t.findings.byId[cid])
    {
      var c := s.findings.byId[cid];
      assert FiledBoth(c, s.findings.byId, s.findings.byRef);
      assert InNamespace(c, c.key.namespace);
      assert ProjectedAt(s, c.key.namespace, ConflictProjection(cid)) == ProjectedAt(t, c.key.namespace, ConflictProjection(cid));
    }
  }

  /** A change of rules leaves every record of every namespace as it was, so that a delta naming
      nothing is exact across it, if and only if the same claims stay retracted and the same findings
      stay standing, up to their lists of values. */
  lemma RuleChangeShowsExactly(log: set<Op>, a: Registry, b: Registry)
    requires CollisionFree(log)
    ensures var s, t := StateOf(log, a, UNSCOPED), StateOf(log, b, UNSCOPED);
            ProjectAlike(s, t) <==> SameOutcome(s, t)
  {
    var s, t := StateOf(log, a, UNSCOPED), StateOf(log, b, UNSCOPED);
    StateTabled(log, a);
    StateTabled(log, b);
    FiledFindings(log, a);
    FiledFindings(log, b);
    hide StateOf;
    hide CollisionFree;
    hide RecordsOf;
    hide HistoriesOf;
    hide FoldOf;
    hide CrossFiled;
    hide ProjectedAt;
    if SameOutcome(s, t) {
      OutcomeOutlines(s.findings, t.findings);
      LifecycleKept(FoldInputs(s.records, HistoriesOf(s.records), s.findings.byRef, None),
                    FoldInputs(t.records, HistoriesOf(t.records), t.findings.byRef, None));
      OutcomeProjects(s, t);
    }
    if ProjectAlike(s, t) {
      RecordsTell(s, t);
      RetractedAlike(s.records.claims, RetractionsIn(log), a, b);
    }
  }

  /** Rules decide only which known claims a retracted reference names. */
  lemma RetractedAlike(claims: map<Id, Claim>, rs: set<Op>, a: Registry, b: Registry)
    requires forall id :: id in claims ==> (id in InactiveIds(claims, rs, a) <==> id in InactiveIds(claims, rs, b))
    ensures InactiveIds(claims, rs, a) == InactiveIds(claims, rs, b)
  {
  }

  /** Rules that would write the same checkpoint cannot be told apart by any reader. */
  lemma SameCheckpointProjectsAlike(log: set<Op>, a: Registry, b: Registry)
    requires CollisionFree(log) && UniqueOps(log) && SameCheckpoint(log, a, b)
    ensures ProjectAlike(StateOf(log, a, UNSCOPED), StateOf(log, b, UNSCOPED))
  {
    RuleChangeShowsExactly(log, a, b);
    SameCheckpointParts(log, a, b);
    ReachedHere(log, a);
    ReachedHere(log, b);
    ReachedParts(StateOf(log, a, UNSCOPED), log, a);
    ReachedParts(StateOf(log, b, UNSCOPED), log, b);
    hide StateOf;
    hide Reached;
    hide CollisionFree;
    hide UniqueOps;
    hide SameCheckpoint;
    hide ProjectAlike;
    hide FindingsIn;
    hide TablesOf;
    hide WellFiled;
    hide FoldOf;
  }
}
