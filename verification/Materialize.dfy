/** Full materialization: the loops of `materialize`, proved to compute `StateOf`. */
module Materialize {
  import opened Basics
  import opened Model
  import opened Applicability
  import opened ConflictIndex
  import opened Findings
  import opened Lifecycle
  import opened Records
  import opened State
  import opened Tables
  import opened Reported
  import opened Labelled

  // ---------------------------------------------------------------- the loop over the log

  datatype Gathered = Gathered(
    records: Records, claimRefs: map<Id, ClaimRef>, idsByRef: map<ClaimRef, set<Id>>, raw: Retractions)

  /** Retraction lists in the order the log delivered them. */
  ghost predicate RawRetractions(raw: Retractions, rs: set<Op>) {
    && Bag(raw.byTarget, TargetPairs(rs)) && Bag(raw.byTargetRef, TargetRefPairs(rs))
    && Bag(raw.bySuperseder, SupersederPairs(rs)) && Bag(raw.bySupersederRef, SupersederRefPairs(rs))
  }

  ghost predicate GatheredFrom(g: Gathered, done: set<Op>, registry: Registry) {
    && g.records == RecordsOf(done)
    && g.claimRefs == RefMap(g.records.claims, registry)
    && g.idsByRef == Group(RefPairs(g.records.claims, registry))
    && RawRetractions(g.raw, RetractionsIn(done))
  }

  function AppendRetraction(raw: Retractions, op: Op): Retractions
    requires op.ClaimRetracted?
  {
    Retractions(AppendIf(raw.byTarget, op.target, op), AppendIf(raw.byTargetRef, op.targetRef, op),
                AppendIf(raw.bySuperseder, op.superseder, op), AppendIf(raw.bySupersederRef, op.supersederRef, op))
  }

  lemma AppendRetractionRaw(raw: Retractions, rs: set<Op>, op: Op)
    requires op.ClaimRetracted? && op !in rs && RawRetractions(raw, rs)
    ensures RawRetractions(AppendRetraction(raw, op), rs + {op})
  {
    TargetStep(rs, op);
    TargetRefStep(rs, op);
    SupersederStep(rs, op);
    SupersederRefStep(rs, op);
    hide Bag;
    hide AppendIf;
    hide With;
    BagAppendIf(raw.byTarget, TargetPairs(rs), op.target, op);
    BagAppendIf(raw.byTargetRef, TargetRefPairs(rs), op.targetRef, op);
    BagAppendIf(raw.bySuperseder, SupersederPairs(rs), op.superseder, op);
    BagAppendIf(raw.bySupersederRef, SupersederRefPairs(rs), op.supersederRef, op);
  }

  /** One iteration of the loop over the log. */
  method GatherOp(g: Gathered, op: Op, registry: Registry, ghost done: set<Op>) returns (r: Result<Gathered>)
    requires CollisionFree(done) && GatheredFrom(g, done, registry) && op !in done
    ensures r.Ok? <==> CollisionFree(done + {op})
    ensures r.Ok? ==> GatheredFrom(r.value, done + {op}, registry)
  {
    RecordStep(done, op);
    KindsStep(done, op);
    var stored := RecordOp(g.records, op);
    if stored.ValueError? { return ValueError; }
    hide RecordsOf;
    hide CollisionFree;
    hide RawRetractions;
    hide RetractionsIn;
    if op.ClaimAdded? {
      var ref := registry.ClaimRefFor(op.claim);
      RefStep(g.records.claims, op.claim, registry);
      r := Ok(g.(records := stored.value, claimRefs := g.claimRefs[op.claim.id := ref],
                 idsByRef := AddTo(g.idsByRef, ref, op.claim.id)));
    } else if op.ClaimRetracted? {
      AppendRetractionRaw(g.raw, RetractionsIn(done), op) by { assert op !in RetractionsIn(done) by { OnlyInLog(done, op); } }
      r := Ok(g.(records := stored.value, raw := AppendRetraction(g.raw, op)));
    } else {
      assert stored.value.claims == g.records.claims;
      r := Ok(g.(records := stored.value));
    }
  }

  lemma OnlyInLog(ops: set<Op>, op: Op)
    ensures op in RetractionsIn(ops) ==> op in ops
  {
  }

  lemma NothingGathered(registry: Registry)
    ensures GatheredFrom(Gathered(EMPTY_RECORDS, map[], map[], Retractions(map[], map[], map[], map[])), {}, registry)
    ensures CollisionFree({})
  {
    NoRecords();
    EmptyRelation<Id, Op>(RetractionRank);
    EmptyRelation<ClaimRef, Op>(RetractionRank);
    EmptyRelation<ClaimRef, Id>(IdRank);
    assert TargetPairs({}) == {} && TargetRefPairs({}) == {} && SupersederPairs({}) == {} && SupersederRefPairs({}) == {};
    assert RefMap(map[], registry) == map[] && RefPairs(map[], registry) == {};
  }

  /** The loop over `oplog.iter_ops()`: raises exactly when some record identifier collides. */
  method Gather(ops: seq<Op>, registry: Registry) returns (r: Result<Gathered>)
    requires NoDuplicates(ops)
    ensures r.Ok? <==> CollisionFree(Elements(ops))
    ensures r.Ok? ==> GatheredFrom(r.value, Elements(ops), registry)
  {
    var g := Gathered(EMPTY_RECORDS, map[], map[], Retractions(map[], map[], map[], map[]));
    NothingGathered(registry);
    hide GatheredFrom;
    hide CollisionFree;
    assert Elements(ops[..0]) == {};
    for i := 0 to |ops|
      invariant GatheredFrom(g, Elements(ops[..i]), registry)
      invariant CollisionFree(Elements(ops[..i]))
    {
      PrefixStep(ops, i);
      var next := GatherOp(g, ops[i], registry, Elements(ops[..i]));
      if next.ValueError? {
        if CollisionFree(Elements(ops)) { CollisionFreeSubset(Elements(ops[..i + 1]), Elements(ops)); }
        return ValueError;
      }
      g := next.value;
    }
    assert ops[..|ops|] == ops;
    r := Ok(g);
  }

  /** The sorting loops after the log has been read. */
  lemma SortedRetractions(raw: Retractions, rs: set<Op>)
    requires RawRetractions(raw, rs) && UniqueOps(rs)
    ensures Retractions(SortAll(raw.byTarget, RetractionRank), SortAll(raw.byTargetRef, RetractionRank),
                        SortAll(raw.bySuperseder, RetractionRank), SortAll(raw.bySupersederRef, RetractionRank))
            == RetractionsOf(rs)
  {
    RetractionsDistinct(rs);
    BagSorted(raw.byTarget, TargetPairs(rs), RetractionRank);
    BagSorted(raw.byTargetRef, TargetRefPairs(rs), RetractionRank);
    BagSorted(raw.bySuperseder, SupersederPairs(rs), RetractionRank);
    BagSorted(raw.bySupersederRef, SupersederRefPairs(rs), RetractionRank);
  }

  // ---------------------------------------------------------------- the index helpers

  /** `_claim_ids_by_evidence_id` */
  method ClaimIdsByEvidence(claims: map<Id, Claim>) returns (m: map<Id, set<Id>>)
    requires ClaimsFiled(claims)
    ensures m == Group(EvidencePairs(claims))
  {
    m := map[];
    var todo := claims.Keys;
    VisitEnds(claims);
    EmptyRelation<Id, Id>(IdRank);
    assert EvidencePairs(map[]) == {};
    hide EvidencePairs;
    while todo != {}
      invariant todo <= claims.Keys
      invariant m == Group(EvidencePairs(claims - todo))
      decreases |todo|
    {
      var _ := Inhabited(todo);
      var id :| id in todo;
      var c := claims[id];
      Visit(claims, todo, id);
      EvidenceStepPairs(claims - todo, c);
      m := AddToEach(m, c.evidenceIds, c.id, EvidencePairs(claims - todo));
      todo := todo - {id};
    }
  }

  /** `_claim_ids_by_derivation_id` */
  method ClaimIdsByDerivation(claims: map<Id, Claim>) returns (m: map<Id, set<Id>>)
    requires ClaimsFiled(claims)
    ensures m == Group(DerivationPairs(claims))
  {
    m := map[];
    var todo := claims.Keys;
    VisitEnds(claims);
    EmptyRelation<Id, Id>(IdRank);
    assert DerivationPairs(map[]) == {};
    while todo != {}
      invariant todo <= claims.Keys
      invariant m == Group(DerivationPairs(claims - todo))
      decreases |todo|
    {
      var _ := Inhabited(todo);
      var id :| id in todo;
      var c := claims[id];
      Visit(claims, todo, id);
      DerivationStepPairs(claims - todo, c);
      if c.derivationId.Some? {
        GroupAdd(DerivationPairs(claims - todo), c.derivationId.value, c.id);
        m := AddTo(m, c.derivationId.value, c.id);
      } else {
        assert DerivationPairs(claims - todo) + {} == DerivationPairs(claims - todo);
      }
      todo := todo - {id};
    }
  }

  /** `_evidence_ids_by_source_id` */
  method EvidenceIdsBySource(evidence: map<Id, Evidence>) returns (m: map<Id, set<Id>>)
    requires EvidenceFiled(evidence)
    ensures m == Group(SourcePairs(evidence))
  {
    m := map[];
    var todo := evidence.Keys;
    VisitEnds(evidence);
    EmptyRelation<Id, Id>(IdRank);
    assert SourcePairs(map[]) == {};
    while todo != {}
      invariant todo <= evidence.Keys
      invariant m == Group(SourcePairs(evidence - todo))
      decreases |todo|
    {
      var _ := Inhabited(todo);
      var id :| id in todo;
      var e := evidence[id];
      Visit(evidence, todo, id);
      SourceStepPairs(evidence - todo, e);
      if e.sourceId.Some? {
        GroupAdd(SourcePairs(evidence - todo), e.sourceId.value, e.id);
        m := AddTo(m, e.sourceId.value, e.id);
      } else {
        assert SourcePairs(evidence - todo) + {} == SourcePairs(evidence - todo);
      }
      todo := todo - {id};
    }
  }

  /** `_resolution_ids_by_claim_id` */
  method ResolutionIdsByClaim(resolutions: map<Id, Resolution>) returns (m: map<Id, set<Id>>)
    requires ResolutionsFiled(resolutions)
    ensures m == Group(ClassifiedPairs(resolutions))
  {
    m := map[];
    var todo := resolutions.Keys;
    VisitEnds(resolutions);
    EmptyRelation<Id, Id>(IdRank);
    assert ClassifiedPairs(map[]) == {};
    hide ClassifiedPairs;
    while todo != {}
      invariant todo <= resolutions.Keys
      invariant m == Group(ClassifiedPairs(resolutions - todo))
      decreases |todo|
    {
      var _ := Inhabited(todo);
      var id :| id in todo;
      Visit(resolutions, todo, id);
      ClassifiedStepPairs(resolutions - todo, resolutions[id]);
      m := AddToAll(m, resolutions[id].Classified(), id, ClassifiedPairs(resolutions - todo));
      todo := todo - {id};
    }
  }

  // ---------------------------------------------------------------- histories

  /** `_group_resolution_history` */
  method GroupResolutionHistory(rs: map<Id, Resolution>)
    returns (byRef: map<ConflictRef, seq<Resolution>>, byLane: map<Lane, seq<Resolution>>)
    requires ResolutionsFiled(rs)
    ensures byRef == Listings(ResolutionRefPairs(rs), ResolutionRank)
    ensures byLane == Listings(ResolutionLanePairs(rs), ResolutionRank)
  {
    byRef, byLane := map[], map[];
    var todo := rs.Keys;
    VisitEnds(rs);
    EmptyRelation<ConflictRef, Resolution>(ResolutionRank);
    EmptyRelation<Lane, Resolution>(ResolutionRank);
    assert ResolutionRefPairs(map[]) == {} && ResolutionLanePairs(map[]) == {};
    hide Bag;
    while todo != {}
      invariant todo <= rs.Keys
      invariant Bag(byRef, ResolutionRefPairs(rs - todo))
      invariant Bag(byLane, ResolutionLanePairs(rs - todo))
      decreases |todo|
    {
      var _ := Inhabited(todo);
      var id :| id in todo;
      var r := rs[id];
      Visit(rs, todo, id);
      ResolutionStepPairs(rs - todo, r);
      BagAppend(byRef, ResolutionRefPairs(rs - todo), r.conflictRef, r);
      BagAppend(byLane, ResolutionLanePairs(rs - todo), LaneOfResolution(r), r);
      byRef, byLane := Append(byRef, r.conflictRef, r), Append(byLane, LaneOfResolution(r), r);
      todo := todo - {id};
    }
    ResolutionsDistinct(rs);
    BagSorted(byRef, ResolutionRefPairs(rs), ResolutionRank);
    BagSorted(byLane, ResolutionLanePairs(rs), ResolutionRank);
    byRef, byLane := SortAll(byRef, ResolutionRank), SortAll(byLane, ResolutionRank);
  }

  /** `_group_lifecycle_history` */
  method GroupLifecycleHistory(es: map<Id, Event>)
    returns (byRef: map<ConflictRef, seq<Event>>, byLane: map<Lane, seq<Event>>)
    requires EventsFiled(es)
    ensures byRef == Listings(EventRefPairs(es), EventRank)
    ensures byLane == Listings(EventLanePairs(es), EventRank)
  {
    byRef, byLane := map[], map[];
    var todo := es.Keys;
    VisitEnds(es);
    EmptyRelation<ConflictRef, Event>(EventRank);
    EmptyRelation<Lane, Event>(EventRank);
    assert EventRefPairs(map[]) == {} && EventLanePairs(map[]) == {};
    hide Bag;
    while todo != {}
      invariant todo <= es.Keys
      invariant Bag(byRef, EventRefPairs(es - todo))
      invariant Bag(byLane, EventLanePairs(es - todo))
      decreases |todo|
    {
      var _ := Inhabited(todo);
      var id :| id in todo;
      var e := es[id];
      Visit(es, todo, id);
      EventStepPairs(es - todo, e);
      BagAppend(byRef, EventRefPairs(es - todo), e.conflictRef, e);
      BagAppend(byLane, EventLanePairs(es - todo), LaneOfEvent(e), e);
      byRef, byLane := Append(byRef, e.conflictRef, e), Append(byLane, LaneOfEvent(e), e);
      todo := todo - {id};
    }
    EventsDistinct(es);
    BagSorted(byRef, EventRefPairs(es), EventRank);
    BagSorted(byLane, EventLanePairs(es), EventRank);
    byRef, byLane := SortAll(byRef, EventRank), SortAll(byLane, EventRank);
  }

  // ---------------------------------------------------------------- active claims

  /** The inactive claims: every direct target, and every claim carrying a retracted reference. */
  method CollectInactive(targets: set<Id>, targetRefs: set<ClaimRef>, idsByRef: map<ClaimRef, set<Id>>,
                         ghost claims: map<Id, Claim>, ghost registry: Registry)
    returns (inactive: set<Id>)
    requires idsByRef == Group(RefPairs(claims, registry))
    ensures inactive == targets + IdsWithRef(claims, targetRefs, registry)
  {
    inactive := targets;
    var todo := targetRefs;
    ghost var done: set<ClaimRef> := {};
    IdsOfRef(claims, registry, targets, {}, OtherClaimRef(0));
    hide IdsWithRef;
    hide Group;
    while todo != {}
      invariant done + todo == targetRefs
      invariant inactive == targets + IdsWithRef(claims, done, registry)
      decreases |todo|
    {
      var _ := Inhabited(todo);
      var ref :| ref in todo;
      IdsOfRef(claims, registry, targets, done, ref);
      inactive := inactive + Lookup(idsByRef, ref);
      done, todo := done + {ref}, todo - {ref};
    }
    assert done == targetRefs;
  }

  /** The loop over the claims: skip the inactive, set aside the inapplicable, group the rest. */
  method CollectActive(claims: map<Id, Claim>, inactive: set<Id>, w: Window) returns (activity: Activity)
    requires ClaimsFiled(claims)
    ensures activity == ActivityOf(claims, inactive, w)
  {
    var raw: map<ClaimKey, seq<Claim>>, inapplicable: set<Id> := map[], {};
    var todo := claims.Keys;
    VisitEnds(claims);
    EmptyRelation<ClaimKey, Claim>(ClaimRank);
    assert ActivePairs(map[], inactive, w) == {} && InapplicableIds(map[], inactive, w) == {};
    hide Bag;
    hide ActivePairs;
    hide InapplicableIds;
    while todo != {}
      invariant todo <= claims.Keys
      invariant Bag(raw, ActivePairs(claims - todo, inactive, w))
      invariant inapplicable == InapplicableIds(claims - todo, inactive, w)
      decreases |todo|
    {
      var _ := Inhabited(todo);
      var id :| id in todo;
      raw, inapplicable := PlaceClaim(raw, inapplicable, claims[id], inactive, w, claims - todo);
      Visit(claims, todo, id);
      todo := todo - {id};
    }
    ActiveDistinct(claims, inactive, w);
    BagSorted(raw, ActivePairs(claims, inactive, w), ClaimRank);
    activity := Activity(inactive, inapplicable, SortAll(raw, ClaimRank));
  }

  method PlaceClaim(raw: map<ClaimKey, seq<Claim>>, inapplicable: set<Id>, c: Claim, inactive: set<Id>, w: Window,
                    ghost claims: map<Id, Claim>)
    returns (raw': map<ClaimKey, seq<Claim>>, inapplicable': set<Id>)
    requires c.id !in claims && ClaimsFiled(claims)
    requires Bag(raw, ActivePairs(claims, inactive, w)) && inapplicable == InapplicableIds(claims, inactive, w)
    ensures Bag(raw', ActivePairs(claims[c.id := c], inactive, w))
    ensures inapplicable' == InapplicableIds(claims[c.id := c], inactive, w)
  {
    raw', inapplicable' := raw, inapplicable;
    ActiveStep(claims, c, inactive, w);
    hide ActivePairs;
    hide Bag;
    if c.id in inactive {
      assert ActivePairs(claims, inactive, w) + {} == ActivePairs(claims, inactive, w);
      return;
    }
    if !ClaimApplies(c, w.at, w.context) {
      assert ActivePairs(claims, inactive, w) + {} == ActivePairs(claims, inactive, w);
      inapplicable' := inapplicable + {c.id};
      return;
    }
    BagAppend(raw, ActivePairs(claims, inactive, w), c.key, c);
    raw' := Append(raw, c.key, c);
  }

  // ---------------------------------------------------------------- findings

  method ScanKey(byKey: map<ClaimKey, seq<Claim>>, key: ClaimKey, facts: Facts, registry: Registry,
                 conflicts: seq<ConflictSet>, ghost done: set<ClaimKey>)
    returns (conflicts': seq<ConflictSet>)
    requires ListsByKey(byKey) && key in byKey
    requires Elements(conflicts) == FindingsAmong(byKey, done, facts, registry)
    ensures Elements(conflicts') == FindingsAmong(byKey, done + {key}, facts, registry)
  {
    assert KeyList(byKey[key], key);
    FindingsStep(byKey, done, key, facts, registry);
    var finding := DetectAtKey(key, byKey[key], facts, registry);
    hide FindingsAmong;
    hide FindingOf;
    hide ListsByKey;
    conflicts' := conflicts + if finding.Some? then [finding.value] else [];
    ElementsConcat(conflicts, if finding.Some? then [finding.value] else []);
  }

  /** `_direct_conflicts`: every key's pair scan. One finding for each key two of whose claims cannot
      both hold, reporting exactly those pairs and the claims in them, under labels that say what the
      records say of them. */
  method DirectConflicts(byKey: map<ClaimKey, seq<Claim>>, facts: Facts, registry: Registry)
    returns (conflicts: seq<ConflictSet>)
    requires ListsByKey(byKey)
    ensures Elements(conflicts) == FindingSet(byKey, facts, registry)
    ensures ReportsAll(Elements(conflicts), byKey, registry.rules)
    ensures forall c :: c in conflicts ==> Labels(c, facts, registry.rules)
  {
    conflicts := [];
    var todo := byKey.Keys;
    ghost var done: set<ClaimKey> := {};
    FindingsStep(byKey, {}, ClaimKey("", "", ""), facts, registry);
    AllReported(byKey, facts, registry);
    AllLabelled(byKey, facts, registry);
    hide FindingsAmong;
    hide ListsByKey;
    hide ReportsAll;
    hide Labels;
    while todo != {}
      invariant done + todo == byKey.Keys
      invariant Elements(conflicts) == FindingsAmong(byKey, done, facts, registry)
      decreases |todo|
    {
      var _ := Inhabited(todo);
      var key :| key in todo;
      conflicts := ScanKey(byKey, key, facts, registry, conflicts, done);
      done, todo := done + {key}, todo - {key};
    }
    assert done == byKey.Keys;
  }

  // ---------------------------------------------------------------- admission of findings

  /** A finding may only name active, unmodified claims, under its canonical identity. */
  predicate Sound(c: ConflictSet, active: map<Id, Claim>) {
    && (forall x :: x in c.candidates ==> x.id in active && active[x.id] == x)
    && c.ref == DeriveConflictRef(c.key, c.conflictType, c.keys, c.detector)
    && c.id == DeriveConflictId(c.key, c.CandidateIds(), c.conflictType, c.keys, c.detector)
  }

  /** One identifier, one finding; one reference, one identifier. */
  ghost predicate Admissible(cs: set<ConflictSet>, active: map<Id, Claim>) {
    && (forall c :: c in cs ==> Sound(c, active))
    && Injective(cs, ConflictIdOf)
    && Injective(cs, ConflictRefOf)
  }

  /** The checks `run_conflict_detectors` makes on one finding. */
  method Admit(c: ConflictSet, active: map<Id, Claim>, byId: map<ConflictId, ConflictSet>,
               refs: map<ConflictRef, ConflictId>, ghost seen: set<ConflictSet>)
    returns (r: Result<(map<ConflictId, ConflictSet>, map<ConflictRef, ConflictId>)>)
    requires Admissible(seen, active) && byId == ById(seen, ConflictIdOf)
    requires RefsOf(refs, seen)
    ensures r.Ok? <==> Admissible(seen + {c}, active)
    ensures r.Ok? ==> r.value.0 == ById(seen + {c}, ConflictIdOf) && RefsOf(r.value.1, seen + {c})
  {
    AdmissionTest(c, active, refs, seen);
    hide Sound;
    hide Admissible;
    if !Sound(c, active) { return ValueError; }
    if c.id in byId {
      if byId[c.id] != c { return ValueError; }
      KnownFinding(c, seen);
      return Ok((byId, refs));
    }
    if c.ref in refs && refs[c.ref] != c.id { return ValueError; }
    NewFinding(c, refs, seen);
    ByIdAdd(seen, ConflictIdOf, c);
    r := Ok((byId[c.id := c], refs[c.ref := c.id]));
  }

  lemma KnownFinding(c: ConflictSet, seen: set<ConflictSet>)
    requires Injective(seen, ConflictIdOf) && c.id in ById(seen, ConflictIdOf) && ById(seen, ConflictIdOf)[c.id] == c
    ensures seen + {c} == seen
  {
    ByIdEntry(seen, ConflictIdOf, c.id);
  }

  /** The three tests decide admission of one more finding. */
  lemma AdmissionTest(c: ConflictSet, active: map<Id, Claim>, refs: map<ConflictRef, ConflictId>, seen: set<ConflictSet>)
    requires Admissible(seen, active) && RefsOf(refs, seen)
    ensures var byId := ById(seen, ConflictIdOf);
            Admissible(seen + {c}, active) <==>
              Sound(c, active)
              && (if c.id in byId then byId[c.id] == c else c.ref in refs ==> refs[c.ref] == c.id)
    ensures Injective(seen, ConflictIdOf) && Injective(seen, ConflictRefOf)
  {
    var byId := ById(seen, ConflictIdOf);
    hide Sound;
    assert c in seen + {c};
    ByIdEntry(seen, ConflictIdOf, c.id);
    if c.id in byId {
      if byId[c.id] == c { KnownFinding(c, seen); } else { assert byId[c.id] in seen + {c}; }
    } else if c.ref in refs && refs[c.ref] != c.id {
      var d :| d in seen && d.ref == c.ref && d.id == refs[c.ref];
      assert d in seen + {c};
    } else {
      NewFinding(c, refs, seen);
    }
  }

  /** The references already taken, with the identifier that took each. */
  ghost predicate RefsOf(refs: map<ConflictRef, ConflictId>, seen: set<ConflictSet>) {
    && (forall c :: c in seen ==> c.ref in refs && refs[c.ref] == c.id)
    && (forall ref :: ref in refs ==> exists c :: c in seen && c.ref == ref && c.id == refs[ref])
  }

  lemma NewFinding(c: ConflictSet, refs: map<ConflictRef, ConflictId>, seen: set<ConflictSet>)
    requires Injective(seen, ConflictIdOf) && Injective(seen, ConflictRefOf) && RefsOf(refs, seen)
    requires c.id !in ById(seen, ConflictIdOf)
    requires c.ref in refs ==> refs[c.ref] == c.id
    ensures Injective(seen + {c}, ConflictIdOf) && Injective(seen + {c}, ConflictRefOf)
    ensures RefsOf(refs[c.ref := c.id], seen + {c})
  {
    forall d | d in seen ensures d.id != c.id && d.ref != c.ref {
      ByIdLookup(seen, ConflictIdOf, d);
    }
  }

  /** `run_conflict_detectors` after the detectors have reported: raises exactly when a finding
      names a claim that is not active, has a forged identity, or clashes with another. */
  method RunConflictDetectors(conflicts: seq<ConflictSet>, active: map<Id, Claim>)
    returns (r: Result<map<ConflictId, ConflictSet>>)
    ensures r.Ok? <==> Admissible(Elements(conflicts), active)
    ensures r.Ok? ==> r.value == ById(Elements(conflicts), ConflictIdOf)
  {
    var byId: map<ConflictId, ConflictSet>, refs: map<ConflictRef, ConflictId> := map[], map[];
    assert Elements(conflicts[..0]) == {};
    hide Sound;
    for i := 0 to |conflicts|
      invariant Admissible(Elements(conflicts[..i]), active)
      invariant byId == ById(Elements(conflicts[..i]), ConflictIdOf)
      invariant RefsOf(refs, Elements(conflicts[..i]))
    {
      PrefixStep(conflicts, i);
      var next := Admit(conflicts[i], active, byId, refs, Elements(conflicts[..i]));
      if next.ValueError? {
        NotAdmissible(Elements(conflicts[..i + 1]), Elements(conflicts), active);
        return ValueError;
      }
      byId, refs := next.value.0, next.value.1;
    }
    assert conflicts[..|conflicts|] == conflicts;
    r := Ok(byId);
  }

  lemma NotAdmissible(some: set<ConflictSet>, all: set<ConflictSet>, active: map<Id, Claim>)
    requires some <= all && !Admissible(some, active)
    ensures !Admissible(all, active)
  {
  }

  /** The dictionaries built from the admitted findings. */
  method TabulateFindings(byId: map<ConflictId, ConflictSet>, ghost cs: set<ConflictSet>) returns (t: FindingTables)
    requires Injective(cs, ConflictIdOf) && Injective(cs, ConflictRefOf) && Injective(cs, ConflictKeyOf)
    requires byId == ById(cs, ConflictIdOf)
    ensures t == TablesOf(cs)
  {
    var byRef: map<ConflictRef, ConflictSet>, byKey: map<ClaimKey, ConflictSet> := map[], map[];
    var todo := byId.Keys;
    ghost var seen: set<ConflictSet> := {};
    while todo != {}
      invariant todo <= byId.Keys && seen == set c | c in cs && c.id !in todo
      invariant byRef == ById(seen, ConflictRefOf) && byKey == ById(seen, ConflictKeyOf)
      decreases |todo|
    {
      var _ := Inhabited(todo);
      var id :| id in todo;
      var c := byId[id];
      SeenNext(cs, todo, id);
      ByIdAdd(seen, ConflictRefOf, c);
      ByIdAdd(seen, ConflictKeyOf, c);
      byRef, byKey := byRef[c.ref := c], byKey[c.key := c];
      seen, todo := seen + {c}, todo - {id};
    }
    assert seen == cs;
    t := FindingTables(byId, byRef, map key | key in byKey :: [byKey[key]]);
  }

  lemma SeenNext(cs: set<ConflictSet>, todo: set<ConflictId>, id: ConflictId)
    requires Injective(cs, ConflictIdOf) && Injective(cs, ConflictRefOf) && Injective(cs, ConflictKeyOf)
    requires id in todo && id in ById(cs, ConflictIdOf)
    ensures var c := ById(cs, ConflictIdOf)[id];
            var seen := set d | d in cs && d.id !in todo;
            c in cs && c.id == id
            && (set d | d in cs && d.id !in todo - {id}) == seen + {c}
            && Injective(seen + {c}, ConflictRefOf) && Injective(seen + {c}, ConflictKeyOf)
  {
    ByIdEntry(cs, ConflictIdOf, id);
  }

  // ---------------------------------------------------------------- assembling the state

  /** The listed claims agree with the table they were listed from. */
  ghost predicate ListedFrom(byKey: map<ClaimKey, seq<Claim>>, claims: map<Id, Claim>) {
    forall key :: key in byKey ==> AllIn(byKey[key], claims)
  }

  ghost predicate AllIn(cs: seq<Claim>, claims: map<Id, Claim>) {
    forall c :: c in cs ==> c.id in claims && claims[c.id] == c
  }

  lemma ActivityListed(claims: map<Id, Claim>, inactive: set<Id>, w: Window)
    requires ClaimsFiled(claims)
    ensures ListedFrom(ActivityOf(claims, inactive, w).byKey, claims)
  {
    var byKey := ActivityOf(claims, inactive, w).byKey;
    forall key | key in byKey ensures AllIn(byKey[key], claims) {
      forall c: Claim | c in byKey[key] ensures c.id in claims && claims[c.id] == c {
        ListedClaim(claims, inactive, w, key, c);
      }
    }
  }

  /** The detection context's active claims by identifier. */
  method ActiveById(byKey: map<ClaimKey, seq<Claim>>, ghost claims: map<Id, Claim>) returns (active: map<Id, Claim>)
    requires ListsByKey(byKey) && ListedFrom(byKey, claims)
    ensures ListedFrom(byKey, active)
  {
    active := map[];
    var todo := byKey.Keys;
    while todo != {}
      invariant todo <= byKey.Keys
      invariant forall id :: id in active ==> id in claims && active[id] == claims[id]
      invariant forall key :: key in byKey && key !in todo ==> AllIn(byKey[key], active)
      decreases |todo|
    {
      var _ := Inhabited(todo);
      var key :| key in todo;
      AddList(byKey[key], claims, active, key);
      ghost var before := active;
      active := active + ByClaimId(byKey[key]);
      StillListed(byKey, todo, before, active, claims);
      todo := todo - {key};
    }
  }

  lemma AddList(cs: seq<Claim>, claims: map<Id, Claim>, active: map<Id, Claim>, key: ClaimKey)
    requires exists k :: KeyList(cs, k)
    requires AllIn(cs, claims) && forall id :: id in active ==> id in claims && active[id] == claims[id]
    ensures var after := active + ByClaimId(cs);
            AllIn(cs, after) && (forall id :: id in after ==> id in claims && after[id] == claims[id])
            && forall id :: id in active ==> id in after
  {
    ByClaimIdProperties(cs);
  }

  lemma StillListed(byKey: map<ClaimKey, seq<Claim>>, todo: set<ClaimKey>, a: map<Id, Claim>, b: map<Id, Claim>,
                    claims: map<Id, Claim>)
    requires forall key :: key in byKey && key !in todo ==> AllIn(byKey[key], a)
    requires forall id :: id in a ==> id in b && id in claims && a[id] == claims[id]
    requires forall id :: id in b ==> id in claims && b[id] == claims[id]
    ensures forall key :: key in byKey && key !in todo ==> AllIn(byKey[key], b)
  {
    forall key | key in byKey && key !in todo ensures AllIn(byKey[key], b) {
      assert AllIn(byKey[key], a);
    }
  }

  /** Direct findings are always admitted. */
  lemma DirectFindingsAdmissible(byKey: map<ClaimKey, seq<Claim>>, facts: Facts, registry: Registry, active: map<Id, Claim>)
    requires ListsByKey(byKey) && ListedFrom(byKey, active)
    ensures Admissible(FindingSet(byKey, facts, registry), active)
  {
    var cs := FindingSet(byKey, facts, registry);
    FindingsInjective(byKey, byKey.Keys, facts, registry);
    forall c | c in cs ensures Sound(c, active) {
      FindingAtIdentity(byKey, c.key, facts, registry);
      assert AllIn(byKey[c.key], active);
      assert c.CandidateIds() == IdsOf(c.candidates);
    }
  }

  lemma StoredFinding(byKey: map<ClaimKey, seq<Claim>>, facts: Facts, registry: Registry, key: ClaimKey)
    requires ListsByKey(byKey)
    ensures var m := TablesOf(FindingSet(byKey, facts, registry)).byKey;
            (key in m <==> HasFinding(byKey, key, facts, registry))
            && (key in m ==> m[key] == [FindingAt(byKey, key, facts, registry).value])
  {
    var cs := FindingSet(byKey, facts, registry);
    FindingsInjective(byKey, byKey.Keys, facts, registry);
    ByIdEntry(cs, ConflictKeyOf, key);
    if HasFinding(byKey, key, facts, registry) {
      FindingAtIdentity(byKey, key, facts, registry);
      assert FindingAt(byKey, key, facts, registry).value in cs;
    }
  }

  /** The finding stored under a key. */
  function StoredAt(t: FindingTables, key: ClaimKey): Option<ConflictSet> {
    if key in t.byKey && t.byKey[key] != [] then Some(t.byKey[key][0]) else None
  }

  ghost function RebuiltIndexes(byKey: map<ClaimKey, seq<Claim>>, t: FindingTables, registry: Registry): map<ClaimKey, Index> {
    map key | key in byKey :: RebuiltIndex(ByClaimId(byKey[key]), registry, StoredAt(t, key))
  }

  /** The index of every key with active claims, from the finding already stored there. */
  method BuildIndexes(byKey: map<ClaimKey, seq<Claim>>, t: FindingTables, registry: Registry)
    returns (indexes: map<ClaimKey, Index>)
    ensures indexes == RebuiltIndexes(byKey, t, registry)
  {
    indexes := map[];
    var todo := byKey.Keys;
    VisitEnds(byKey);
    assert RebuiltIndexes(map[], t, registry) == map[];
    hide StoredAt;
    hide RebuiltIndex;
    while todo != {}
      invariant todo <= byKey.Keys
      invariant indexes == RebuiltIndexes(byKey - todo, t, registry)
      decreases |todo|
    {
      var _ := Inhabited(todo);
      var key :| key in todo;
      var index := BuildDirectConflictIndex(byKey[key], registry, StoredAt(t, key));
      RebuiltStep(byKey - todo, key, byKey[key], t, registry);
      Visit(byKey, todo, key);
      indexes := indexes[key := index];
      todo := todo - {key};
    }
  }

  lemma RebuiltStep(byKey: map<ClaimKey, seq<Claim>>, key: ClaimKey, claims: seq<Claim>, t: FindingTables, registry: Registry)
    ensures RebuiltIndexes(byKey[key := claims], t, registry)
            == RebuiltIndexes(byKey, t, registry)[key := RebuiltIndex(ByClaimId(claims), registry, StoredAt(t, key))]
  {
    hide RebuiltIndex;
    hide ByClaimId;
    hide StoredAt;
    assert RebuiltIndexes(byKey[key := claims], t, registry).Keys
           == RebuiltIndexes(byKey, t, registry)[key := RebuiltIndex(ByClaimId(claims), registry, StoredAt(t, key))].Keys;
  }

  /** Findings detected under the same rules carry everything their indexes hold. */
  lemma RebuiltIndexesExact(byKey: map<ClaimKey, seq<Claim>>, facts: Facts, registry: Registry)
    requires ListsByKey(byKey)
    ensures RebuiltIndexes(byKey, TablesOf(FindingSet(byKey, facts, registry)), registry) == IndexesOf(byKey, registry)
  {
    var t := TablesOf(FindingSet(byKey, facts, registry));
    forall key | key in byKey
      ensures RebuiltIndex(ByClaimId(byKey[key]), registry, StoredAt(t, key)) == IndexOf(ByClaimId(byKey[key]), registry)
    {
      RebuiltIndexExact(byKey, facts, registry, key);
    }
    assert RebuiltIndexes(byKey, t, registry).Keys == IndexesOf(byKey, registry).Keys;
  }

  lemma RebuiltIndexExact(byKey: map<ClaimKey, seq<Claim>>, facts: Facts, registry: Registry, key: ClaimKey)
    requires ListsByKey(byKey) && key in byKey
    ensures RebuiltIndex(ByClaimId(byKey[key]), registry, StoredAt(TablesOf(FindingSet(byKey, facts, registry)), key))
            == IndexOf(ByClaimId(byKey[key]), registry)
  {
    assert KeyList(byKey[key], key);
    StoredFinding(byKey, facts, registry, key);
    SequenceOnKey(byKey[key], key);
    hide TablesOf;
    hide FindingSet;
    hide RebuiltIndex;
    hide IndexOf;
    RebuiltFromFinding(key, ByClaimId(byKey[key]), facts, registry);
  }

  /** The cross-index helpers, called after the loop over the log. */
  method BuildLinks(g: Gathered, registry: Registry) returns (links: Links)
    requires WellFiled(g.records)
    requires g.claimRefs == RefMap(g.records.claims, registry) && g.idsByRef == Group(RefPairs(g.records.claims, registry))
    ensures links == LinksOf(g.records, registry)
  {
    var byEvidence := ClaimIdsByEvidence(g.records.claims);
    var byDerivation := ClaimIdsByDerivation(g.records.claims);
    var bySource := EvidenceIdsBySource(g.records.evidence);
    var byClaim := ResolutionIdsByClaim(g.records.resolutions);
    links := Links(g.claimRefs, g.idsByRef, byEvidence, byDerivation, bySource, byClaim);
  }

  method BuildHistories(r: Records) returns (h: Histories)
    requires WellFiled(r)
    ensures h == HistoriesOf(r)
  {
    var resolutionsByRef, resolutionLanes := GroupResolutionHistory(r.resolutions);
    var eventsByRef, eventLanes := GroupLifecycleHistory(r.events);
    h := Histories(resolutionsByRef, resolutionLanes, eventsByRef, eventLanes);
  }

  /** Detection, admission and tabulation of the direct findings; admission never raises here. */
  method BuildFindings(byKey: map<ClaimKey, seq<Claim>>, facts: Facts, registry: Registry, ghost claims: map<Id, Claim>)
    returns (t: FindingTables)
    requires ListsByKey(byKey) && ListedFrom(byKey, claims)
    ensures t == TablesOf(FindingSet(byKey, facts, registry))
  {
    var conflicts := DirectConflicts(byKey, facts, registry);
    var active := ActiveById(byKey, claims);
    DirectFindingsAdmissible(byKey, facts, registry, active);
    FindingsInjective(byKey, byKey.Keys, facts, registry);
    hide Admissible;
    hide FindingsAmong;
    var admitted := RunConflictDetectors(conflicts, active);
    t := TabulateFindings(admitted.value, FindingSet(byKey, facts, registry));
  }

  /** Everything `materialize` does once the log has been read. */
  method Assemble(g: Gathered, registry: Registry, w: Window, ghost rs: set<Op>) returns (state: MemoryState)
    requires WellFiled(g.records) && UniqueOps(rs)
    requires g.claimRefs == RefMap(g.records.claims, registry) && g.idsByRef == Group(RefPairs(g.records.claims, registry))
    requires RawRetractions(g.raw, rs)
    ensures state == Derive(g.records, rs, registry, w)
  {
    SortedRetractions(g.raw, rs);
    hide RetractionsOf;
    hide LinksOf;
    var retractions := Retractions(
      SortAll(g.raw.byTarget, RetractionRank), SortAll(g.raw.byTargetRef, RetractionRank),
      SortAll(g.raw.bySuperseder, RetractionRank), SortAll(g.raw.bySupersederRef, RetractionRank));
    var inactive := CollectInactive(g.raw.byTarget.Keys, g.raw.byTargetRef.Keys, g.idsByRef, g.records.claims, registry);
    hide RawRetractions;
    var activity := CollectActive(g.records.claims, inactive, w);
    ActivityLists(g.records.claims, inactive, w);
    ActivityListed(g.records.claims, inactive, w);
    hide ActivityOf;
    state := FinishState(g, registry, w, retractions, activity);
  }

  method FinishState(g: Gathered, registry: Registry, w: Window, retractions: Retractions, activity: Activity)
    returns (state: MemoryState)
    requires WellFiled(g.records)
    requires g.claimRefs == RefMap(g.records.claims, registry) && g.idsByRef == Group(RefPairs(g.records.claims, registry))
    requires ListsByKey(activity.byKey) && ListedFrom(activity.byKey, g.records.claims)
    ensures var findings := TablesOf(FindingSet(activity.byKey, FactsOf(g.records), registry));
            var histories := HistoriesOf(g.records);
            state == MemoryState(g.records, LinksOf(g.records, registry), retractions, activity, histories, findings,
                                 IndexesOf(activity.byKey, registry),
                                 FoldOf(FoldInputs(g.records, histories, findings.byRef, w.at)))
  {
    var findings := BuildFindings(activity.byKey, FactsOf(g.records), registry, g.records.claims);
    hide ListedFrom;
    var indexes := BuildIndexes(activity.byKey, findings, registry);
    RebuiltIndexesExact(activity.byKey, FactsOf(g.records), registry);
    hide RebuiltIndexes;
    hide TablesOf;
    hide IndexesOf;
    hide ListsByKey;
    var links := BuildLinks(g, registry);
    var histories := BuildHistories(g.records);
    hide LinksOf;
    hide HistoriesOf;
    hide FoldOf;
    var lifecycle := FoldLifecycle(FoldInputs(g.records, histories, findings.byRef, w.at));
    state := MemoryState(g.records, links, retractions, activity, histories, findings, indexes, lifecycle);
  }

  /** `materialize`: raises exactly when a record identifier carries two payloads, and otherwise
      returns the state the set of operations denotes, whatever order the log lists them in. */
  method Materialize(ops: seq<Op>, registry: Registry, w: Window) returns (r: Result<MemoryState>)
    requires NoDuplicates(ops) && UniqueOps(Elements(ops))
    ensures r.Ok? <==> CollisionFree(Elements(ops))
    ensures r.Ok? ==> r.value == StateOf(Elements(ops), registry, w)
  {
    var gathered := Gather(ops, registry);
    if gathered.ValueError? { return ValueError; }
    RecordsWellFiled(Elements(ops));
    assert RetractionsIn(Elements(ops)) <= Elements(ops);
    hide RecordsOf;
    hide CollisionFree;
    hide RawRetractions;
    var state := Assemble(gathered.value, registry, w, RetractionsIn(Elements(ops)));
    r := Ok(state);
  }
}
