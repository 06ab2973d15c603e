/** The loop of `apply_operations_incrementally` over unseen operations: each branch keeps the
    copied tables equal to those of the operations seen so far and marks what it may have changed. */
module Absorb {
  import opened Basics
  import opened Model
  import opened Findings
  import opened Records
  import opened State
  import opened Tables
  import opened Affected

  /** The working copies of the state's tables. `raw` holds active claims, still unsorted. */
  datatype Work = Work(
    records: Records, links: Links, retractions: Retractions, inactive: set<Id>,
    raw: map<ClaimKey, seq<Claim>>, histories: Histories, marks: Marks)

  /** Lists with the right members; a key whose claims are all gone may still be present. */
  ghost predicate LooseBag<K(!new), V(!new)>(m: map<K, seq<V>>, r: set<(K, V)>) {
    && Firsts(r) <= m.Keys
    && forall k :: k in m ==> NoDuplicates(m[k]) && Elements(m[k]) == Image(r, k)
  }

  /** The working tables are those of `records` and of the retractions `rs`. */
  ghost predicate InStep(wk: Work, rs: set<Op>, registry: Registry) {
    && wk.links == LinksOf(wk.records, registry)
    && wk.retractions == RetractionsOf(rs)
    && wk.inactive == InactiveIds(wk.records.claims, rs, registry)
    && LooseBag(wk.raw, ActivePairs(wk.records.claims, wk.inactive, UNSCOPED))
    && wk.histories == HistoriesOf(wk.records)
  }

  function BaseOf(wk: Work): Base { Base(wk.records, wk.inactive) }

  /** One branch: from `before` to `after`, with what it newly marked covering the change. */
  ghost predicate Advanced(before: Work, after: Work, rs: set<Op>, registry: Registry) {
    && InStep(after, rs, registry)
    && exists added: Marks :: after.marks == Join(before.marks, added) && Covered(BaseOf(before), BaseOf(after), added)
  }

  // ---------------------------------------------------------------- marking keys

  ghost function KeysOfIds(ids: set<Id>, claims: map<Id, Claim>): set<ClaimKey> {
    set id | id in ids && id in claims :: claims[id].key
  }

  /** `_mark_claim_keys` */
  method MarkClaimKeys(ids: set<Id>, claims: map<Id, Claim>, keys: set<ClaimKey>) returns (keys': set<ClaimKey>)
    ensures keys' == keys + KeysOfIds(ids, claims)
  {
    keys' := keys;
    var todo := ids;
    while todo != {}
      invariant todo <= ids
      invariant keys' == keys + KeysOfIds(ids - todo, claims)
      decreases |todo|
    {
      var _ := Inhabited(todo);
      var id :| id in todo;
      assert ids - (todo - {id}) == (ids - todo) + {id};
      if id in claims {
        keys' := keys' + {claims[id].key};
      }
      todo := todo - {id};
    }
    assert ids - todo == ids;
  }

  /** The claims citing any of the given evidence. */
  ghost function CitingIds(evidenceIds: set<Id>, claimsByEvidence: map<Id, set<Id>>): set<Id> {
    set e, id | e in evidenceIds && id in Lookup(claimsByEvidence, e) :: id
  }

  lemma CitingStep(done: set<Id>, e: Id, claimsByEvidence: map<Id, set<Id>>, claims: map<Id, Claim>)
    ensures KeysOfIds(CitingIds(done + {e}, claimsByEvidence), claims)
            == KeysOfIds(CitingIds(done, claimsByEvidence), claims) + KeysOfIds(Lookup(claimsByEvidence, e), claims)
    ensures KeysOfIds(CitingIds({}, claimsByEvidence), claims) == {}
  {
    assert CitingIds(done + {e}, claimsByEvidence) == CitingIds(done, claimsByEvidence) + Lookup(claimsByEvidence, e);
  }

  method MarkCiting(evidenceIds: set<Id>, links: Links, claims: map<Id, Claim>) returns (keys: set<ClaimKey>)
    ensures keys == KeysOfIds(CitingIds(evidenceIds, links.claimsByEvidence), claims)
  {
    keys := {};
    var todo := evidenceIds;
    ghost var done: set<Id> := {};
    CitingStep({}, Id(0), links.claimsByEvidence, claims);
    hide CitingIds;
    hide KeysOfIds;
    while todo != {}
      invariant done + todo == evidenceIds
      invariant keys == KeysOfIds(CitingIds(done, links.claimsByEvidence), claims)
      decreases |todo|
    {
      var _ := Inhabited(todo);
      var e :| e in todo;
      CitingStep(done, e, links.claimsByEvidence, claims);
      keys := MarkClaimKeys(Lookup(links.claimsByEvidence, e), claims, keys);
      done, todo := done + {e}, todo - {e};
    }
    assert done == evidenceIds;
  }

  // ---------------------------------------------------------------- sources, evidence, derivations

  /** Only the facts changed: every table but the facts is the same. */
  lemma FactsOnly(before: Work, after: Work, rs: set<Op>, registry: Registry, keys: set<ClaimKey>)
    requires InStep(after, rs, registry) && after.marks == before.marks.(keys := before.marks.keys + keys)
    requires after.inactive == before.inactive && after.records.claims == before.records.claims
    requires after.records.resolutions == before.records.resolutions && after.records.events == before.records.events
    requires forall id :: id in after.records.claims && after.records.claims[id].key !in keys ==>
               SameFacts(after.records.claims[id], FactsOf(before.records), FactsOf(after.records))
    ensures Advanced(before, after, rs, registry)
  {
    hide InStep;
    var added := NO_MARKS.(keys := keys);
    assert after.marks == Join(before.marks, added);
    assert Covered(BaseOf(before), BaseOf(after), added);
  }

  lemma Unchanged(wk: Work, rs: set<Op>, registry: Registry)
    requires InStep(wk, rs, registry)
    ensures Advanced(wk, wk, rs, registry)
  {
    CoveredReflexive(BaseOf(wk));
    assert wk.marks == Join(wk.marks, NO_MARKS);
  }

  lemma SourceFacts(claims: map<Id, Claim>, facts: Facts, s: Source, c: Claim)
    requires s.id !in facts.sources && c.id in claims && claims[c.id] == c
    requires c.key !in KeysOfIds(CitingIds(Lookup(Group(SourcePairs(facts.evidence)), s.id), Group(EvidencePairs(claims))), claims)
    ensures SameFacts(c, facts, facts.(sources := facts.sources[s.id := s]))
  {
    var after := facts.(sources := facts.sources[s.id := s]);
    var evidenceIds, citing := Lookup(Group(SourcePairs(facts.evidence)), s.id), Group(EvidencePairs(claims));
    forall e | e in c.evidenceIds ensures HasSource(facts, e) <==> HasSource(after, e) {
      GroupLookup(SourcePairs(facts.evidence), s.id, e);
      GroupLookup(EvidencePairs(claims), e, c.id);
      assert (e, c.id) in EvidencePairs(claims);
      assert e in facts.evidence && facts.evidence[e].sourceId == Some(s.id) ==> (s.id, e) in SourcePairs(facts.evidence);
      assert e in evidenceIds ==> c.id in CitingIds(evidenceIds, citing);
      assert c.id in CitingIds(evidenceIds, citing) ==> c.key in KeysOfIds(CitingIds(evidenceIds, citing), claims);
    }
    assert SourceTypesOf(c, facts) == SourceTypesOf(c, after);
  }

  method ApplySource(wk: Work, s: Source, ghost rs: set<Op>, registry: Registry) returns (r: Result<Work>)
    requires InStep(wk, rs, registry) && ClaimsFiled(wk.records.claims)
    ensures r.Ok? <==> SetRecord(wk.records.sources, s.id, s).Ok?
    ensures r.Ok? ==> Advanced(wk, r.value, rs, registry)
                      && r.value.records == wk.records.(sources := wk.records.sources[s.id := s])
    ensures r.Ok? && r.value.records == wk.records ==> r.value.marks == wk.marks
  {
    var inserted := InsertImmutable(wk.records.sources, s.id, s);
    if inserted.ValueError? { return ValueError; }
    Unchanged(wk, rs, registry);
    assert s.id in wk.records.sources ==> wk.records.sources[s.id := s] == wk.records.sources;
    if !inserted.value.1 { return Ok(wk); }
    var keys := MarkCiting(Lookup(wk.links.evidenceBySource, s.id), wk.links, wk.records.claims);
    var after := wk.(records := wk.records.(sources := inserted.value.0), marks := wk.marks.(keys := wk.marks.keys + keys));
    forall id | id in wk.records.claims && wk.records.claims[id].key !in keys
      ensures SameFacts(wk.records.claims[id], FactsOf(wk.records), FactsOf(after.records))
    {
      SourceFacts(wk.records.claims, FactsOf(wk.records), s, wk.records.claims[id]);
    }
    FactsOnly(wk, after, rs, registry, keys);
    r := Ok(after);
  }

  lemma EvidenceFacts(claims: map<Id, Claim>, facts: Facts, e: Evidence, c: Claim)
    requires e.id !in facts.evidence && c.id in claims && claims[c.id] == c
    requires c.key !in KeysOfIds(Lookup(Group(EvidencePairs(claims)), e.id), claims)
    ensures SameFacts(c, facts, facts.(evidence := facts.evidence[e.id := e]))
  {
    var after := facts.(evidence := facts.evidence[e.id := e]);
    GroupLookup(EvidencePairs(claims), e.id, c.id);
    assert e.id in c.evidenceIds ==> (e.id, c.id) in EvidencePairs(claims);
    assert c.id in Lookup(Group(EvidencePairs(claims)), e.id) ==> c.key in KeysOfIds(Lookup(Group(EvidencePairs(claims)), e.id), claims);
    forall i | i in c.evidenceIds ensures i != e.id && (HasSource(facts, i) <==> HasSource(after, i)) {}
    assert SourceTypesOf(c, facts) == SourceTypesOf(c, after);
  }

  /** Evidence seen for the first time. */
  method FileEvidence(wk: Work, e: Evidence, ghost rs: set<Op>, registry: Registry) returns (after: Work)
    requires InStep(wk, rs, registry) && ClaimsFiled(wk.records.claims) && e.id !in wk.records.evidence
    ensures Advanced(wk, after, rs, registry)
    ensures after.records == wk.records.(evidence := wk.records.evidence[e.id := e])
  {
    SourceStepPairs(wk.records.evidence, e);
    var bySource := wk.links.evidenceBySource;
    if e.sourceId.Some? {
      GroupAdd(SourcePairs(wk.records.evidence), e.sourceId.value, e.id);
      bySource := AddTo(bySource, e.sourceId.value, e.id);
    } else {
      assert SourcePairs(wk.records.evidence) + {} == SourcePairs(wk.records.evidence);
    }
    var keys := MarkClaimKeys(Lookup(wk.links.claimsByEvidence, e.id), wk.records.claims, {});
    after := wk.(records := wk.records.(evidence := wk.records.evidence[e.id := e]),
                 links := wk.links.(evidenceBySource := bySource),
                 marks := wk.marks.(keys := wk.marks.keys + keys));
    EvidenceAbsorbed(wk, after, e, keys, rs, registry);
  }

  method ApplyEvidence(wk: Work, e: Evidence, ghost rs: set<Op>, registry: Registry) returns (r: Result<Work>)
    requires InStep(wk, rs, registry) && ClaimsFiled(wk.records.claims)
    ensures r.Ok? <==> SetRecord(wk.records.evidence, e.id, e).Ok?
    ensures r.Ok? ==> Advanced(wk, r.value, rs, registry)
                      && r.value.records == wk.records.(evidence := wk.records.evidence[e.id := e])
    ensures r.Ok? && r.value.records == wk.records ==> r.value.marks == wk.marks
  {
    hide Advanced;
    hide InStep;
    hide ClaimsFiled;
    var inserted := InsertImmutable(wk.records.evidence, e.id, e);
    if inserted.ValueError? { return ValueError; }
    Unchanged(wk, rs, registry);
    assert e.id in wk.records.evidence ==> wk.records.evidence[e.id := e] == wk.records.evidence;
    if !inserted.value.1 { return Ok(wk); }
    var after := FileEvidence(wk, e, rs, registry);
    r := Ok(after);
  }

  lemma EvidenceAbsorbed(wk: Work, after: Work, e: Evidence, keys: set<ClaimKey>, rs: set<Op>, registry: Registry)
    requires InStep(wk, rs, registry) && ClaimsFiled(wk.records.claims) && e.id !in wk.records.evidence
    requires keys == {} + KeysOfIds(Lookup(wk.links.claimsByEvidence, e.id), wk.records.claims)
    requires after == wk.(records := wk.records.(evidence := wk.records.evidence[e.id := e]),
                          links := wk.links.(evidenceBySource := Group(SourcePairs(wk.records.evidence[e.id := e]))),
                          marks := wk.marks.(keys := wk.marks.keys + keys))
    ensures Advanced(wk, after, rs, registry)
  {
    forall id | id in wk.records.claims && wk.records.claims[id].key !in keys
      ensures SameFacts(wk.records.claims[id], FactsOf(wk.records), FactsOf(after.records))
    {
      EvidenceFacts(wk.records.claims, FactsOf(wk.records), e, wk.records.claims[id]);
    }
    FactsOnly(wk, after, rs, registry, keys);
  }

  lemma DerivationFacts(claims: map<Id, Claim>, facts: Facts, d: Derivation, c: Claim)
    requires d.id !in facts.derivations && c.id in claims && claims[c.id] == c
    requires c.key !in KeysOfIds(Lookup(Group(DerivationPairs(claims)), d.id), claims)
    ensures SameFacts(c, facts, facts.(derivations := facts.derivations[d.id := d]))
  {
    var after := facts.(derivations := facts.derivations[d.id := d]);
    var ids := Lookup(Group(DerivationPairs(claims)), d.id);
    GroupLookup(DerivationPairs(claims), d.id, c.id);
    assert c.derivationId == Some(d.id) ==> (d.id, c.id) in DerivationPairs(claims);
    assert c.id in ids ==> c.key in KeysOfIds(ids, claims);
    forall i | i in c.evidenceIds ensures HasSource(facts, i) <==> HasSource(after, i) {}
    assert SourceTypesOf(c, facts) == SourceTypesOf(c, after);
  }

  method ApplyDerivation(wk: Work, d: Derivation, ghost rs: set<Op>, registry: Registry) returns (r: Result<Work>)
    requires InStep(wk, rs, registry) && ClaimsFiled(wk.records.claims)
    ensures r.Ok? <==> SetRecord(wk.records.derivations, d.id, d).Ok?
    ensures r.Ok? ==> Advanced(wk, r.value, rs, registry)
                      && r.value.records == wk.records.(derivations := wk.records.derivations[d.id := d])
    ensures r.Ok? && r.value.records == wk.records ==> r.value.marks == wk.marks
  {
    var inserted := InsertImmutable(wk.records.derivations, d.id, d);
    if inserted.ValueError? { return ValueError; }
    Unchanged(wk, rs, registry);
    assert d.id in wk.records.derivations ==> wk.records.derivations[d.id := d] == wk.records.derivations;
    if !inserted.value.1 { return Ok(wk); }
    var keys := MarkClaimKeys(Lookup(wk.links.claimsByDerivation, d.id), wk.records.claims, {});
    var after := wk.(records := wk.records.(derivations := inserted.value.0), marks := wk.marks.(keys := wk.marks.keys + keys));
    forall id | id in wk.records.claims && wk.records.claims[id].key !in keys
      ensures SameFacts(wk.records.claims[id], FactsOf(wk.records), FactsOf(after.records))
    {
      DerivationFacts(wk.records.claims, FactsOf(wk.records), d, wk.records.claims[id]);
    }
    FactsOnly(wk, after, rs, registry, keys);
    r := Ok(after);
  }

  method ApplyDecision(wk: Work, d: Decision, ghost rs: set<Op>, registry: Registry) returns (r: Result<Work>)
    requires InStep(wk, rs, registry)
    ensures r.Ok? <==> SetRecord(wk.records.decisions, d.id, d).Ok?
    ensures r.Ok? ==> Advanced(wk, r.value, rs, registry)
                      && r.value.records == wk.records.(decisions := wk.records.decisions[d.id := d])
    ensures r.Ok? && r.value.records == wk.records ==> r.value.marks == wk.marks
  {
    hide Advanced;
    hide InStep;
    var inserted := InsertImmutable(wk.records.decisions, d.id, d);
    if inserted.ValueError? { return ValueError; }
    assert d.id in wk.records.decisions ==> wk.records.decisions[d.id := d] == wk.records.decisions;
    var after := wk.(records := wk.records.(decisions := inserted.value.0));
    DecisionFiled(wk, after, rs, registry);
    r := Ok(after);
  }

  lemma DecisionFiled(wk: Work, after: Work, rs: set<Op>, registry: Registry)
    requires InStep(wk, rs, registry) && after == wk.(records := wk.records.(decisions := after.records.decisions))
    ensures Advanced(wk, after, rs, registry)
  {
    assert wk.marks.keys + {} == wk.marks.keys;
    FactsOnly(wk, after, rs, registry, {});
  }

  // ---------------------------------------------------------------- resolutions and events

  lemma ResolutionHistory(rs: map<Id, Resolution>, r: Resolution)
    requires r.id !in rs && ResolutionsFiled(rs)
    ensures Listings(ResolutionRefPairs(rs[r.id := r]), ResolutionRank)
            == AppendSorted(Listings(ResolutionRefPairs(rs), ResolutionRank), r.conflictRef, r, ResolutionRank)
    ensures Listings(ResolutionLanePairs(rs[r.id := r]), ResolutionRank)
            == AppendSorted(Listings(ResolutionLanePairs(rs), ResolutionRank), LaneOfResolution(r), r, ResolutionRank)
  {
    assert ResolutionsFiled(rs[r.id := r]);
    ResolutionsDistinct(rs[r.id := r]);
    ResolutionStepPairs(rs, r);
    ListingsAppend(ResolutionRefPairs(rs), r.conflictRef, r, ResolutionRank);
    ListingsAppend(ResolutionLanePairs(rs), LaneOfResolution(r), r, ResolutionRank);
  }

  /** `_append_resolution_history` */
  function AppendResolution(h: Histories, r: Resolution): Histories {
    h.(resolutionsByRef := AppendSorted(h.resolutionsByRef, r.conflictRef, r, ResolutionRank),
       resolutionLanes := AppendSorted(h.resolutionLanes, LaneOfResolution(r), r, ResolutionRank))
  }

  /** Only histories changed: the claims, the facts and what is inactive are the same. */
  lemma HistoriesOnly(before: Work, after: Work, rs: set<Op>, registry: Registry, added: Marks)
    requires InStep(after, rs, registry) && after.marks == Join(before.marks, added)
    requires after.inactive == before.inactive && after.records.claims == before.records.claims
    requires FactsOf(after.records) == FactsOf(before.records)
    requires Grows(BaseOf(before), BaseOf(after))
    requires RefsCovered(before.records, after.records, added.refs)
    requires ResolutionsCovered(before.records, after.records, added.resolutions)
    ensures Advanced(before, after, rs, registry)
  {
    hide InStep;
    hide Grows;
    hide RefsCovered;
    hide ResolutionsCovered;
    assert KeysCovered(BaseOf(before), BaseOf(after), added.keys);
    assert ClaimsCovered(BaseOf(before), BaseOf(after), added.claims);
    assert Covered(BaseOf(before), BaseOf(after), added);
  }

  lemma ResolutionCovered(wk: Work, after: Work, x: Resolution)
    requires x.id !in wk.records.resolutions && after.inactive == wk.inactive
    requires after.records == wk.records.(resolutions := wk.records.resolutions[x.id := x])
    ensures Grows(BaseOf(wk), BaseOf(after)) && RefsCovered(wk.records, after.records, {x.conflictRef})
            && ResolutionsCovered(wk.records, after.records, {x.id})
  {
  }

  lemma ResolutionAbsorbed(wk: Work, after: Work, x: Resolution, rs: set<Op>, registry: Registry)
    requires InStep(after, rs, registry) && x.id !in wk.records.resolutions && after.inactive == wk.inactive
    requires after.records == wk.records.(resolutions := wk.records.resolutions[x.id := x])
    requires after.marks == wk.marks.(refs := wk.marks.refs + {x.conflictRef},
                                      resolutions := wk.marks.resolutions + {x.id})
    ensures Advanced(wk, after, rs, registry)
  {
    hide InStep;
    hide Advanced;
    ResolutionCovered(wk, after, x);
    hide Grows;
    hide RefsCovered;
    hide ResolutionsCovered;
    HistoriesOnly(wk, after, rs, registry, NO_MARKS.(refs := {x.conflictRef}, resolutions := {x.id}));
  }

  lemma ResolutionInStep(wk: Work, after: Work, x: Resolution, rs: set<Op>, registry: Registry)
    requires InStep(wk, rs, registry) && x.id !in wk.records.resolutions && ResolutionsFiled(wk.records.resolutions)
    requires after.records == wk.records.(resolutions := wk.records.resolutions[x.id := x])
    requires after.links == wk.links.(resolutionsByClaim := Group(ClassifiedPairs(after.records.resolutions)))
    requires after.histories == AppendResolution(wk.histories, x)
    requires after.retractions == wk.retractions && after.inactive == wk.inactive && after.raw == wk.raw
    ensures InStep(after, rs, registry)
  {
    ResolutionHistory(wk.records.resolutions, x);
    hide LooseBag;
    hide AppendSorted;
    hide ResolutionRefPairs;
    hide ResolutionLanePairs;
    hide ClassifiedPairs;
    hide ResolutionsFiled;
    hide Listings;
    hide Group;
    hide RefMap;
    hide InactiveIds;
    hide RetractionsOf;
    hide ActivePairs;
  }

  method LinkResolution(byClaim: map<Id, set<Id>>, x: Resolution, ghost resolutions: map<Id, Resolution>)
    returns (byClaim': map<Id, set<Id>>)
    requires byClaim == Group(ClassifiedPairs(resolutions)) && x.id !in resolutions
    ensures byClaim' == Group(ClassifiedPairs(resolutions[x.id := x]))
  {
    ClassifiedStepPairs(resolutions, x);
    byClaim' := AddToAll(byClaim, x.Classified(), x.id, ClassifiedPairs(resolutions));
  }

  /** A resolution seen for the first time. */
  method FileResolution(wk: Work, x: Resolution, ghost rs: set<Op>, registry: Registry) returns (after: Work)
    requires InStep(wk, rs, registry) && ResolutionsFiled(wk.records.resolutions) && x.id !in wk.records.resolutions
    ensures Advanced(wk, after, rs, registry)
    ensures after.records == wk.records.(resolutions := wk.records.resolutions[x.id := x])
  {
    assert wk.links.resolutionsByClaim == Group(ClassifiedPairs(wk.records.resolutions));
    hide Advanced;
    hide InStep;
    hide Grows;
    hide RefsCovered;
    hide ResolutionsCovered;
    hide AppendResolution;
    hide ResolutionsFiled;
    hide ClassifiedPairs;
    hide Group;
    var byClaim := LinkResolution(wk.links.resolutionsByClaim, x, wk.records.resolutions);
    after := wk.(records := wk.records.(resolutions := wk.records.resolutions[x.id := x]),
                 links := wk.links.(resolutionsByClaim := byClaim),
                 histories := AppendResolution(wk.histories, x),
                 marks := wk.marks.(refs := wk.marks.refs + {x.conflictRef},
                                    resolutions := wk.marks.resolutions + {x.id}));
    ResolutionInStep(wk, after, x, rs, registry);
    ResolutionAbsorbed(wk, after, x, rs, registry);
  }

  method ApplyResolution(wk: Work, x: Resolution, ghost rs: set<Op>, registry: Registry) returns (r: Result<Work>)
    requires InStep(wk, rs, registry) && ResolutionsFiled(wk.records.resolutions)
    ensures r.Ok? <==> SetRecord(wk.records.resolutions, x.id, x).Ok?
    ensures r.Ok? ==> Advanced(wk, r.value, rs, registry)
                      && r.value.records == wk.records.(resolutions := wk.records.resolutions[x.id := x])
    ensures r.Ok? && r.value.records == wk.records ==> r.value.marks == wk.marks
  {
    hide Advanced;
    hide InStep;
    hide ResolutionsFiled;
    var inserted := InsertImmutable(wk.records.resolutions, x.id, x);
    if inserted.ValueError? { return ValueError; }
    Unchanged(wk, rs, registry);
    assert x.id in wk.records.resolutions ==> wk.records.resolutions[x.id := x] == wk.records.resolutions;
    if !inserted.value.1 { return Ok(wk); }
    var after := FileResolution(wk, x, rs, registry);
    r := Ok(after);
  }

  lemma EventHistory(es: map<Id, Event>, e: Event)
    requires e.id !in es && EventsFiled(es)
    ensures Listings(EventRefPairs(es[e.id := e]), EventRank)
            == AppendSorted(Listings(EventRefPairs(es), EventRank), e.conflictRef, e, EventRank)
    ensures Listings(EventLanePairs(es[e.id := e]), EventRank)
            == AppendSorted(Listings(EventLanePairs(es), EventRank), LaneOfEvent(e), e, EventRank)
  {
    assert EventsFiled(es[e.id := e]);
    EventsDistinct(es[e.id := e]);
    EventStepPairs(es, e);
    ListingsAppend(EventRefPairs(es), e.conflictRef, e, EventRank);
    ListingsAppend(EventLanePairs(es), LaneOfEvent(e), e, EventRank);
  }

  /** `_append_lifecycle_history` */
  function AppendEvent(h: Histories, e: Event): Histories {
    h.(eventsByRef := AppendSorted(h.eventsByRef, e.conflictRef, e, EventRank),
       eventLanes := AppendSorted(h.eventLanes, LaneOfEvent(e), e, EventRank))
  }

  lemma EventCovered(a: Records, x: Event, inactive: set<Id>)
    requires x.id !in a.events
    ensures var b := a.(events := a.events[x.id := x]);
            Grows(Base(a, inactive), Base(b, inactive)) && RefsCovered(a, b, {x.conflictRef})
            && ResolutionsCovered(a, b, {})
  {
  }

  lemma EventInStep(wk: Work, after: Work, x: Event, rs: set<Op>, registry: Registry)
    requires InStep(wk, rs, registry) && x.id !in wk.records.events && EventsFiled(wk.records.events)
    requires after.records == wk.records.(events := wk.records.events[x.id := x])
    requires after.histories == AppendEvent(wk.histories, x)
    requires after.links == wk.links && after.retractions == wk.retractions && after.inactive == wk.inactive
             && after.raw == wk.raw
    ensures InStep(after, rs, registry)
  {
    EventHistory(wk.records.events, x);
    hide LooseBag;
    hide AppendSorted;
    hide EventRefPairs;
    hide EventLanePairs;
    hide EventsFiled;
    hide Listings;
    hide LinksOf;
    hide InactiveIds;
    hide RetractionsOf;
    hide ActivePairs;
  }

  method ApplyEvent(wk: Work, x: Event, ghost rs: set<Op>, registry: Registry) returns (r: Result<Work>)
    requires InStep(wk, rs, registry) && EventsFiled(wk.records.events)
    ensures r.Ok? <==> SetRecord(wk.records.events, x.id, x).Ok?
    ensures r.Ok? ==> Advanced(wk, r.value, rs, registry)
                      && r.value.records == wk.records.(events := wk.records.events[x.id := x])
    ensures r.Ok? && r.value.records == wk.records ==> r.value.marks == wk.marks
  {
    hide Advanced;
    hide InStep;
    hide Grows;
    hide RefsCovered;
    hide ResolutionsCovered;
    hide AppendResolution;
    hide AppendEvent;
    hide ResolutionsFiled;
    hide EventsFiled;
    var inserted := InsertImmutable(wk.records.events, x.id, x);
    if inserted.ValueError? { return ValueError; }
    Unchanged(wk, rs, registry);
    assert x.id in wk.records.events ==> wk.records.events[x.id := x] == wk.records.events;
    if !inserted.value.1 { return Ok(wk); }
    var after := wk.(records := wk.records.(events := inserted.value.0),
                     histories := AppendEvent(wk.histories, x),
                     marks := wk.marks.(refs := wk.marks.refs + {x.conflictRef}));
    EventInStep(wk, after, x, rs, registry);
    EventCovered(wk.records, x, wk.inactive);
    HistoriesOnly(wk, after, rs, registry, NO_MARKS.(refs := {x.conflictRef}));
    r := Ok(after);
  }
}
