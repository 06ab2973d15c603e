/** Materialization checkpoints: what is written of a state, and rebuilding the state from it. */
module Checkpoint {
  import opened Basics
  import opened Model
  import opened Lifecycle
  import opened Records
  import opened State
  import opened Tables
  import opened Materialize
  import opened Affected
  import opened Refresh
  import opened Offmarks
  import opened Incremental

  /** A finding as written: its candidates are kept by identifier only. */
  datatype SavedFinding = SavedFinding(shell: ConflictSet, candidateIds: seq<Id>)

  /** The checkpoint payload. Lists whose order the reader does not depend on are sets. */
  datatype Payload = Payload(
    sources: set<Source>, evidence: set<Evidence>, claims: set<Claim>, retractions: set<Op>,
    decisions: set<Decision>, derivations: set<Derivation>, resolutions: set<Resolution>, events: set<Event>,
    conflicts: set<SavedFinding>, inactive: set<Id>, inapplicable: set<Id>)

  function CandidateIdList(cs: seq<Claim>): seq<Id> { seq(|cs|, i requires 0 <= i < |cs| => cs[i].id) }

  function Saved(c: ConflictSet): SavedFinding { SavedFinding(c.(candidates := []), CandidateIdList(c.candidates)) }

  function AllListed<K>(m: map<K, seq<Op>>): set<Op> { set k, op | k in m && op in m[k] :: op }

  /** `memory_state_to_checkpoint`: only records, retractions and findings are written; every index
      and every fold is left out. */
  function MemoryStateToCheckpoint(s: MemoryState): Payload {
    Payload(
      s.records.sources.Values, s.records.evidence.Values, s.records.claims.Values,
      AllListed(s.retractions.byTarget) + AllListed(s.retractions.byTargetRef)
      + AllListed(s.retractions.bySuperseder) + AllListed(s.retractions.bySupersederRef),
      s.records.decisions.Values, s.records.derivations.Values, s.records.resolutions.Values, s.records.events.Values,
      set id | id in s.findings.byId :: Saved(s.findings.byId[id]), s.activity.inactive, s.activity.inapplicable)
  }

  // ---------------------------------------------------------------- records

  /** `{id(item): item for item in items}` */
  method DictOf<T(==, !new)>(s: set<T>, id: T -> Id) returns (m: map<Id, T>)
    requires Injective(s, id)
    ensures m == ById(s, id)
  {
    m := map[];
    var todo := s;
    while todo != {}
      invariant todo <= s
      invariant m == ById(s - todo, id)
      decreases |todo|
    {
      var _ := Inhabited(todo);
      var x :| x in todo;
      assert s - (todo - {x}) == (s - todo) + {x};
      ByIdAdd(s - todo, id, x);
      m := m[id(x) := x];
      todo := todo - {x};
    }
    assert s - todo == s;
  }

  lemma ValuesOfById<T(!new)>(s: set<T>, id: T -> Id)
    requires Injective(s, id)
    ensures ById(s, id).Values == s
  {
    var m := ById(s, id);
    forall x ensures x in m.Values <==> x in s {
      if x in s { ByIdLookup(s, id, x); }
      if x in m.Values {
        var k :| k in m && m[k] == x;
        ByIdValues(s, id, k);
      }
    }
  }

  lemma RecordValues(log: set<Op>)
    requires CollisionFree(log)
    ensures var r := RecordsOf(log);
            r.sources.Values == SourcesIn(log) && r.evidence.Values == EvidenceIn(log) && r.claims.Values == ClaimsIn(log)
            && r.decisions.Values == DecisionsIn(log) && r.derivations.Values == DerivationsIn(log)
            && r.resolutions.Values == ResolutionsIn(log) && r.events.Values == EventsIn(log)
  {
    ValuesOfById(SourcesIn(log), SourceId);
    ValuesOfById(EvidenceIn(log), EvidenceId);
    ValuesOfById(ClaimsIn(log), ClaimId);
    ValuesOfById(DecisionsIn(log), DecisionId);
    ValuesOfById(DerivationsIn(log), DerivationId);
    ValuesOfById(ResolutionsIn(log), ResolutionId);
    ValuesOfById(EventsIn(log), EventId);
  }

  method RestoreRecords(p: Payload, ghost log: set<Op>) returns (r: Records)
    requires CollisionFree(log)
    requires p.sources == SourcesIn(log) && p.evidence == EvidenceIn(log) && p.claims == ClaimsIn(log)
    requires p.decisions == DecisionsIn(log) && p.derivations == DerivationsIn(log)
    requires p.resolutions == ResolutionsIn(log) && p.events == EventsIn(log)
    ensures r == RecordsOf(log)
  {
    hide Injective;
    hide ById;
    hide SourcesIn;
    hide EvidenceIn;
    hide ClaimsIn;
    hide DecisionsIn;
    hide DerivationsIn;
    hide ResolutionsIn;
    hide EventsIn;
    var sources := DictOf(p.sources, SourceId);
    var evidence := DictOf(p.evidence, EvidenceId);
    var claims := DictOf(p.claims, ClaimId);
    var decisions := DictOf(p.decisions, DecisionId);
    var derivations := DictOf(p.derivations, DerivationId);
    var resolutions := DictOf(p.resolutions, ResolutionId);
    var events := DictOf(p.events, EventId);
    r := Records(sources, evidence, claims, decisions, derivations, resolutions, events);
  }

  // ---------------------------------------------------------------- retractions

  /** The retractions that name something: the others leave no trace in any table. */
  ghost function Naming(rs: set<Op>): set<Op> {
    set op | op in rs && op.ClaimRetracted?
             && (op.target.Some? || op.targetRef.Some? || op.superseder.Some? || op.supersederRef.Some?)
  }

  lemma AllListedMembers<K(!new)>(pairs: set<(K, Op)>)
    requires Distinct(Seconds(pairs), RetractionRank)
    ensures AllListed(Listings(pairs, RetractionRank)) == Seconds(pairs)
  {
    var m := Listings(pairs, RetractionRank);
    forall op ensures op in AllListed(m) <==> op in Seconds(pairs) {
      if op in Seconds(pairs) {
        var p :| p in pairs && p.1 == op;
        ListedIn(pairs, p.0);
        ImageMember(pairs, p.0, op);
        assert p == (p.0, op);
        assert p.0 in m && op in m[p.0];
      }
      if op in AllListed(m) {
        var k :| k in m && op in m[k];
        ListedIn(pairs, k);
        ImageMember(pairs, k, op);
        assert (k, op).1 in Seconds(pairs);
      }
    }
  }

  lemma ListedIn<K(!new)>(pairs: set<(K, Op)>, k: K)
    requires Distinct(Seconds(pairs), RetractionRank) && k in Firsts(pairs)
    ensures forall op :: op in Listings(pairs, RetractionRank)[k] <==> op in Image(pairs, k)
  {
    ImageDistinct(pairs, k, RetractionRank);
    ListingProperties(Image(pairs, k), RetractionRank);
    forall op ensures op in Listings(pairs, RetractionRank)[k] <==> op in Image(pairs, k) {
      assert op in Listings(pairs, RetractionRank)[k] <==> op in Elements(Listings(pairs, RetractionRank)[k]);
    }
  }

  lemma NamedSeconds(rs: set<Op>)
    requires forall op :: op in rs ==> op.ClaimRetracted?
    ensures Seconds(TargetPairs(rs)) + Seconds(TargetRefPairs(rs)) + Seconds(SupersederPairs(rs))
            + Seconds(SupersederRefPairs(rs)) == Naming(rs)
  {
    forall op | op in Naming(rs)
      ensures op in Seconds(TargetPairs(rs)) + Seconds(TargetRefPairs(rs)) + Seconds(SupersederPairs(rs))
                    + Seconds(SupersederRefPairs(rs))
    {
      if op.target.Some? { assert (op.target.value, op) in TargetPairs(rs) && (op.target.value, op).1 == op; }
      if op.targetRef.Some? { assert (op.targetRef.value, op) in TargetRefPairs(rs) && (op.targetRef.value, op).1 == op; }
      if op.superseder.Some? { assert (op.superseder.value, op) in SupersederPairs(rs) && (op.superseder.value, op).1 == op; }
      if op.supersederRef.Some? {
        assert (op.supersederRef.value, op) in SupersederRefPairs(rs) && (op.supersederRef.value, op).1 == op;
      }
    }
  }

  lemma SavedRetractions(rs: set<Op>)
    requires UniqueOps(rs) && forall op :: op in rs ==> op.ClaimRetracted?
    ensures var r := RetractionsOf(rs);
            AllListed(r.byTarget) + AllListed(r.byTargetRef) + AllListed(r.bySuperseder) + AllListed(r.bySupersederRef) == Naming(rs)
    ensures RetractionsOf(Naming(rs)) == RetractionsOf(rs)
  {
    RetractionsDistinct(rs);
    AllListedMembers(TargetPairs(rs));
    AllListedMembers(TargetRefPairs(rs));
    AllListedMembers(SupersederPairs(rs));
    AllListedMembers(SupersederRefPairs(rs));
    NamedSeconds(rs);
    assert TargetPairs(Naming(rs)) == TargetPairs(rs);
    assert TargetRefPairs(Naming(rs)) == TargetRefPairs(rs);
    assert SupersederPairs(Naming(rs)) == SupersederPairs(rs);
    assert SupersederRefPairs(Naming(rs)) == SupersederRefPairs(rs);
  }

  /** The grouping loop and the sorts after it. */
  method RestoreRetractions(items: set<Op>) returns (r: Retractions)
    requires UniqueOps(items) && forall op :: op in items ==> op.ClaimRetracted?
    ensures r == RetractionsOf(items)
  {
    var raw := Retractions(map[], map[], map[], map[]);
    var todo := items;
    ghost var done: set<Op> := {};
    NothingRaw();
    hide RawRetractions;
    hide AppendRetraction;
    while todo != {}
      invariant done + todo == items && done * todo == {}
      invariant RawRetractions(raw, done)
      decreases |todo|
    {
      var _ := Inhabited(todo);
      var op :| op in todo;
      AppendRetractionRaw(raw, done, op);
      raw := AppendRetraction(raw, op);
      done, todo := done + {op}, todo - {op};
    }
    assert done == items;
    SortedRetractions(raw, items);
    r := Retractions(SortAll(raw.byTarget, RetractionRank), SortAll(raw.byTargetRef, RetractionRank),
                     SortAll(raw.bySuperseder, RetractionRank), SortAll(raw.bySupersederRef, RetractionRank));
  }

  lemma NothingRaw()
    ensures RawRetractions(Retractions(map[], map[], map[], map[]), {})
  {
    EmptyRelation<Id, Op>(RetractionRank);
    EmptyRelation<ClaimRef, Op>(RetractionRank);
    assert TargetPairs({}) == {} && TargetRefPairs({}) == {} && SupersederPairs({}) == {} && SupersederRefPairs({}) == {};
  }

  // ---------------------------------------------------------------- references and active claims

  method RestoreRefs(claims: map<Id, Claim>, registry: Registry) returns (claimRefs: map<Id, ClaimRef>, idsByRef: map<ClaimRef, set<Id>>)
    requires ClaimsFiled(claims)
    ensures claimRefs == RefMap(claims, registry) && idsByRef == Group(RefPairs(claims, registry))
  {
    claimRefs := map id | id in claims :: registry.ClaimRefFor(claims[id]);
    idsByRef := map[];
    var todo := claims.Keys;
    VisitEnds(claims);
    EmptyRelation<ClaimRef, Id>(IdRank);
    assert RefPairs(map[], registry) == {};
    hide RefPairs;
    hide RefMap;
    hide Group;
    while todo != {}
      invariant todo <= claims.Keys
      invariant idsByRef == Group(RefPairs(claims - todo, registry))
      decreases |todo|
    {
      var _ := Inhabited(todo);
      var id :| id in todo;
      RefStep(claims - todo, claims[id], registry);
      Visit(claims, todo, id);
      idsByRef := AddTo(idsByRef, registry.ClaimRefFor(claims[id]), id);
      todo := todo - {id};
    }
  }

  /** Claims neither inactive nor inapplicable, grouped by key and sorted. */
  method RestoreActive(claims: map<Id, Claim>, inactive: set<Id>, inapplicable: set<Id>) returns (byKey: map<ClaimKey, seq<Claim>>)
    requires ClaimsFiled(claims) && inapplicable == {}
    ensures byKey == ActivityOf(claims, inactive, UNSCOPED).byKey
  {
    var raw: map<ClaimKey, seq<Claim>> := map[];
    var todo := claims.Keys;
    VisitEnds(claims);
    EmptyRelation<ClaimKey, Claim>(ClaimRank);
    assert ActivePairs(map[], inactive, UNSCOPED) == {};
    hide Bag;
    hide ActivePairs;
    while todo != {}
      invariant todo <= claims.Keys
      invariant Bag(raw, ActivePairs(claims - todo, inactive, UNSCOPED))
      decreases |todo|
    {
      var _ := Inhabited(todo);
      var id :| id in todo;
      raw := RestorePlace(raw, claims[id], inactive, inapplicable, claims - todo);
      Visit(claims, todo, id);
      todo := todo - {id};
    }
    ActiveDistinct(claims, inactive, UNSCOPED);
    BagSorted(raw, ActivePairs(claims, inactive, UNSCOPED), ClaimRank);
    byKey := SortAll(raw, ClaimRank);
  }

  method RestorePlace(raw: map<ClaimKey, seq<Claim>>, c: Claim, inactive: set<Id>, inapplicable: set<Id>, ghost claims: map<Id, Claim>)
    returns (raw': map<ClaimKey, seq<Claim>>)
    requires c.id !in claims && ClaimsFiled(claims) && inapplicable == {}
    requires Bag(raw, ActivePairs(claims, inactive, UNSCOPED))
    ensures Bag(raw', ActivePairs(claims[c.id := c], inactive, UNSCOPED))
  {
    ActiveStep(claims, c, inactive, UNSCOPED);
    AlwaysApplies(c);
    hide ActivePairs;
    hide Bag;
    if c.id !in inactive + inapplicable {
      BagAppend(raw, ActivePairs(claims, inactive, UNSCOPED), c.key, c);
      raw' := Append(raw, c.key, c);
    } else {
      assert ActivePairs(claims, inactive, UNSCOPED) + {} == ActivePairs(claims, inactive, UNSCOPED);
      raw' := raw;
    }
  }

  // ---------------------------------------------------------------- findings

  /** `tuple(claims_by_id[id] for id in candidate_ids)`: a missing claim raises. */
  function LoadCandidates(ids: seq<Id>, claims: map<Id, Claim>): Result<seq<Claim>> {
    if ids == [] then Ok([])
    else
      var front := LoadCandidates(ids[..|ids| - 1], claims);
      if front.ValueError? || ids[|ids| - 1] !in claims then ValueError
      else Ok(front.value + [claims[ids[|ids| - 1]]])
  }

  function LoadFinding(f: SavedFinding, claims: map<Id, Claim>): Result<ConflictSet> {
    var candidates := LoadCandidates(f.candidateIds, claims);
    if candidates.ValueError? then ValueError else Ok(f.shell.(candidates := candidates.value))
  }

  lemma {:induction false} CandidatesLoad(cs: seq<Claim>, claims: map<Id, Claim>)
    requires forall i :: 0 <= i < |cs| ==> cs[i].id in claims && claims[cs[i].id] == cs[i]
    ensures LoadCandidates(CandidateIdList(cs), claims) == Ok(cs)
  {
    if cs != [] {
      CandidatesLoad(cs[..|cs| - 1], claims);
      assert CandidateIdList(cs)[..|cs| - 1] == CandidateIdList(cs[..|cs| - 1]);
      assert cs == cs[..|cs| - 1] + [cs[|cs| - 1]];
    }
  }

  /** Writing a finding and reading it back, with its candidates among the restored claims. */
  lemma FindingRoundTrip(c: ConflictSet, claims: map<Id, Claim>)
    requires forall x :: x in c.candidates ==> x.id in claims && claims[x.id] == x
    ensures LoadFinding(Saved(c), claims) == Ok(c)
  {
    forall i | 0 <= i < |c.candidates| ensures c.candidates[i].id in claims && claims[c.candidates[i].id] == c.candidates[i] {
      assert c.candidates[i] in c.candidates;
    }
    CandidatesLoad(c.candidates, claims);
  }

  ghost predicate Loadable(cs: set<ConflictSet>, claims: map<Id, Claim>) {
    forall c :: c in cs ==> LoadFinding(Saved(c), claims) == Ok(c)
  }

  method RestoreFindings(saved: set<SavedFinding>, claims: map<Id, Claim>, ghost cs: set<ConflictSet>)
    returns (r: Result<map<ConflictId, ConflictSet>>)
    requires saved == set c | c in cs :: Saved(c)
    requires Loadable(cs, claims) && Injective(cs, ConflictIdOf)
    ensures r == Ok(ById(cs, ConflictIdOf))
  {
    var byId: map<ConflictId, ConflictSet> := map[];
    var todo := saved;
    ghost var seen: set<ConflictSet> := {};
    while todo != {}
      invariant todo <= saved && seen <= cs
      invariant forall c :: c in cs ==> (Saved(c) in todo <==> c !in seen)
      invariant byId == ById(seen, ConflictIdOf)
      decreases |todo|
    {
      var _ := Inhabited(todo);
      var f :| f in todo;
      ghost var c := SavedIn(cs, f, claims);
      var loaded := LoadFinding(f, claims);
      if loaded.ValueError? { return ValueError; }
      assert loaded.value == c;
      ByIdAdd(seen, ConflictIdOf, c);
      byId := byId[loaded.value.id := loaded.value];
      SavedOnce(cs, c, claims);
      todo, seen := todo - {f}, seen + {c};
    }
    assert seen == cs;
    r := Ok(byId);
  }

  lemma SavedIn(cs: set<ConflictSet>, f: SavedFinding, claims: map<Id, Claim>) returns (c: ConflictSet)
    requires f in (set x | x in cs :: Saved(x)) && Loadable(cs, claims)
    ensures c in cs && Saved(c) == f && LoadFinding(f, claims) == Ok(c)
  {
    c :| c in cs && Saved(c) == f;
  }

  lemma SavedOnce(cs: set<ConflictSet>, c: ConflictSet, claims: map<Id, Claim>)
    requires c in cs && Loadable(cs, claims)
    ensures forall d :: d in cs && Saved(d) == Saved(c) ==> d == c
  {
    forall d | d in cs && Saved(d) == Saved(c) ensures d == c {
      assert LoadFinding(Saved(d), claims) == Ok(d);
    }
  }

  // ---------------------------------------------------------------- the whole state

  lemma FindingsLoadable(state: MemoryState, registry: Registry)
    requires WellFiled(state.records) && state.findings == TablesOf(FindingsIn(state, registry))
    ensures var cs := FindingsIn(state, registry);
            Loadable(cs, state.records.claims) && OnePerKey(cs)
            && (set id | id in state.findings.byId :: Saved(state.findings.byId[id])) == (set c | c in cs :: Saved(c))
  {
    var cs, side := FindingsIn(state, registry), SideOf(BaseOfState(state));
    ActivityLists(state.records.claims, state.activity.inactive, UNSCOPED);
    ActivityListed(state.records.claims, state.activity.inactive, UNSCOPED);
    SideOnePerKey(side, registry, ClaimKey("", "", ""));
    FindingsInjective(side.byKey, side.byKey.Keys, side.facts, registry);
    forall c | c in cs ensures LoadFinding(Saved(c), state.records.claims) == Ok(c) {
      FindingAtIdentity(side.byKey, c.key, side.facts, registry);
      assert AllIn(side.byKey[c.key], state.records.claims);
      FindingRoundTrip(c, state.records.claims);
    }
    SavedValues(cs);
  }

  lemma SavedValues(cs: set<ConflictSet>)
    requires OnePerKey(cs)
    ensures var m := ById(cs, ConflictIdOf); (set id | id in m :: Saved(m[id])) == (set c | c in cs :: Saved(c))
  {
    var m := ById(cs, ConflictIdOf);
    OnePerKeyInjective(cs);
    ValuesOfFindings(cs);
    var a, b := set id | id in m :: Saved(m[id]), set c | c in cs :: Saved(c);
    forall f ensures f in a <==> f in b {
      if f in a {
        var id :| id in m && Saved(m[id]) == f;
        assert m[id] in m.Values;
      }
      if f in b {
        var c :| c in cs && Saved(c) == f;
        ByIdLookup(cs, ConflictIdOf, c);
        assert c.id in m && Saved(m[c.id]) == f;
      }
    }
  }

  lemma ValuesOfFindings(cs: set<ConflictSet>)
    requires Injective(cs, ConflictIdOf)
    ensures ById(cs, ConflictIdOf).Values <= cs
  {
    forall c | c in ById(cs, ConflictIdOf).Values ensures c in cs {
      var id :| id in ById(cs, ConflictIdOf) && ById(cs, ConflictIdOf)[id] == c;
      ByIdValues(cs, ConflictIdOf, id);
    }
  }

  /** What the payload of a reached state holds. */
  lemma PayloadOf(p: Payload, state: MemoryState, log: set<Op>, registry: Registry)
    requires Reached(state, log, registry) && UniqueOps(log) && p == MemoryStateToCheckpoint(state)
    ensures p.sources == SourcesIn(log) && p.evidence == EvidenceIn(log) && p.claims == ClaimsIn(log)
    ensures p.decisions == DecisionsIn(log) && p.derivations == DerivationsIn(log)
    ensures p.resolutions == ResolutionsIn(log) && p.events == EventsIn(log)
    ensures p.retractions == Naming(RetractionsIn(log)) && UniqueOps(p.retractions)
    ensures RetractionsOf(p.retractions) == state.retractions
    ensures p.conflicts == (set c | c in FindingsIn(state, registry) :: Saved(c))
    ensures p.inactive == state.activity.inactive && p.inapplicable == {} == state.activity.inapplicable
  {
    RecordValues(log);
    assert RetractionsIn(log) <= log;
    SavedRetractions(RetractionsIn(log));
    assert Naming(RetractionsIn(log)) <= log;
    ReachedParts(state, log, registry);
    FindingsLoadable(state, registry);
    hide Naming;
    hide RetractionsOf;
    hide RecordsOf;
    hide TablesOf;
    hide FindingSet;
    hide FoldOf;
    hide InapplicableIds;
    hide CollisionFree;
    hide Loadable;
    hide OnePerKey;
  }

  /** What is read back: records, retractions, inactive claims and findings as written, every index,
      history and fold rebuilt under the rules in use now. */
  ghost function ReadBack(r: Records, retractions: Retractions, inactive: set<Id>, cs: set<ConflictSet>, registry: Registry)
    : MemoryState
  {
    var byKey, t := SideOf(Base(r, inactive)).byKey, TablesOf(cs);
    MemoryState(r, LinksOf(r, registry), retractions, Activity(inactive, {}, byKey), HistoriesOf(r), t,
                RebuiltIndexes(byKey, t, registry), FoldOf(FoldInputs(r, HistoriesOf(r), t.byRef, None)))
  }

  /** Rebuilds every index, history and fold from the records of a payload. */
  method RestoreTables(r: Records, retractions: Retractions, inactive: set<Id>, inapplicable: set<Id>,
                       byId: map<ConflictId, ConflictSet>, registry: Registry, ghost cs: set<ConflictSet>)
    returns (state: MemoryState)
    requires WellFiled(r) && inapplicable == {} && OnePerKey(cs) && byId == ById(cs, ConflictIdOf)
    ensures state == ReadBack(r, retractions, inactive, cs, registry)
  {
    OnePerKeyInjective(cs);
    hide OnePerKey;
    hide RefPairs;
    hide RefMap;
    hide Group;
    var claimRefs, idsByRef := RestoreRefs(r.claims, registry);
    var byKey := RestoreActive(r.claims, inactive, inapplicable);
    hide ActivityOf;
    var findings := TabulateFindings(byId, cs);
    hide TablesOf;
    hide Injective;
    var indexes := BuildIndexes(byKey, findings, registry);
    hide RebuiltIndexes;
    var links := BuildLinks(Gathered(r, claimRefs, idsByRef, retractions), registry);
    var histories := BuildHistories(r);
    hide LinksOf;
    hide HistoriesOf;
    hide FoldOf;
    var lifecycle := FoldLifecycle(FoldInputs(r, histories, findings.byRef, None));
    state := MemoryState(r, links, retractions, Activity(inactive, inapplicable, byKey), histories, findings, indexes, lifecycle);
  }

  /** The state written, read back under given rules. */
  ghost function Reread(state: MemoryState, written: Registry, registry: Registry): MemoryState {
    ReadBack(state.records, state.retractions, state.activity.inactive, FindingsIn(state, written), registry)
  }

  /** Under the rules it was written under, a state is read back whole. */
  lemma RereadUnchanged(state: MemoryState, log: set<Op>, registry: Registry)
    requires Reached(state, log, registry)
    ensures Reread(state, registry, registry) == state
  {
    ReachedParts(state, log, registry);
    var side := SideOf(BaseOfState(state));
    ActivityLists(state.records.claims, state.activity.inactive, UNSCOPED);
    RebuiltIndexesExact(side.byKey, side.facts, registry);
    RereadFields(state, log, registry);
    hide Reached;
    hide RecordsOf;
    hide ActivityOf;
    hide IndexesOf;
    hide RebuiltIndexes;
    hide FoldOf;
    hide LinksOf;
    hide HistoriesOf;
    hide RetractionsOf;
    hide FindingSet;
    hide WellFiled;
    hide TablesOf;
  }

  lemma RereadFields(state: MemoryState, log: set<Op>, registry: Registry)
    requires Reached(state, log, registry)
    ensures state.links == LinksOf(state.records, registry) && state.histories == HistoriesOf(state.records)
  {
    hide RecordsOf;
    hide ActivityOf;
    hide IndexesOf;
    hide FoldOf;
    hide LinksOf;
    hide HistoriesOf;
    hide RetractionsOf;
    hide FindingSet;
    hide CollisionFree;
    hide TablesOf;
  }

  /** Whatever the rules, writing what was read back gives the same checkpoint. */
  lemma RereadSaved(state: MemoryState, log: set<Op>, written: Registry, registry: Registry)
    requires Reached(state, log, written)
    ensures MemoryStateToCheckpoint(Reread(state, written, registry)) == MemoryStateToCheckpoint(state)
    ensures Reread(state, written, registry).findings == state.findings
  {
    ReachedParts(state, log, written);
    hide Reached;
    hide WellFiled;
    hide FindingSet;
    hide TablesOf;
    hide FoldOf;
    hide HistoriesOf;
    hide LinksOf;
    hide RebuiltIndexes;
    hide ActivityOf;
  }

  // ---------------------------------------------------------------- a change of rules

  /** Two sets of rules under which the operations have the same checkpoint: the same claims are
      active and the same findings stand. */
  ghost predicate SameCheckpoint(log: set<Op>, a: Registry, b: Registry) {
    MemoryStateToCheckpoint(StateOf(log, a, UNSCOPED)) == MemoryStateToCheckpoint(StateOf(log, b, UNSCOPED))
  }

  lemma SavedDetermines(cs: set<ConflictSet>, ds: set<ConflictSet>, claims: map<Id, Claim>)
    requires Loadable(cs, claims) && Loadable(ds, claims)
    requires (set c | c in cs :: Saved(c)) == (set c | c in ds :: Saved(c))
    ensures cs == ds
  {
    SavedIncluded(cs, ds, claims);
    SavedIncluded(ds, cs, claims);
  }

  lemma SavedIncluded(cs: set<ConflictSet>, ds: set<ConflictSet>, claims: map<Id, Claim>)
    requires Loadable(cs, claims) && Loadable(ds, claims)
    requires (set c | c in cs :: Saved(c)) == (set c | c in ds :: Saved(c))
    ensures cs <= ds
  {
    var saved := set x | x in ds :: Saved(x);
    forall c | c in cs ensures c in ds {
      assert Saved(c) in saved;
      var d := SavedIn(ds, Saved(c), claims);
      assert LoadFinding(Saved(c), claims) == Ok(c);
    }
  }

  lemma StateRecordsOf(log: set<Op>, registry: Registry)
    ensures StateOf(log, registry, UNSCOPED).records == RecordsOf(log)
    ensures StateOf(log, registry, UNSCOPED).retractions == RetractionsOf(RetractionsIn(log))
  {
    hide RecordsOf;
    hide RetractionsOf;
  }

  /** Equal checkpoints mean equal active claims and findings. */
  lemma SameCheckpointParts(log: set<Op>, a: Registry, b: Registry)
    requires CollisionFree(log) && UniqueOps(log)
    ensures var s, t := StateOf(log, a, UNSCOPED), StateOf(log, b, UNSCOPED);
            SameCheckpoint(log, a, b) <==>
              s.activity.inactive == t.activity.inactive && FindingsIn(s, a) == FindingsIn(t, b)
  {
    var s, t := StateOf(log, a, UNSCOPED), StateOf(log, b, UNSCOPED);
    assert Reached(s, log, a) && Reached(t, log, b);
    StateRecordsOf(log, a);
    StateRecordsOf(log, b);
    PayloadOf(MemoryStateToCheckpoint(s), s, log, a);
    PayloadOf(MemoryStateToCheckpoint(t), t, log, b);
    ReachedParts(s, log, a);
    ReachedParts(t, log, b);
    FindingsLoadable(s, a);
    FindingsLoadable(t, b);
    hide StateOf;
    hide Reached;
    hide CollisionFree;
    hide UniqueOps;
    hide RecordsOf;
    hide FindingSet;
    hide TablesOf;
    hide Loadable;
    hide OnePerKey;
    hide WellFiled;
    hide MemoryStateToCheckpoint;
    hide Naming;
    hide RetractionsOf;
    hide FoldOf;
    if SameCheckpoint(log, a, b) {
      SavedDetermines(FindingsIn(s, a), FindingsIn(t, b), s.records.claims);
    }
  }

  /** Reading a checkpoint back under other rules gives the state those rules denote exactly when
      they would have written the same checkpoint. */
  lemma RestoreCoherent(log: set<Op>, written: Registry, current: Registry)
    requires CollisionFree(log) && UniqueOps(log)
    ensures Reread(StateOf(log, written, UNSCOPED), written, current) == StateOf(log, current, UNSCOPED)
            <==> SameCheckpoint(log, written, current)
  {
    var s, t := StateOf(log, written, UNSCOPED), StateOf(log, current, UNSCOPED);
    assert Reached(s, log, written) && Reached(t, log, current);
    RereadSaved(s, log, written, current);
    StateRecordsOf(log, written);
    StateRecordsOf(log, current);
    SameCheckpointParts(log, written, current);
    RereadUnchanged(t, log, current);
    hide StateOf;
    hide Reached;
    hide CollisionFree;
    hide UniqueOps;
    hide RecordsOf;
    hide ReadBack;
    hide FindingsIn;
    hide MemoryStateToCheckpoint;
  }

  /** `memory_state_from_checkpoint`: reading back the checkpoint of a reached state restores every
      table, history and fold, and each index from its stored finding alone, exactly when the rules
      in use now would have written the same checkpoint: always under the rules it was written
      under. Findings come back as they were written, whatever the rules. */
  method MemoryStateFromCheckpoint(p: Payload, registry: Registry, ghost log: set<Op>, ghost written: Registry)
    returns (r: Result<MemoryState>)
    requires CollisionFree(log) && UniqueOps(log) && p == MemoryStateToCheckpoint(StateOf(log, written, UNSCOPED))
    ensures r.Ok? && MemoryStateToCheckpoint(r.value) == p
    ensures r.value == StateOf(log, registry, UNSCOPED) <==> SameCheckpoint(log, written, registry)
    ensures r.value.findings == StateOf(log, written, UNSCOPED).findings
  {
    ghost var state := StateOf(log, written, UNSCOPED);
    ReachedHere(log, written);
    RereadSaved(state, log, written, registry);
    RestoreCoherent(log, written, registry);
    hide StateOf;
    hide SameCheckpoint;
    r := ReadPayload(p, registry, state, log, written);
  }

  lemma ReachedHere(log: set<Op>, registry: Registry)
    requires CollisionFree(log)
    ensures Reached(StateOf(log, registry, UNSCOPED), log, registry)
  {
    hide StateOf;
    hide CollisionFree;
  }

  method ReadPayload(p: Payload, registry: Registry, ghost state: MemoryState, ghost log: set<Op>, ghost written: Registry)
    returns (r: Result<MemoryState>)
    requires Reached(state, log, written) && UniqueOps(log) && p == MemoryStateToCheckpoint(state)
    ensures r == Ok(Reread(state, written, registry))
  {
    PayloadOf(p, state, log, written);
    ReachedParts(state, log, written);
    FindingsLoadable(state, written);
    ReachedRecords(state, log, written);
    assert forall op :: op in p.retractions ==> op.ClaimRetracted?;
    OnePerKeyInjective(FindingsIn(state, written));
    hide MemoryStateToCheckpoint;
    hide Reached;
    hide RecordsOf;
    hide TablesOf;
    hide FoldOf;
    hide LinksOf;
    hide HistoriesOf;
    hide RetractionsOf;
    hide FindingSet;
    hide ActivityOf;
    hide Loadable;
    hide OnePerKey;
    hide Injective;
    hide WellFiled;
    hide UniqueOps;
    hide Naming;
    hide ReadBack;
    var records := RestoreRecords(p, log);
    var byId := RestoreFindings(p.conflicts, records.claims, FindingsIn(state, written));
    if byId.ValueError? { return ValueError; }
    var retractions := RestoreRetractions(p.retractions);
    var restored := RestoreTables(records, retractions, p.inactive, p.inapplicable, byId.value, registry, FindingsIn(state, written));
    r := Ok(restored);
  }

  lemma ReachedRecords(state: MemoryState, log: set<Op>, registry: Registry)
    requires Reached(state, log, registry)
    ensures state.records == RecordsOf(log) && CollisionFree(log)
  {
    hide RecordsOf;
    hide CollisionFree;
  }
}
