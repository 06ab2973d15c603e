/** The compacted log against the original: alone, and after merging both with the same operations. */
module Equivalence {
  import opened Basics
  import opened Model
  import opened ConflictIndex
  import opened Findings
  import opened Lifecycle
  import opened Records
  import opened State
  import opened Tables
  import opened Affected
  import opened Refresh
  import opened Offmarks
  import opened View
  import opened Scopes
  import opened Compaction

  // ---------------------------------------------------------------- the compacted log alone

  /** All evidence an active claim cites is kept, so findings keep their labels too. */
  lemma EvidenceKept(log: set<Op>, registry: Registry, id: Id, e: Id)
    requires CollisionFree(log) && IsLive(log, registry, id) && e in RecordsOf(log).claims[id].evidenceIds
    ensures var a, b := RecordsOf(Compacted(log, registry)).evidence, RecordsOf(log).evidence;
            (e in a <==> e in b) && (e in a ==> a[e] == b[e])
  {
    var small := Compacted(log, registry);
    CollisionFreeSubset(small, log);
    ByIdEntry(EvidenceIn(small), EvidenceId, e);
    ByIdEntry(EvidenceIn(log), EvidenceId, e);
    assert EvidenceIn(small) <= EvidenceIn(log);
    if e in RecordsOf(log).evidence {
      var x := RecordsOf(log).evidence[e];
      var op :| op in log && op.EvidenceAdded? && op.evidence == x;
      assert CitedByClaim(log, registry, e);
      assert IsNeeded(log, registry, e);
      assert Keeps(log, registry, op);
      assert x in EvidenceIn(small) && EvidenceId(x) == e;
    }
  }

  lemma FactsKept(log: set<Op>, registry: Registry, c: Claim)
    requires CollisionFree(log) && IsLive(log, registry, c.id) && RecordsOf(log).claims[c.id] == c
    ensures SameFacts(c, FactsOf(RecordsOf(Compacted(log, registry))), FactsOf(RecordsOf(log)))
  {
    var a, b := FactsOf(RecordsOf(Compacted(log, registry))), FactsOf(RecordsOf(log));
    CompactedIsThinned(log, registry);
    RecordsKept(Compacted(log, registry), log, registry);
    hide Thinned;
    hide Compacted;
    hide IsLive;
    hide RecordsOf;
    forall e | e in c.evidenceIds ensures (e in a.evidence <==> e in b.evidence) && (e in a.evidence ==> a.evidence[e] == b.evidence[e]) {
      EvidenceKept(log, registry, c.id, e);
    }
    SameSources(c, a, b);
  }

  lemma SameSources(c: Claim, a: Facts, b: Facts)
    requires a.sources == b.sources && a.derivations == b.derivations
    requires forall e :: e in c.evidenceIds ==> (e in a.evidence <==> e in b.evidence) && (e in a.evidence ==> a.evidence[e] == b.evidence[e])
    ensures SameFacts(c, a, b)
  {
    forall e | e in c.evidenceIds ensures HasSource(a, e) <==> HasSource(b, e) {}
    assert SourceTypesOf(c, a) == SourceTypesOf(c, b);
  }

  lemma SameFinding(log: set<Op>, registry: Registry, w: Window, key: ClaimKey)
    requires CollisionFree(log)
    ensures var byKey := StateOf(log, registry, w).activity.byKey;
            FindingAt(byKey, key, FactsOf(RecordsOf(Compacted(log, registry))), registry)
            == FindingAt(byKey, key, FactsOf(RecordsOf(log)), registry)
  {
    var claims, inactive := RecordsOf(log).claims, InactiveIds(RecordsOf(log).claims, RetractionsIn(log), registry);
    RecordsWellFiled(log);
    ActivityOfState(log, registry, w);
    var listed := ClaimsAt(StateOf(log, registry, w).activity.byKey, key);
    ClaimsAtKey(claims, inactive, w, key);
    ByClaimIdProperties(listed);
    var byId := ByClaimId(listed);
    forall id | id in byId
      ensures byId[id].id == id && byId[id].key == key
              && SameFacts(byId[id], FactsOf(RecordsOf(Compacted(log, registry))), FactsOf(RecordsOf(log)))
    {
      ListedClaim(claims, inactive, w, key, byId[id]);
      FactsKept(log, registry, byId[id]);
    }
    hide RecordsOf;
    hide StateOf;
    hide CollisionFree;
    hide Compacted;
    FindingFrame(key, byId, FactsOf(RecordsOf(Compacted(log, registry))), FactsOf(RecordsOf(log)), registry);
  }

  lemma SameFindingSet(byKey: map<ClaimKey, seq<Claim>>, a: Facts, b: Facts, registry: Registry)
    requires forall key :: FindingAt(byKey, key, a, registry) == FindingAt(byKey, key, b, registry)
    ensures FindingSet(byKey, a, registry) == FindingSet(byKey, b, registry)
  {
    hide FindingAt;
  }

  lemma StateFields(ops: set<Op>, registry: Registry, w: Window)
    ensures var s := StateOf(ops, registry, w);
            s.findings == TablesOf(FindingSet(s.activity.byKey, FactsOf(RecordsOf(ops)), registry))
            && s.histories == HistoriesOf(RecordsOf(ops))
            && s.lifecycle == FoldOf(FoldInputs(RecordsOf(ops), HistoriesOf(RecordsOf(ops)), s.findings.byRef, w.at))
  {
    hide RecordsOf;
    hide HistoriesOf;
    hide FoldOf;
    hide TablesOf;
    hide ActivityOf;
    hide FindingSet;
  }

  /** The compacted log has the same active claims, the same findings with the same labels, and the
      same lifecycle, at every instant and in every context. */
  lemma CompactionEquivalent(log: set<Op>, registry: Registry, w: Window)
    requires CollisionFree(log)
    ensures CollisionFree(Compacted(log, registry))
    ensures var s, t := StateOf(Compacted(log, registry), registry, w), StateOf(log, registry, w);
            s.activity.byKey == t.activity.byKey && s.findings == t.findings && s.histories == t.histories
            && s.lifecycle == t.lifecycle
  {
    var small := Compacted(log, registry);
    CompactedIsThinned(log, registry);
    CollisionFreeSubset(small, log);
    ActiveClaimsKept(small, log, registry, w);
    RecordsKept(small, log, registry);
    StateFields(small, registry, w);
    StateFields(log, registry, w);
    hide StateOf;
    hide RecordsOf;
    hide Thinned;
    hide CollisionFree;
    hide Compacted;
    hide FindingAt;
    hide FoldOf;
    hide HistoriesOf;
    hide TablesOf;
    hide FindingSet;
    forall key ensures FindingAt(StateOf(log, registry, w).activity.byKey, key, FactsOf(RecordsOf(small)), registry)
                       == FindingAt(StateOf(log, registry, w).activity.byKey, key, FactsOf(RecordsOf(log)), registry)
    {
      SameFinding(log, registry, w, key);
    }
    SameFindingSet(StateOf(log, registry, w).activity.byKey, FactsOf(RecordsOf(small)), FactsOf(RecordsOf(log)), registry);
  }

  /** With resolvers that suggest the same, or with none, the view is the same for every scope,
      instant and context. */
  lemma CompactionSameView(log: set<Op>, registry: Registry, w: Window, scope: Option<Name>, p: Option<Resolver>, q: Option<Resolver>,
                           conflicts: seq<ConflictSet>, v: Viewed)
    requires CollisionFree(log) && SuggestAlike(StateOf(log, registry, w), p, q)
    ensures IsView(v, StateOf(Compacted(log, registry), registry, w), registry, scope, p, conflicts)
            <==> IsView(v, StateOf(log, registry, w), registry, scope, q, conflicts)
  {
    hide StateOf;
    hide Compacted;
    hide IsView;
    hide CollisionFree;
    hide SameForView;
    hide SuggestAlike;
    var s, t := StateOf(Compacted(log, registry), registry, w), StateOf(log, registry, w);
    CompactionEquivalent(log, registry, w);
    AlikeForView(s, t, scope);
    AlikeForView(t, s, scope);
    AlikeSuggestions(t, s, p, q);
    if IsView(v, s, registry, scope, p, conflicts) { ViewFrame(v, s, t, registry, scope, p, q, conflicts); }
    if IsView(v, t, registry, scope, q, conflicts) { ViewFrame(v, t, s, registry, scope, q, p, conflicts); }
  }

  lemma AlikeSuggestions(t: MemoryState, s: MemoryState, p: Option<Resolver>, q: Option<Resolver>)
    requires s.findings == t.findings && SuggestAlike(t, p, q)
    ensures SuggestAlike(s, p, q) && SuggestAlike(t, q, p)
  {
    hide Suggested;
    forall key | KeyConflicts(t, key) != [] ensures SuggestSame(KeyConflicts(t, key)[0], q, p) {
      assert SuggestSame(KeyConflicts(t, key)[0], p, q);
    }
    assert forall key :: KeyConflicts(s, key) == KeyConflicts(t, key);
  }

  lemma AlikeForView(s: MemoryState, t: MemoryState, scope: Option<Name>)
    requires s.activity.byKey == t.activity.byKey && s.findings == t.findings && s.histories == t.histories && s.lifecycle == t.lifecycle
    ensures SameForView(s, t, scope)
  {
  }

  // ---------------------------------------------------------------- heuristic resolvers

  /** What the built-in heuristics read of a state for one candidate: its evidence, their sources,
      and when the latest retraction naming it as the replacement was made. */
  datatype CandidateFacts = CandidateFacts(evidence: map<Id, Evidence>, sources: map<Id, Source>, superseded: seq<Op>)

  function CandidateFactsOf(state: MemoryState, c: Claim): CandidateFacts {
    CandidateFacts(
      map e | e in c.evidenceIds && e in state.records.evidence :: state.records.evidence[e],
      state.records.sources,
      if c.id in state.retractions.bySuperseder then state.retractions.bySuperseder[c.id] else [])
  }

  /** Every retraction that replaces this claim also says what it retracts. */
  ghost predicate ReplacementsTargeted(log: set<Op>, id: Id) {
    forall op :: op in log && op.ClaimRetracted? && op.superseder == Some(id) ==> NamesTarget(op)
  }

  ghost predicate CandidatesTargeted(log: set<Op>, c: ConflictSet) {
    forall x :: x in c.candidates ==> ReplacementsTargeted(log, x.id)
  }

  lemma SupersedersOf(rs: set<Op>, id: Id)
    requires UniqueOps(rs) && forall op :: op in rs ==> op.ClaimRetracted?
    ensures var m := RetractionsOf(rs).bySuperseder;
            forall op :: op in (if id in m then m[id] else []) <==> op in rs && op.superseder == Some(id)
    ensures var m := RetractionsOf(rs).bySuperseder; StrictlySorted(if id in m then m[id] else [], RetractionRank)
  {
    RetractionsDistinct(rs);
    var pairs := SupersederPairs(rs);
    var m := RetractionsOf(rs).bySuperseder;
    ImageDistinct(pairs, id, RetractionRank);
    ListingProperties(Image(pairs, id), RetractionRank);
    ImageOutside(pairs, id);
    var listed := if id in m then m[id] else [];
    assert Elements(listed) == Image(pairs, id);
    forall op ensures op in listed <==> op in rs && op.superseder == Some(id) {
      ImageMember(pairs, id, op);
      assert op in listed <==> op in Elements(listed);
    }
  }

  /** For a candidate of the view, the facts the heuristics use survive compaction exactly when every
      retraction naming it as a replacement names a target as well. */
  lemma ResolverFactsKept(log: set<Op>, registry: Registry, w: Window, c: Claim)
    requires CollisionFree(log) && UniqueOps(log) && IsLive(log, registry, c.id) && RecordsOf(log).claims[c.id] == c
    ensures CandidateFactsOf(StateOf(Compacted(log, registry), registry, w), c) == CandidateFactsOf(StateOf(log, registry, w), c)
            <==> ReplacementsTargeted(log, c.id)
  {
    var small := Compacted(log, registry);
    var s, t := StateOf(small, registry, w), StateOf(log, registry, w);
    CompactedIsThinned(log, registry);
    RecordsKept(small, log, registry);
    StateRetractions(small, registry, w);
    StateRetractions(log, registry, w);
    CandidateEvidenceKept(log, registry, c);
    var rs, all := RetractionsIn(small), RetractionsIn(log);
    assert rs <= all <= log;
    assert UniqueOps(all) && UniqueOps(rs);
    SupersedersOf(rs, c.id);
    SupersedersOf(all, c.id);
    forall op ensures op in rs <==> op in all && NamesTarget(op) { KeptRetraction(log, registry, op); }
    hide StateOf;
    hide RecordsOf;
    hide Thinned;
    hide CollisionFree;
    hide IsLive;
    hide Compacted;
    hide RetractionsOf;
    SupersededLists(rs, all, c.id, CandidateFactsOf(s, c).superseded, CandidateFactsOf(t, c).superseded);
    assert ReplacementsTargeted(log, c.id) <==> forall op :: op in all && op.superseder == Some(c.id) ==> NamesTarget(op);
  }

  lemma SupersededLists(rs: set<Op>, all: set<Op>, id: Id, a: seq<Op>, b: seq<Op>)
    requires forall op :: op in all ==> op.ClaimRetracted?
    requires forall op :: op in rs <==> op in all && NamesTarget(op)
    requires forall op :: op in a <==> op in rs && op.superseder == Some(id)
    requires forall op :: op in b <==> op in all && op.superseder == Some(id)
    requires StrictlySorted(a, RetractionRank) && StrictlySorted(b, RetractionRank)
    ensures a == b <==> forall op :: op in all && op.superseder == Some(id) ==> NamesTarget(op)
  {
    if forall op :: op in all && op.superseder == Some(id) ==> NamesTarget(op) {
      assert Elements(a) == Elements(b);
      StrictlySortedUnique(a, b, RetractionRank);
    } else {
      var op :| op in all && op.superseder == Some(id) && !NamesTarget(op);
      assert op in b && op !in a;
    }
  }

  lemma KeptRetraction(log: set<Op>, registry: Registry, op: Op)
    ensures op in RetractionsIn(Compacted(log, registry)) <==> op in RetractionsIn(log) && NamesTarget(op)
  {
    hide IsLive;
    hide IsNeeded;
    if op in RetractionsIn(log) && NamesTarget(op) { assert Keeps(log, registry, op); }
  }

  lemma StateRetractions(ops: set<Op>, registry: Registry, w: Window)
    ensures StateOf(ops, registry, w).retractions == RetractionsOf(RetractionsIn(ops))
    ensures StateOf(ops, registry, w).records == RecordsOf(ops)
  {
    hide RecordsOf;
    hide HistoriesOf;
    hide FoldOf;
    hide TablesOf;
    hide ActivityOf;
    hide FindingSet;
    hide RetractionsOf;
  }

  lemma CandidateEvidenceKept(log: set<Op>, registry: Registry, c: Claim)
    requires CollisionFree(log) && IsLive(log, registry, c.id) && RecordsOf(log).claims[c.id] == c
    ensures var a, b := RecordsOf(Compacted(log, registry)).evidence, RecordsOf(log).evidence;
            (map e | e in c.evidenceIds && e in a :: a[e]) == (map e | e in c.evidenceIds && e in b :: b[e])
  {
    var a, b := RecordsOf(Compacted(log, registry)).evidence, RecordsOf(log).evidence;
    forall e | e in c.evidenceIds ensures (e in a <==> e in b) && (e in a ==> a[e] == b[e]) {
      EvidenceKept(log, registry, c.id, e);
    }
  }

  /** A heuristic: it may use the finding and the facts of each candidate. */
  type Heuristic = (ConflictSet, seq<CandidateFacts>) -> Option<Id>

  function FactsOfCandidates(state: MemoryState, cs: seq<Claim>): seq<CandidateFacts> {
    if cs == [] then [] else FactsOfCandidates(state, cs[..|cs| - 1]) + [CandidateFactsOf(state, cs[|cs| - 1])]
  }

  function HeuristicOf(h: Heuristic, state: MemoryState): Resolver { (c: ConflictSet) => h(c, FactsOfCandidates(state, c.candidates)) }

  lemma {:induction false} SameCandidateFacts(s: MemoryState, t: MemoryState, cs: seq<Claim>)
    requires forall c :: c in cs ==> CandidateFactsOf(s, c) == CandidateFactsOf(t, c)
    ensures FactsOfCandidates(s, cs) == FactsOfCandidates(t, cs)
  {
    hide CandidateFactsOf;
    if cs != [] {
      assert cs == cs[..|cs| - 1] + [cs[|cs| - 1]];
      SameCandidateFacts(s, t, cs[..|cs| - 1]);
    }
  }

  /** The candidates of a finding the view asks about are live claims of the log. */
  lemma CandidatesAreLive(log: set<Op>, registry: Registry, w: Window, key: ClaimKey, c: Claim)
    requires CollisionFree(log) && KeyConflicts(StateOf(log, registry, w), key) != []
    requires c in KeyConflicts(StateOf(log, registry, w), key)[0].candidates
    ensures IsLive(log, registry, c.id) && RecordsOf(log).claims[c.id] == c
  {
    var claims, inactive := RecordsOf(log).claims, InactiveIds(RecordsOf(log).claims, RetractionsIn(log), registry);
    var s := StateOf(log, registry, w);
    RecordsWellFiled(log);
    ActivityOfState(log, registry, w);
    StateFields(log, registry, w);
    ActivityLists(claims, inactive, w);
    var facts := FactsOf(RecordsOf(log));
    hide StateOf;
    hide RecordsOf;
    hide CollisionFree;
    hide InactiveIds;
    KeyFinding(s, facts, registry, key);
    var f := KeyConflicts(s, key)[0];
    FindingAtIdentity(s.activity.byKey, f.key, facts, registry);
    ListedClaim(claims, inactive, w, f.key, c);
  }

  lemma KeyFinding(s: MemoryState, facts: Facts, registry: Registry, key: ClaimKey)
    requires ListsByKey(s.activity.byKey) && s.findings == TablesOf(FindingSet(s.activity.byKey, facts, registry))
    requires KeyConflicts(s, key) != []
    ensures var f := KeyConflicts(s, key)[0]; FindingAt(s.activity.byKey, f.key, facts, registry) == Some(f)
  {
    var cs := FindingSet(s.activity.byKey, facts, registry);
    FindingsInjective(s.activity.byKey, s.activity.byKey.Keys, facts, registry);
    ByIdEntry(cs, ConflictKeyOf, key);
    hide FindingsAmong;
    hide FindingAt;
    SelectableMembers(FindingsUnder(s.findings, key));
    assert KeyConflicts(s, key)[0] in KeyConflicts(s, key);
  }

  /** When each retraction that names a candidate of a standing finding as a replacement also names its
      target, every heuristic suggests the same on the compacted log, so that with
      `CompactionSameView` its view is the same. */
  lemma HeuristicsAgree(log: set<Op>, registry: Registry, w: Window, h: Heuristic)
    requires CollisionFree(log) && UniqueOps(log)
    requires forall key :: KeyConflicts(StateOf(log, registry, w), key) != [] ==>
               CandidatesTargeted(log, KeyConflicts(StateOf(log, registry, w), key)[0])
    ensures SuggestAlike(StateOf(log, registry, w), Some(HeuristicOf(h, StateOf(Compacted(log, registry), registry, w))),
                         Some(HeuristicOf(h, StateOf(log, registry, w))))
  {
    hide StateOf;
    hide Compacted;
    hide CollisionFree;
    hide UniqueOps;
    hide ReplacementsTargeted;
    hide IsLive;
    hide RecordsOf;
    var s, t := StateOf(Compacted(log, registry), registry, w), StateOf(log, registry, w);
    forall key | KeyConflicts(t, key) != [] ensures SuggestSame(KeyConflicts(t, key)[0], Some(HeuristicOf(h, s)), Some(HeuristicOf(h, t))) {
      var c := KeyConflicts(t, key)[0];
      forall x | x in c.candidates ensures CandidateFactsOf(s, x) == CandidateFactsOf(t, x) {
        CandidatesAreLive(log, registry, w, key, x);
        assert ReplacementsTargeted(log, x.id);
        ResolverFactsKept(log, registry, w, x);
      }
      SameCandidateFacts(s, t, c.candidates);
    }
  }

  // ---------------------------------------------------------------- after a merge

  lemma SameShapesAmong(byKey: map<ClaimKey, seq<Claim>>, a: Facts, b: Facts, registry: Registry)
    requires ListsByKey(byKey)
    requires forall key :: SameButLabels(FindingAt(byKey, key, a, registry), FindingAt(byKey, key, b, registry))
    ensures SameShapes(ById(FindingSet(byKey, a, registry), ConflictRefOf), ById(FindingSet(byKey, b, registry), ConflictRefOf))
    ensures ById(FindingSet(byKey, a, registry), ConflictIdOf).Keys == ById(FindingSet(byKey, b, registry), ConflictIdOf).Keys
  {
    var cs, ds := FindingSet(byKey, a, registry), FindingSet(byKey, b, registry);
    FindingsInjective(byKey, byKey.Keys, a, registry);
    FindingsInjective(byKey, byKey.Keys, b, registry);
    forall c | c in cs ensures HasTwin(c, ds) {
      Counterpart(byKey, a, b, registry, c);
    }
    forall d | d in ds ensures HasTwin(d, cs) {
      forall key ensures SameButLabels(FindingAt(byKey, key, b, registry), FindingAt(byKey, key, a, registry)) {
        assert SameButLabels(FindingAt(byKey, key, a, registry), FindingAt(byKey, key, b, registry));
      }
      Counterpart(byKey, b, a, registry, d);
    }
    hide FindingsAmong;
    hide FindingAt;
    ShapesMatch(cs, ds);
  }

  /** The other set holds this finding, up to labels. */
  ghost predicate HasTwin(c: ConflictSet, ds: set<ConflictSet>) { exists d :: d in ds && Unlabelled(d) == Unlabelled(c) }

  lemma Counterpart(byKey: map<ClaimKey, seq<Claim>>, a: Facts, b: Facts, registry: Registry, c: ConflictSet)
    requires ListsByKey(byKey) && c in FindingSet(byKey, a, registry)
    requires forall key :: SameButLabels(FindingAt(byKey, key, a, registry), FindingAt(byKey, key, b, registry))
    ensures HasTwin(c, FindingSet(byKey, b, registry))
  {
    FindingsInjective(byKey, byKey.Keys, a, registry);
    assert SameButLabels(FindingAt(byKey, c.key, a, registry), FindingAt(byKey, c.key, b, registry));
    var d := FindingAt(byKey, c.key, b, registry).value;
    assert HasFinding(byKey, c.key, b, registry);
    hide FindingAt;
    assert d in FindingSet(byKey, b, registry);
  }

  lemma ShapesMatch(cs: set<ConflictSet>, ds: set<ConflictSet>)
    requires Injective(cs, ConflictRefOf) && Injective(ds, ConflictRefOf) && Injective(cs, ConflictIdOf) && Injective(ds, ConflictIdOf)
    requires (forall c :: c in cs ==> HasTwin(c, ds)) && (forall d :: d in ds ==> HasTwin(d, cs))
    ensures SameShapes(ById(cs, ConflictRefOf), ById(ds, ConflictRefOf))
    ensures ById(cs, ConflictIdOf).Keys == ById(ds, ConflictIdOf).Keys
  {
    forall ref ensures MatchAt(cs, ds, ConflictRefOf, ref) { Matching(cs, ds, ConflictRefOf, ref); }
    forall id ensures MatchAt(cs, ds, ConflictIdOf, id) { Matching(cs, ds, ConflictIdOf, id); }
    hide ById;
    hide Unlabelled;
    var a, b := ById(cs, ConflictRefOf), ById(ds, ConflictRefOf);
    assert forall ref :: MatchAt(cs, ds, ConflictRefOf, ref) ==> (ref in a <==> ref in b) && (ref in a ==> Unlabelled(a[ref]) == Unlabelled(b[ref]));
    assert forall id :: MatchAt(cs, ds, ConflictIdOf, id) ==> (id in ById(cs, ConflictIdOf) <==> id in ById(ds, ConflictIdOf));
  }

  ghost predicate MatchAt<K(!new)>(cs: set<ConflictSet>, ds: set<ConflictSet>, id: ConflictSet -> K, k: K) {
    var a, b := ById(cs, id), ById(ds, id);
    (k in a <==> k in b) && (k in a ==> Unlabelled(a[k]) == Unlabelled(b[k]))
  }

  lemma Matching<K(!new)>(cs: set<ConflictSet>, ds: set<ConflictSet>, id: ConflictSet -> K, k: K)
    requires Injective(cs, id) && Injective(ds, id)
    requires forall c, d :: Unlabelled(c) == Unlabelled(d) ==> id(c) == id(d)
    requires (forall c :: c in cs ==> HasTwin(c, ds)) && (forall d :: d in ds ==> HasTwin(d, cs))
    ensures MatchAt(cs, ds, id, k)
  {
    hide HasTwin;
    hide ById;
    hide Injective;
    hide Unlabelled;
    MatchingOneWay(cs, ds, id, k);
    MatchingOneWay(ds, cs, id, k);
  }

  lemma MatchingOneWay<K(!new)>(cs: set<ConflictSet>, ds: set<ConflictSet>, id: ConflictSet -> K, k: K)
    requires Injective(cs, id) && Injective(ds, id)
    requires forall c, d :: Unlabelled(c) == Unlabelled(d) ==> id(c) == id(d)
    requires forall c :: c in cs ==> HasTwin(c, ds)
    ensures k in ById(cs, id) ==> k in ById(ds, id) && Unlabelled(ById(cs, id)[k]) == Unlabelled(ById(ds, id)[k])
  {
    ByIdEntry(cs, id, k);
    ByIdEntry(ds, id, k);
    hide ById;
    hide Injective;
    hide Unlabelled;
    if k in ById(cs, id) {
      assert HasTwin(ById(cs, id)[k], ds);
      var d :| d in ds && Unlabelled(d) == Unlabelled(ById(cs, id)[k]);
      assert id(d) == k;
    }
  }

  /** After merging the same operations into the compacted log and into the original, the active
      claims, the findings up to their provenance labels, and the whole lifecycle still agree. */
  lemma MergedCompactionEquivalent(log: set<Op>, more: set<Op>, registry: Registry, w: Window)
    requires CollisionFree(log + more)
    ensures CollisionFree(Compacted(log, registry) + more)
    ensures var s, t := StateOf(Compacted(log, registry) + more, registry, w), StateOf(log + more, registry, w);
            s.activity.byKey == t.activity.byKey && s.findings.byId.Keys == t.findings.byId.Keys
            && SameShapes(s.findings.byRef, t.findings.byRef) && s.lifecycle == t.lifecycle
  {
    var small, large := Compacted(log, registry) + more, log + more;
    CollisionFreeSubset(log, large);
    CompactedIsThinned(log, registry);
    ThinnedMerge(Compacted(log, registry), log, more, registry);
    ThinnedEquivalent(small, large, registry, w);
  }

  lemma ThinnedEquivalent(small: set<Op>, large: set<Op>, registry: Registry, w: Window)
    requires Thinned(small, large, registry)
    ensures CollisionFree(small)
    ensures var s, t := StateOf(small, registry, w), StateOf(large, registry, w);
            s.activity.byKey == t.activity.byKey && s.findings.byId.Keys == t.findings.byId.Keys
            && SameShapes(s.findings.byRef, t.findings.byRef) && s.lifecycle == t.lifecycle
  {
    ThinnedParts(small, large, registry, w);
    ActiveClaimsKept(small, large, registry, w);
    RecordsKept(small, large, registry);
    StateFields(small, registry, w);
    StateFields(large, registry, w);
    hide StateOf;
    hide RecordsOf;
    hide Thinned;
    hide CollisionFree;
    hide FindingAt;
    hide FoldOf;
    hide HistoriesOf;
    hide FindingSet;
    hide ById;
    hide SameShapes;
    hide ListsByKey;
    var byKey := StateOf(large, registry, w).activity.byKey;
    forall key ensures SameButLabels(FindingAt(byKey, key, FactsOf(RecordsOf(small)), registry),
                                     FindingAt(byKey, key, FactsOf(RecordsOf(large)), registry))
    {
      FindingsKept(small, large, registry, w, key);
    }
    SameShapesAmong(byKey, FactsOf(RecordsOf(small)), FactsOf(RecordsOf(large)), registry);
    ShapesOutline(StateOf(small, registry, w).findings.byRef, StateOf(large, registry, w).findings.byRef);
    hide SameOutlines;
    LifecycleKept(FoldInputs(RecordsOf(small), HistoriesOf(RecordsOf(small)), StateOf(small, registry, w).findings.byRef, w.at),
                  FoldInputs(RecordsOf(large), HistoriesOf(RecordsOf(large)), StateOf(large, registry, w).findings.byRef, w.at));
  }

  lemma ThinnedParts(small: set<Op>, large: set<Op>, registry: Registry, w: Window)
    requires Thinned(small, large, registry)
    ensures CollisionFree(small) && CollisionFree(large)
    ensures ListsByKey(StateOf(large, registry, w).activity.byKey)
  {
    CollisionFreeSubset(small, large);
    RecordsWellFiled(large);
    ActivityOfState(large, registry, w);
    hide StateOf;
    hide RecordsOf;
    hide InactiveIds;
    ActivityLists(RecordsOf(large).claims, InactiveIds(RecordsOf(large).claims, RetractionsIn(large), registry), w);
  }
}
