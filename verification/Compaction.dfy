/** What compaction keeps of a log, and why nothing observable is lost. */
module Compaction {
  import opened Basics
  import opened Model
  import opened ConflictIndex
  import opened Findings
  import opened Lifecycle
  import opened Records
  import opened State
  import opened Tables

  // ---------------------------------------------------------------- what is kept

  ghost predicate IsLive(log: set<Op>, registry: Registry, id: Id) {
    id in RecordsOf(log).claims && id !in InactiveIds(RecordsOf(log).claims, RetractionsIn(log), registry)
  }

  predicate NamesTarget(op: Op) { op.ClaimRetracted? && (op.target.Some? || op.targetRef.Some?) }

  ghost predicate CitedByClaim(log: set<Op>, registry: Registry, e: Id) {
    exists id :: IsLive(log, registry, id) && e in RecordsOf(log).claims[id].evidenceIds
  }

  ghost predicate CitedByRetraction(log: set<Op>, e: Id) { exists op :: op in log && NamesTarget(op) && e in op.evidenceIds }

  ghost predicate CitedByResolution(log: set<Op>, e: Id) {
    exists id :: id in RecordsOf(log).resolutions && e in RecordsOf(log).resolutions[id].evidenceIds
  }

  ghost predicate IsNeeded(log: set<Op>, registry: Registry, e: Id) {
    CitedByClaim(log, registry, e) || CitedByRetraction(log, e) || CitedByResolution(log, e)
  }

  ghost predicate Keeps(log: set<Op>, registry: Registry, op: Op) {
    match op
    case EvidenceAdded(_, _, _, e) => IsNeeded(log, registry, e.id)
    case ClaimAdded(_, _, _, c) => IsLive(log, registry, c.id)
    case ClaimRetracted(_, _, _, _, _, _, _, _, _) => NamesTarget(op)
    case _ => true
  }

  /** The compacted log. */
  ghost function Compacted(log: set<Op>, registry: Registry): set<Op> { set op | op in log && Keeps(log, registry, op) }

  // ---------------------------------------------------------------- what compaction and merging keep

  /** A log with some claims retracted for good, some unnamed retractions and some evidence taken
      out: `small` may be a compacted log, or one merged with further operations. */
  ghost predicate Thinned(small: set<Op>, large: set<Op>, registry: Registry) {
    && small <= large && CollisionFree(large)
    && SourcesIn(small) == SourcesIn(large) && DerivationsIn(small) == DerivationsIn(large)
    && ResolutionsIn(small) == ResolutionsIn(large) && EventsIn(small) == EventsIn(large)
    && (forall c :: c in ClaimsIn(large) && IsLive(large, registry, c.id) ==> c in ClaimsIn(small))
    && (forall op :: op in large && NamesTarget(op) ==> op in small)
  }

  lemma CompactedSmaller(log: set<Op>, registry: Registry)
    ensures Compacted(log, registry) <= log
  {
  }

  lemma CompactedIsThinned(log: set<Op>, registry: Registry)
    requires CollisionFree(log)
    ensures Thinned(Compacted(log, registry), log, registry)
  {
    var small := Compacted(log, registry);
    hide IsLive;
    hide IsNeeded;
    hide CollisionFree;
    assert small <= log;
    KindsKept(log, registry);
    forall c | c in ClaimsIn(log) && IsLive(log, registry, c.id) ensures c in ClaimsIn(small) {
      var op :| op in log && op.ClaimAdded? && op.claim == c;
      assert Keeps(log, registry, op);
    }
    forall op | op in log && NamesTarget(op) ensures op in small {
      assert Keeps(log, registry, op);
    }
  }

  lemma KindsKept(log: set<Op>, registry: Registry)
    ensures var small := Compacted(log, registry);
            SourcesIn(small) == SourcesIn(log) && DerivationsIn(small) == DerivationsIn(log)
            && ResolutionsIn(small) == ResolutionsIn(log) && EventsIn(small) == EventsIn(log)
            && DecisionsIn(small) == DecisionsIn(log)
  {
    var small := Compacted(log, registry);
    hide IsLive;
    hide IsNeeded;
    forall op | op in log && (op.SourceAdded? || op.DerivationAdded? || op.ResolutionAdded? || op.LifecycleEventAdded? || op.DecisionAdded?)
      ensures op in small
    {
      assert Keeps(log, registry, op);
    }
  }

  /** Merging the same operations into a log and into its thinned form keeps the relation. */
  lemma ThinnedMerge(small: set<Op>, large: set<Op>, more: set<Op>, registry: Registry)
    requires Thinned(small, large, registry) && CollisionFree(large + more)
    ensures Thinned(small + more, large + more, registry)
  {
    MergedKinds(small, more);
    MergedKinds(large, more);
    forall c | c in ClaimsIn(large + more) && IsLive(large + more, registry, c.id) ensures c in ClaimsIn(small + more) {
      if c in ClaimsIn(large) {
        LiveEarlier(large, more, registry, c);
      }
    }
  }

  lemma MergedKinds(a: set<Op>, more: set<Op>)
    ensures SourcesIn(a + more) == SourcesIn(a) + SourcesIn(more) && DerivationsIn(a + more) == DerivationsIn(a) + DerivationsIn(more)
    ensures ResolutionsIn(a + more) == ResolutionsIn(a) + ResolutionsIn(more) && EventsIn(a + more) == EventsIn(a) + EventsIn(more)
    ensures ClaimsIn(a + more) == ClaimsIn(a) + ClaimsIn(more)
  {
  }

  lemma LiveEarlier(log: set<Op>, more: set<Op>, registry: Registry, c: Claim)
    requires CollisionFree(log + more) && c in ClaimsIn(log) && IsLive(log + more, registry, c.id)
    ensures IsLive(log, registry, c.id)
  {
    CollisionFreeSubset(log, log + more);
    ClaimEntry(log, c.id);
    ClaimEntry(log + more, c.id);
    assert c in ClaimsIn(log + more);
    InactiveMore(RecordsOf(log).claims, RecordsOf(log + more).claims, RetractionsIn(log), RetractionsIn(log + more), registry, c.id);
  }

  /** More retractions retract more. */
  lemma InactiveMore(a: map<Id, Claim>, b: map<Id, Claim>, rs: set<Op>, more: set<Op>, registry: Registry, id: Id)
    requires id in a && id in b && a[id] == b[id] && rs <= more
    ensures id in InactiveIds(a, rs, registry) ==> id in InactiveIds(b, more, registry)
  {
    assert TargetPairs(rs) <= TargetPairs(more) && TargetRefPairs(rs) <= TargetRefPairs(more);
    assert Firsts(TargetPairs(rs)) <= Firsts(TargetPairs(more));
    assert Firsts(TargetRefPairs(rs)) <= Firsts(TargetRefPairs(more));
  }

  // ---------------------------------------------------------------- active claims

  lemma TargetsKept(small: set<Op>, large: set<Op>, registry: Registry)
    requires Thinned(small, large, registry)
    ensures TargetPairs(RetractionsIn(small)) == TargetPairs(RetractionsIn(large))
    ensures TargetRefPairs(RetractionsIn(small)) == TargetRefPairs(RetractionsIn(large))
  {
    hide CollisionFree;
    hide IsLive;
    forall op | op in RetractionsIn(large) && NamesTarget(op) ensures op in RetractionsIn(small) {}
    assert RetractionsIn(small) <= RetractionsIn(large);
  }

  /** A claim the thinned log knows is retracted there exactly if it is retracted in full. */
  lemma SameActivity(small: set<Op>, large: set<Op>, registry: Registry, id: Id)
    requires Thinned(small, large, registry)
    ensures id in RecordsOf(small).claims ==>
              id in RecordsOf(large).claims && RecordsOf(large).claims[id] == RecordsOf(small).claims[id]
              && (id in InactiveIds(RecordsOf(small).claims, RetractionsIn(small), registry)
                  <==> id in InactiveIds(RecordsOf(large).claims, RetractionsIn(large), registry))
    ensures IsLive(large, registry, id) ==> id in RecordsOf(small).claims
  {
    CollisionFreeSubset(small, large);
    ClaimEntry(small, id);
    ClaimEntry(large, id);
    TargetsKept(small, large, registry);
    assert ClaimsIn(small) <= ClaimsIn(large);
    if id in RecordsOf(small).claims { assert RecordsOf(small).claims[id] in ClaimsIn(large); }
  }

  lemma ActivePairsKept(small: set<Op>, large: set<Op>, registry: Registry, w: Window)
    requires Thinned(small, large, registry)
    ensures ActivePairs(RecordsOf(small).claims, InactiveIds(RecordsOf(small).claims, RetractionsIn(small), registry), w)
            == ActivePairs(RecordsOf(large).claims, InactiveIds(RecordsOf(large).claims, RetractionsIn(large), registry), w)
  {
    var a, b := RecordsOf(small).claims, RecordsOf(large).claims;
    var x, y := InactiveIds(a, RetractionsIn(small), registry), InactiveIds(b, RetractionsIn(large), registry);
    CollisionFreeSubset(small, large);
    RecordsWellFiled(small);
    RecordsWellFiled(large);
    forall id ensures id in a ==> id in b && b[id] == a[id] && (id in x <==> id in y)
              ensures id in b && id !in y ==> id in a
    {
      SameActivity(small, large, registry, id);
    }
    hide Thinned;
    hide CollisionFree;
    hide RecordsOf;
    hide InactiveIds;
    SamePairs(a, b, x, y, w);
  }

  lemma SamePairs(a: map<Id, Claim>, b: map<Id, Claim>, x: set<Id>, y: set<Id>, w: Window)
    requires ClaimsFiled(a) && ClaimsFiled(b)
    requires forall id :: id in a ==> id in b && b[id] == a[id] && (id in x <==> id in y)
    requires forall id :: id in b && id !in y ==> id in a
    ensures ActivePairs(a, x, w) == ActivePairs(b, y, w)
  {
    forall p ensures p in ActivePairs(a, x, w) <==> p in ActivePairs(b, y, w) {
      ActivePairMember(a, x, w, p.0, p.1);
      ActivePairMember(b, y, w, p.0, p.1);
      assert p == (p.0, p.1);
    }
  }

  /** The active claims are the same at every instant and in every context. */
  lemma ActiveClaimsKept(small: set<Op>, large: set<Op>, registry: Registry, w: Window)
    requires Thinned(small, large, registry)
    ensures StateOf(small, registry, w).activity.byKey == StateOf(large, registry, w).activity.byKey
  {
    ActivePairsKept(small, large, registry, w);
    ActivityOfState(small, registry, w);
    ActivityOfState(large, registry, w);
    hide StateOf;
    hide RecordsOf;
    hide InactiveIds;
    hide ActivePairs;
  }

  lemma ActivityOfState(ops: set<Op>, registry: Registry, w: Window)
    ensures StateOf(ops, registry, w).activity
            == ActivityOf(RecordsOf(ops).claims, InactiveIds(RecordsOf(ops).claims, RetractionsIn(ops), registry), w)
    ensures StateOf(ops, registry, w).records == RecordsOf(ops)
  {
    hide RecordsOf;
    hide InactiveIds;
    hide ActivityOf;
  }

  // ---------------------------------------------------------------- findings

  /** A finding without the provenance read from evidence and sources. */
  function Unlabelled(c: ConflictSet): ConflictSet { c.(annotations := c.annotations.(provenance := {})) }

  ghost predicate SameButLabels(a: Option<ConflictSet>, b: Option<ConflictSet>) {
    (a.Some? <==> b.Some?) && (a.Some? ==> Unlabelled(a.value) == Unlabelled(b.value))
  }

  /** Evidence and sources only ever label a finding. */
  lemma FindingLabels(key: ClaimKey, claims: map<Id, Claim>, a: Facts, b: Facts, registry: Registry)
    requires a.derivations == b.derivations
    ensures SameButLabels(FindingOf(key, claims, a, registry), FindingOf(key, claims, b, registry))
  {
    PairSetKnown(claims, registry);
    if PairSet(claims, registry) != {} {
      ParticipantsKnown(claims, PairSet(claims, registry));
      var candidates := ClaimsOf(claims, SortedIds(Participants(PairSet(claims, registry))));
      assert forall c :: c in candidates ==> (IsMultiHop(c, a) <==> IsMultiHop(c, b));
      hide IsMultiHop;
      hide SourceTypes;
      hide PairSet;
      hide DistinctValues;
    }
  }

  /** No derivation is lost, and no record of resolutions and events. */
  lemma RecordsKept(small: set<Op>, large: set<Op>, registry: Registry)
    requires Thinned(small, large, registry)
    ensures RecordsOf(small).derivations == RecordsOf(large).derivations
    ensures RecordsOf(small).sources == RecordsOf(large).sources
    ensures RecordsOf(small).resolutions == RecordsOf(large).resolutions
    ensures RecordsOf(small).events == RecordsOf(large).events
    ensures HistoriesOf(RecordsOf(small)) == HistoriesOf(RecordsOf(large))
  {
    hide ById;
    hide CollisionFree;
    hide IsLive;
    hide HistoriesOf;
    SameHistories(RecordsOf(small), RecordsOf(large));
  }

  lemma SameHistories(a: Records, b: Records)
    requires a.resolutions == b.resolutions && a.events == b.events
    ensures HistoriesOf(a) == HistoriesOf(b)
  {
  }

  /** Key by key, the thinned log finds the same conflicts, up to provenance labels. */
  lemma FindingsKept(small: set<Op>, large: set<Op>, registry: Registry, w: Window, key: ClaimKey)
    requires Thinned(small, large, registry)
    ensures var byKey := StateOf(large, registry, w).activity.byKey;
            SameButLabels(FindingAt(byKey, key, FactsOf(RecordsOf(small)), registry),
                          FindingAt(byKey, key, FactsOf(RecordsOf(large)), registry))
  {
    RecordsKept(small, large, registry);
    hide Thinned;
    hide RecordsOf;
    hide StateOf;
    FindingLabels(key, ByClaimId(ClaimsAt(StateOf(large, registry, w).activity.byKey, key)), FactsOf(RecordsOf(small)),
                  FactsOf(RecordsOf(large)), registry);
  }

  // ---------------------------------------------------------------- lifecycle

  ghost predicate SameShapes(a: map<ConflictRef, ConflictSet>, b: map<ConflictRef, ConflictSet>) {
    forall ref :: (ref in a <==> ref in b) && (ref in a ==> Unlabelled(a[ref]) == Unlabelled(b[ref]))
  }

  /** What a lifecycle depends on in a finding. */
  datatype Outline = Outline(key: ClaimKey, conflictType: Name, keys: set<ClaimKey>, detector: Name, candidates: seq<Claim>)

  function OutlineOf(c: ConflictSet): Outline { Outline(c.key, c.conflictType, c.keys, c.detector, c.candidates) }

  ghost predicate SameOutlines(a: map<ConflictRef, ConflictSet>, b: map<ConflictRef, ConflictSet>) {
    forall ref :: (ref in a <==> ref in b) && (ref in a ==> OutlineOf(a[ref]) == OutlineOf(b[ref]))
  }

  lemma ShapesOutline(a: map<ConflictRef, ConflictSet>, b: map<ConflictRef, ConflictSet>)
    requires SameShapes(a, b)
    ensures SameOutlines(a, b)
  {
    forall ref ensures (ref in a <==> ref in b) && (ref in a ==> OutlineOf(a[ref]) == OutlineOf(b[ref])) {
      assert ref in a ==> OutlineOf(Unlabelled(a[ref])) == OutlineOf(a[ref]) && OutlineOf(Unlabelled(b[ref])) == OutlineOf(b[ref]);
    }
  }

  lemma OutlineDecides(r: Resolution, a: ConflictSet, b: ConflictSet)
    requires OutlineOf(a) == OutlineOf(b)
    ensures TakesEffect(r, a) == TakesEffect(r, b) && SettledStatus(r, a) == SettledStatus(r, b)
  {
    assert a.CandidateIds() == b.CandidateIds();
  }

  lemma LaneShape(i: Inputs, j: Inputs, lane: Lane)
    requires SameOutlines(i.conflicts, j.conflicts) && j == i.(conflicts := j.conflicts)
    ensures ActiveAt(i, lane) == ActiveAt(j, lane)
    ensures EffectiveAt(i, lane) == EffectiveAt(j, lane)
    ensures StatusAt(i, lane) == StatusAt(j, lane)
  {
    assert LaneReplay(i, lane) == LaneReplay(j, lane);
    assert lane.ref in i.conflicts <==> lane.ref in j.conflicts;
    hide TakesEffect;
    hide SettledStatus;
    hide LaneReplay;
    if lane.ref in i.conflicts && ActiveAt(i, lane).Some? {
      OutlineDecides(ActiveAt(i, lane).value, i.conflicts[lane.ref], j.conflicts[lane.ref]);
    }
  }

  /** The lifecycle depends on findings only through their identity and candidates. */
  lemma LifecycleKept(i: Inputs, j: Inputs)
    requires SameOutlines(i.conflicts, j.conflicts) && j == i.(conflicts := j.conflicts)
    ensures FoldOf(i) == FoldOf(j)
  {
    hide FoldOf;
    hide ActiveAt;
    hide EffectiveAt;
    hide StatusAt;
    hide SameOutlines;
    forall lane ensures LaneMatches(j, lane, FoldOf(i)) {
      FoldMatches(i, lane);
      LaneShape(i, j, lane);
    }
    MatchesUnique(j, FoldOf(i));
  }
}
