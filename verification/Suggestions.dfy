/** What the built-in heuristics suggest on a compacted log, and when that is what they suggest on the
    original. */
module Suggestions {
  import opened Basics
  import opened Model
  import opened Findings
  import opened Lifecycle
  import opened Records
  import opened State
  import opened Tables
  import opened LogTables
  import opened LogHistories
  import opened View
  import opened Scopes
  import opened Compaction
  import opened Equivalence
  import opened Reopening
  import opened Limits

  // ---------------------------------------------------------------- what a heuristic reads

  ghost predicate EvidenceAdded(log: set<Op>, x: Evidence) { exists op :: op in log && op.EvidenceAdded? && op.evidence == x }

  ghost predicate SourceAdded(log: set<Op>, x: Source) { exists op :: op in log && op.SourceAdded? && op.source == x }

  ghost predicate Read<T>(m: map<Id, T>, id: Id, x: T) { id in m && m[id] == x }

  lemma RecordsRead(log: set<Op>, e: Evidence, x: Source)
    requires CollisionFree(log)
    ensures Read(RecordsOf(log).evidence, e.id, e) <==> EvidenceAdded(log, e)
    ensures Read(RecordsOf(log).sources, x.id, x) <==> SourceAdded(log, x)
  {
    ByIdEntry(EvidenceIn(log), EvidenceId, e.id);
    ByIdEntry(SourcesIn(log), SourceId, x.id);
    assert e in EvidenceIn(log) <==> EvidenceAdded(log, e);
    assert x in SourcesIn(log) <==> SourceAdded(log, x);
  }

  /** What a heuristic reads of a candidate: the evidence of the log that it cites, the sources of the
      log, and the retractions that name it as a replacement, by time and then by identifier. */
  lemma FactsExactly(log: set<Op>, registry: Registry, w: Window, c: Claim, e: Evidence, x: Source)
    requires CollisionFree(log) && UniqueOps(log)
    ensures var f := CandidateFactsOf(StateOf(log, registry, w), c);
            (Read(f.evidence, e.id, e) <==> e.id in c.evidenceIds && EvidenceAdded(log, e))
            && (Read(f.sources, x.id, x) <==> SourceAdded(log, x))
            && (forall op :: op in f.superseded <==> op in log && op.ClaimRetracted? && op.superseder == Some(c.id))
            && RetractionsInTime(f.superseded)
  {
    ActivityParts(log, registry, w);
    RetractionsExactly(log, registry, w);
    hide StateOf;
    RecordsRead(log, e, x);
    hide RecordsOf;
    hide CollisionFree;
    hide UniqueOps;
    hide EvidenceAdded;
    hide SourceAdded;
    FactsFrom(StateOf(log, registry, w), c, log);
  }

  lemma FactsFrom(s: MemoryState, c: Claim, log: set<Op>)
    requires forall op :: Lists(s.retractions.bySuperseder, c.id, op) <==> op in log && op.ClaimRetracted? && op.superseder == Some(c.id)
    requires c.id in s.retractions.bySuperseder ==> RetractionsInTime(s.retractions.bySuperseder[c.id])
    ensures var f := CandidateFactsOf(s, c);
            (forall op :: op in f.superseded <==> op in log && op.ClaimRetracted? && op.superseder == Some(c.id))
            && RetractionsInTime(f.superseded) && f.sources == s.records.sources
            && (forall id :: id in f.evidence <==> id in c.evidenceIds && id in s.records.evidence)
            && (forall id :: id in f.evidence ==> f.evidence[id] == s.records.evidence[id])
  {
    forall op ensures op in CandidateFactsOf(s, c).superseded <==> op in log && op.ClaimRetracted? && op.superseder == Some(c.id) {
      assert Lists(s.retractions.bySuperseder, c.id, op) <==> op in CandidateFactsOf(s, c).superseded;
    }
  }

  // ---------------------------------------------------------------- one standing finding

  lemma {:induction false} FactsListed(state: MemoryState, cs: seq<Claim>, i: nat)
    requires i < |cs|
    ensures |FactsOfCandidates(state, cs)| == |cs| && FactsOfCandidates(state, cs)[i] == CandidateFactsOf(state, cs[i])
    decreases |cs|
  {
    hide CandidateFactsOf;
    if |cs| > 1 {
      FactsListed(state, cs[..|cs| - 1], if i < |cs| - 1 then i else 0);
    }
  }

  /** The heuristic that suggests the first candidate on seeing exactly these facts. */
  function Recognising(facts: seq<CandidateFacts>): Heuristic {
    (c: ConflictSet, seen: seq<CandidateFacts>) => if seen == facts && c.candidates != [] then Some(c.candidates[0].id) else None
  }

  lemma RecognisesOnly(s: MemoryState, t: MemoryState, c: ConflictSet)
    requires c.candidates != [] && FactsOfCandidates(s, c.candidates) != FactsOfCandidates(t, c.candidates)
    ensures var h := Recognising(FactsOfCandidates(t, c.candidates));
            Suggested(c, Some(HeuristicOf(h, s))).None? && Suggested(c, Some(HeuristicOf(h, t))).Some?
  {
    FindClaimProperties(c.candidates, c.candidates[0].id);
    hide FactsOfCandidates;
  }

  /** Every heuristic suggests the same for a finding in both states. */
  ghost predicate AllSuggestSame(s: MemoryState, t: MemoryState, c: ConflictSet) {
    forall h: Heuristic :: SuggestSame(c, Some(HeuristicOf(h, s)), Some(HeuristicOf(h, t)))
  }

  /** Every heuristic suggests the same for a standing finding, on the compacted log and on the
      original, if and only if each retraction that names one of its candidates as a replacement also
      names what it retracts. */
  lemma HeuristicsAgreeExactly(log: set<Op>, registry: Registry, w: Window, key: ClaimKey)
    requires CollisionFree(log) && UniqueOps(log) && KeyConflicts(StateOf(log, registry, w), key) != []
    ensures var s, t := StateOf(Compacted(log, registry), registry, w), StateOf(log, registry, w);
            var c := KeyConflicts(t, key)[0];
            AllSuggestSame(s, t, c) <==> CandidatesTargeted(log, c)
  {
    var s, t := StateOf(Compacted(log, registry), registry, w), StateOf(log, registry, w);
    var c := KeyConflicts(t, key)[0];
    forall x | x in c.candidates
      ensures CandidateFactsOf(s, x) == CandidateFactsOf(t, x) <==> ReplacementsTargeted(log, x.id)
    {
      CandidatesAreLive(log, registry, w, key, x);
      hide StateOf;
      hide Compacted;
      ResolverFactsKept(log, registry, w, x);
    }
    hide StateOf;
    hide Compacted;
    hide CollisionFree;
    hide UniqueOps;
    hide ReplacementsTargeted;
    FactsDecide(s, t, c);
  }

  lemma FactsDecide(s: MemoryState, t: MemoryState, c: ConflictSet)
    ensures AllSuggestSame(s, t, c) <==> forall x :: x in c.candidates ==> CandidateFactsOf(s, x) == CandidateFactsOf(t, x)
  {
    hide CandidateFactsOf;
    if forall x :: x in c.candidates ==> CandidateFactsOf(s, x) == CandidateFactsOf(t, x) {
      SameCandidateFacts(s, t, c.candidates);
    } else {
      var x :| x in c.candidates && CandidateFactsOf(s, x) != CandidateFactsOf(t, x);
      var i :| 0 <= i < |c.candidates| && c.candidates[i] == x;
      FactsListed(s, c.candidates, i);
      FactsListed(t, c.candidates, i);
      RecognisesOnly(s, t, c);
      var h := Recognising(FactsOfCandidates(t, c.candidates));
      assert !SuggestSame(c, Some(HeuristicOf(h, s)), Some(HeuristicOf(h, t)));
    }
  }

  // ---------------------------------------------------------------- a view that changes

  /** Nothing is committed for any finding. */
  ghost predicate NothingCommitted(state: MemoryState, scope: Option<Name>) {
    forall c :: CommittedChoice(state, c, scope) == Committed(None, None, false)
  }

  lemma {:induction false} RestUntouched(ch: Choices, state: MemoryState, scope: Option<Name>, handled: set<ConflictSet>, conflicts: seq<ConflictSet>)
    requires NothingCommitted(state, scope)
    ensures AfterRest(ch, state, scope, handled, conflicts) == ch
  {
    hide CommittedChoice;
    if conflicts != [] {
      RestUntouched(ch, state, scope, handled, conflicts[..|conflicts| - 1]);
    }
  }

  /** With nothing committed, a finding's key has a provisional claim exactly if the resolver suggests
      one. */
  lemma ProvisionalIfSuggested(v: Viewed, state: MemoryState, registry: Registry, scope: Option<Name>, resolver: Option<Resolver>,
                               conflicts: seq<ConflictSet>, key: ClaimKey)
    requires IsView(v, state, registry, scope, resolver, conflicts) && NothingCommitted(state, scope)
    requires key in state.activity.byKey && state.activity.byKey[key] != [] && KeyConflicts(state, key) != []
    ensures key in v.choices.provisional <==> Suggested(KeyConflicts(state, key)[0], resolver).Some?
  {
    var handled := HandledAt(state, state.activity.byKey.Keys);
    var ch :| ViewsKeys(ch, state, registry, scope, resolver, state.activity.byKey.Keys)
              && v.choices == AfterRest(ch, state, scope, handled, conflicts);
    RestUntouched(ch, state, scope, handled, conflicts);
    assert ViewsKey(ch, state, registry, scope, resolver, state.activity.byKey.Keys, key);
    hide KeyConflicts;
    hide CommittedChoice;
    hide Suggested;
  }

  /** A log without resolutions and events commits nothing. */
  lemma NothingRecorded(log: set<Op>, registry: Registry, scope: Option<Name>)
    requires CollisionFree(log) && ResolutionsIn(log) == {} && EventsIn(log) == {}
    ensures NothingCommitted(StateOf(log, registry, UNSCOPED), scope)
  {
    hide StateOf;
    hide CollisionFree;
    var s := StateOf(log, registry, UNSCOPED);
    forall lane ensures Unspoken(s, lane) { NothingOnLane(log, registry, lane); }
    UnspokenCommitsNothing(s, scope);
  }

  ghost predicate Unspoken(s: MemoryState, lane: Lane) {
    lane !in s.lifecycle.effective && lane !in s.lifecycle.active && LookupLane(s.lifecycle.statuses, lane) != Some(Deferred)
  }

  lemma UnspokenCommitsNothing(s: MemoryState, scope: Option<Name>)
    requires forall lane :: Unspoken(s, lane)
    ensures NothingCommitted(s, scope)
  {
    forall c ensures CommittedChoice(s, c, scope) == Committed(None, None, false) {
      assert Unspoken(s, ResolutionLane(s, c, scope));
    }
  }

  lemma NothingOnLane(log: set<Op>, registry: Registry, lane: Lane)
    requires CollisionFree(log) && ResolutionsIn(log) == {} && EventsIn(log) == {}
    ensures Unspoken(StateOf(log, registry, UNSCOPED), lane)
  {
    var s := StateOf(log, registry, UNSCOPED);
    StateTabled(log, registry);
    RecordsWellFiled(log);
    EmptyTables(log);
    hide StateOf;
    hide CollisionFree;
    var r := RecordsOf(log);
    EmptyRelation<Lane, Resolution>(ResolutionRank);
    EmptyRelation<Lane, Event>(EventRank);
    assert ResolutionLanePairs(map[]) == {} && EventLanePairs(map[]) == {};
    var inputs := FoldInputs(r, HistoriesOf(r), s.findings.byRef, None);
    NoHistory(inputs, lane);
    FoldMatches(inputs, lane);
    hide FoldOf;
  }

  lemma EmptyTables(log: set<Op>)
    requires CollisionFree(log) && ResolutionsIn(log) == {} && EventsIn(log) == {}
    ensures RecordsOf(log).resolutions == map[] && RecordsOf(log).events == map[]
  {
    forall id ensures id !in RecordsOf(log).resolutions && id !in RecordsOf(log).events {
      ByIdEntry(ResolutionsIn(log), ResolutionId, id);
      ByIdEntry(EventsIn(log), EventId, id);
    }
  }

  lemma NoHistory(inputs: Inputs, lane: Lane)
    requires LaneHistory(inputs.resolutionLanes, lane) == [] && LaneHistory(inputs.eventLanes, lane) == []
    ensures ActiveAt(inputs, lane).None? && EffectiveAt(inputs, lane).None?
    ensures StatusAt(inputs, lane) == None || StatusAt(inputs, lane) == Some(Open)
  {
    assert Timeline([], [], inputs.at) == [];
  }

  /** The finding of two incompatible claims is the one the view asks about. */
  lemma ClashIsAsked(log: set<Op>, registry: Registry, x: Claim, y: Claim)
    requires CollisionFree(log) && Clashing(log, registry, x, y)
    ensures var t := StateOf(log, registry, UNSCOPED);
            x.key in t.activity.byKey && t.activity.byKey[x.key] != []
            && KeyConflicts(t, x.key) != [] && x in KeyConflicts(t, x.key)[0].candidates
  {
    var t := StateOf(log, registry, UNSCOPED);
    var c := ClashIsFiled(log, registry, x, y);
    IncompatibleAreCandidates(log, registry, UNSCOPED, x, y);
    FiledFindings(log, registry);
    ClashIdentity(log, registry, x, y, c);
    hide StateOf;
    hide CollisionFree;
    hide Incompatible;
    assert [c][..0] == [] && SelectableAmong([c]) == SelectableAmong([]) + [c];
  }

  lemma ClashIdentity(log: set<Op>, registry: Registry, x: Claim, y: Claim, c: ConflictSet)
    requires CollisionFree(log) && Clashing(log, registry, x, y)
    requires var t := StateOf(log, registry, UNSCOPED).findings; x.key in t.byKey && t.byKey[x.key] == [c]
    ensures IsSelectable(c) && x in c.candidates && y in c.candidates
  {
    var s := StateOf(log, registry, UNSCOPED);
    StateLists(log, registry, UNSCOPED);
    StateFields(log, registry, UNSCOPED);
    hide StateOf;
    hide RecordsOf;
    hide CollisionFree;
    hide Incompatible;
    var byKey, facts := s.activity.byKey, FactsOf(RecordsOf(log));
    PairIsCandidate(x.key, ClaimsAt(byKey, x.key), facts, registry, x, y);
    ClashBoth(x, y, registry);
    PairIsCandidate(x.key, ClaimsAt(byKey, x.key), facts, registry, y, x);
    hide FindingOf;
    FindingFiled(byKey, facts, registry, x.key);
    FindingAtIdentity(byKey, x.key, facts, registry);
    assert KeyList(byKey[x.key], x.key);
  }

  lemma ClashBoth(x: Claim, y: Claim, registry: Registry)
    requires Incompatible(x, y, registry)
    ensures Incompatible(y, x, registry) && x.id != y.id
  {
  }

  // ---------------------------------------------------------------- the input on which the view changes

  function Unplaced(x: Claim, n: int): Op { ClaimRetracted(Id(n + 2), 0, "", None, None, Some(x.id), None, [], Null) }

  /** Two claims, and a retraction that names one as a replacement but says not of what. */
  function UntargetedLog(x: Claim, y: Claim, n: int): set<Op> {
    {ClaimAdded(Id(n), 0, "", x), ClaimAdded(Id(n + 1), 0, "", y), Unplaced(x, n)}
  }

  lemma UntargetedKinds(x: Claim, y: Claim, n: int)
    requires x.id != y.id
    ensures var log := UntargetedLog(x, y, n);
            CollisionFree(log) && UniqueOps(log) && ClaimsIn(log) == {x, y} && RetractionsIn(log) == {Unplaced(x, n)}
            && ResolutionsIn(log) == {} && EventsIn(log) == {}
  {
    var log := UntargetedLog(x, y, n);
    assert ClaimAdded(Id(n), 0, "", x) in log && ClaimAdded(Id(n + 1), 0, "", y) in log;
  }

  lemma NothingRetracted(log: set<Op>, registry: Registry, c: Claim)
    requires CollisionFree(log) && c in ClaimsIn(log)
    requires forall op :: op in RetractionsIn(log) ==> op.target.None? && op.targetRef.None?
    ensures c in ClaimsAt(StateOf(log, registry, UNSCOPED).activity.byKey, c.key)
  {
    var claims, inactive := RecordsOf(log).claims, InactiveIds(RecordsOf(log).claims, RetractionsIn(log), registry);
    RecordsWellFiled(log);
    ActivityOfState(log, registry, UNSCOPED);
    ByIdEntry(ClaimsIn(log), ClaimId, c.id);
    assert TargetPairs(RetractionsIn(log)) == {} && TargetRefPairs(RetractionsIn(log)) == {};
    ListedClaim(claims, inactive, UNSCOPED, c.key, c);
    hide StateOf;
    hide ById;
  }

  lemma UntargetedClash(x: Claim, y: Claim, n: int, registry: Registry)
    requires Incompatible(x, y, registry)
    ensures CollisionFree(UntargetedLog(x, y, n)) && Clashing(UntargetedLog(x, y, n), registry, x, y)
  {
    ClashBoth(x, y, registry);
    assert x.key == y.key;
    UntargetedKinds(x, y, n);
    hide UntargetedLog;
    hide CollisionFree;
    hide ClaimsIn;
    hide RetractionsIn;
    hide StateOf;
    hide Incompatible;
    NothingRetracted(UntargetedLog(x, y, n), registry, x);
    NothingRetracted(UntargetedLog(x, y, n), registry, y);
  }

  /** The two views differ at a key, in whatever order the findings are listed. */
  ghost predicate ViewsDiffer(h: Heuristic, s: MemoryState, t: MemoryState, registry: Registry, scope: Option<Name>, key: ClaimKey) {
    forall before, after, listed, relisted ::
      IsView(before, s, registry, scope, Some(HeuristicOf(h, s)), listed) && IsView(after, t, registry, scope, Some(HeuristicOf(h, t)), relisted)
      ==> key !in before.choices.provisional && key in after.choices.provisional
  }

  lemma SuggestedDiffer(h: Heuristic, s: MemoryState, t: MemoryState, registry: Registry, scope: Option<Name>, key: ClaimKey)
    requires NothingCommitted(s, scope) && NothingCommitted(t, scope)
    requires key in t.activity.byKey && t.activity.byKey[key] != [] && KeyConflicts(t, key) != []
    requires key in s.activity.byKey && s.activity.byKey[key] != [] && KeyConflicts(s, key) != []
    requires Suggested(KeyConflicts(s, key)[0], Some(HeuristicOf(h, s))).None?
    requires Suggested(KeyConflicts(t, key)[0], Some(HeuristicOf(h, t))).Some?
    ensures ViewsDiffer(h, s, t, registry, scope, key)
  {
    hide NothingCommitted;
    hide KeyConflicts;
    hide Suggested;
    hide HeuristicOf;
    hide IsView;
    forall before, after, listed, relisted |
      IsView(before, s, registry, scope, Some(HeuristicOf(h, s)), listed) && IsView(after, t, registry, scope, Some(HeuristicOf(h, t)), relisted)
      ensures key !in before.choices.provisional && key in after.choices.provisional
    {
      ProvisionalIfSuggested(before, s, registry, scope, Some(HeuristicOf(h, s)), listed, key);
      ProvisionalIfSuggested(after, t, registry, scope, Some(HeuristicOf(h, t)), relisted, key);
    }
  }

  /** On that log the compacted log drops the retraction, some heuristic suggests a claim on the
      original only, and the two views differ, for every scope. */
  lemma UntargetedReplacementChangesView(x: Claim, y: Claim, n: int, registry: Registry, scope: Option<Name>) returns (h: Heuristic)
    requires Incompatible(x, y, registry)
    ensures var log := UntargetedLog(x, y, n);
            CollisionFree(log) && UniqueOps(log)
            && ViewsDiffer(h, StateOf(Compacted(log, registry), registry, UNSCOPED), StateOf(log, registry, UNSCOPED), registry, scope, x.key)
  {
    var log := UntargetedLog(x, y, n);
    ClashBoth(x, y, registry);
    UntargetedKinds(x, y, n);
    assert Unplaced(x, n) in log && !ReplacementsTargeted(log, x.id);
    hide UntargetedLog;
    hide ReplacementsTargeted;
    hide CollisionFree;
    hide UniqueOps;
    hide Compacted;
    hide StateOf;
    hide Incompatible;
    hide Clashing;
    hide ViewsDiffer;
    hide NothingCommitted;
    hide KeyConflicts;
    hide Suggested;
    hide HeuristicOf;
    UntargetedClash(x, y, n, registry);
    h := SuggestsDifferently(log, registry, x, y, scope);
    SuggestedDiffer(h, StateOf(Compacted(log, registry), registry, UNSCOPED), StateOf(log, registry, UNSCOPED), registry, scope, x.key);
  }

  /** A clash whose candidate is named as a replacement without a target: some heuristic tells the
      compacted log from the original. */
  lemma SuggestsDifferently(log: set<Op>, registry: Registry, x: Claim, y: Claim, scope: Option<Name>) returns (h: Heuristic)
    requires CollisionFree(log) && UniqueOps(log) && ResolutionsIn(log) == {} && EventsIn(log) == {}
    requires Clashing(log, registry, x, y) && !ReplacementsTargeted(log, x.id)
    ensures var s, t := StateOf(Compacted(log, registry), registry, UNSCOPED), StateOf(log, registry, UNSCOPED);
            NothingCommitted(s, scope) && NothingCommitted(t, scope)
            && x.key in t.activity.byKey && t.activity.byKey[x.key] != [] && KeyConflicts(t, x.key) != []
            && x.key in s.activity.byKey && s.activity.byKey[x.key] != [] && KeyConflicts(s, x.key) != []
            && Suggested(KeyConflicts(s, x.key)[0], Some(HeuristicOf(h, s))).None?
            && Suggested(KeyConflicts(t, x.key)[0], Some(HeuristicOf(h, t))).Some?
  {
    var s, t := StateOf(Compacted(log, registry), registry, UNSCOPED), StateOf(log, registry, UNSCOPED);
    hide StateOf;
    hide Compacted;
    hide CollisionFree;
    hide UniqueOps;
    hide Clashing;
    hide NothingCommitted;
    hide CandidateFactsOf;
    hide IsLive;
    hide RecordsOf;
    hide ReplacementsTargeted;
    hide Suggested;
    NothingCommittedEither(log, registry, scope);
    CompactionEquivalent(log, registry, UNSCOPED);
    ClashIsAsked(log, registry, x, y);
    CandidatesAreLive(log, registry, UNSCOPED, x.key, x);
    ResolverFactsKept(log, registry, UNSCOPED, x);
    h := FactsTell(s, t, KeyConflicts(t, x.key)[0], x);
    SameAsked(s, t, x.key);
  }

  lemma SameAsked(s: MemoryState, t: MemoryState, key: ClaimKey)
    requires s.findings == t.findings
    ensures KeyConflicts(s, key) == KeyConflicts(t, key)
  {
  }

  lemma NothingCommittedEither(log: set<Op>, registry: Registry, scope: Option<Name>)
    requires CollisionFree(log) && ResolutionsIn(log) == {} && EventsIn(log) == {}
    ensures NothingCommitted(StateOf(Compacted(log, registry), registry, UNSCOPED), scope)
    ensures NothingCommitted(StateOf(log, registry, UNSCOPED), scope)
  {
    var small := Compacted(log, registry);
    CompactedSmaller(log, registry);
    assert ResolutionsIn(small) == {} && EventsIn(small) == {};
    hide Compacted;
    hide CollisionFree;
    hide NothingCommitted;
    hide StateOf;
    CollisionFreeSubset(small, log);
    NothingRecorded(log, registry, scope);
    NothingRecorded(small, registry, scope);
  }

  lemma FactsTell(s: MemoryState, t: MemoryState, c: ConflictSet, x: Claim) returns (h: Heuristic)
    requires x in c.candidates && CandidateFactsOf(s, x) != CandidateFactsOf(t, x)
    ensures Suggested(c, Some(HeuristicOf(h, s))).None? && Suggested(c, Some(HeuristicOf(h, t))).Some?
  {
    hide CandidateFactsOf;
    var i :| 0 <= i < |c.candidates| && c.candidates[i] == x;
    FactsListed(s, c.candidates, i);
    FactsListed(t, c.candidates, i);
    RecognisesOnly(s, t, c);
    h := Recognising(FactsOfCandidates(t, c.candidates));
  }
}
