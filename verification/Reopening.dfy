/** New evidence reopens a settled conflict: what one more incompatible claim does to a lane. */
module Reopening {
  import opened Basics
  import opened Model
  import opened ConflictIndex
  import opened Findings
  import opened Lifecycle
  import opened Records
  import opened State
  import opened Tables
  import opened Refold
  import opened Scopes
  import opened Compaction
  import opened Equivalence

  // ---------------------------------------------------------------- an incompatible pair is a finding

  /** The pair scan compares two claims of one key with the smaller identifier on the left. */
  ghost predicate Incompatible(x: Claim, y: Claim, registry: Registry) {
    x.key == y.key && x.id != y.id
    && if x.id.n < y.id.n then Conflicting(x, y, registry) else Conflicting(y, x, registry)
  }

  ghost function DirectRefOf(key: ClaimKey): ConflictRef { DirectRef(DIRECT_CONFLICT_TYPE, key) }

  lemma ParticipantIsCandidate(key: ClaimKey, claims: map<Id, Claim>, facts: Facts, registry: Registry, id: Id)
    requires id in Participants(PairSet(claims, registry))
    ensures id in claims && FindingOf(key, claims, facts, registry).Some?
    ensures claims[id] in FindingOf(key, claims, facts, registry).value.candidates
  {
    var ps := PairSet(claims, registry);
    PairSetKnown(claims, registry);
    hide PairSet;
    ParticipantsKnown(claims, ps);
    var ids := SortedIds(Participants(ps));
    assert id in Elements(ids);
    var i :| 0 <= i < |ids| && ids[i] == id;
    assert ClaimsOf(claims, ids)[i] == claims[id];
    hide AnnotationsFor;
    hide DistinctValues;
    hide WitnessList;
  }

  lemma PairIsCandidate(key: ClaimKey, listed: seq<Claim>, facts: Facts, registry: Registry, x: Claim, y: Claim)
    requires StrictlySorted(listed, ClaimRank) && x in listed && y in listed && Incompatible(x, y, registry)
    ensures FindingOf(key, ByClaimId(listed), facts, registry).Some?
    ensures x in FindingOf(key, ByClaimId(listed), facts, registry).value.candidates
  {
    ByClaimIdProperties(listed);
    var claims := ByClaimId(listed);
    var p := if x.id.n < y.id.n then IdPair(x.id, y.id) else IdPair(y.id, x.id);
    hide FindingOf;
    hide ByClaimId;
    PairSetMember(claims, registry, p);
    assert p in PairSet(claims, registry);
    hide PairSet;
    hide Conflicting;
    ParticipantIsCandidate(key, claims, facts, registry, x.id);
  }

  lemma TableEntry(byKey: map<ClaimKey, seq<Claim>>, facts: Facts, registry: Registry, key: ClaimKey)
    requires ListsByKey(byKey) && HasFinding(byKey, key, facts, registry) && key in byKey
    ensures var t := TablesOf(FindingSet(byKey, facts, registry));
            DirectRefOf(key) in t.byRef && t.byRef[DirectRefOf(key)] == FindingAt(byKey, key, facts, registry).value
  {
    FindingsInjective(byKey, byKey.Keys, facts, registry);
    FindingAtIdentity(byKey, key, facts, registry);
    hide FindingAt;
    var cs := FindingSet(byKey, facts, registry);
    ByIdEntry(cs, ConflictRefOf, DirectRefOf(key));
  }

  /** Two incompatible active claims stand as candidates of their key's finding. */
  lemma IncompatibleAreCandidates(log: set<Op>, registry: Registry, w: Window, x: Claim, y: Claim)
    requires CollisionFree(log)
    requires var listed := ClaimsAt(StateOf(log, registry, w).activity.byKey, x.key); x in listed && y in listed
    requires Incompatible(x, y, registry)
    ensures var byRef := StateOf(log, registry, w).findings.byRef;
            DirectRefOf(x.key) in byRef && x in byRef[DirectRefOf(x.key)].candidates
  {
    var s := StateOf(log, registry, w);
    StateLists(log, registry, w);
    StateFields(log, registry, w);
    hide StateOf;
    hide RecordsOf;
    hide CollisionFree;
    hide Incompatible;
    var byKey, facts := s.activity.byKey, FactsOf(RecordsOf(log));
    PairIsCandidate(x.key, ClaimsAt(byKey, x.key), facts, registry, x, y);
    hide FindingOf;
    TableEntry(byKey, facts, registry, x.key);
  }

  lemma StateLists(log: set<Op>, registry: Registry, w: Window)
    requires CollisionFree(log)
    ensures ListsByKey(StateOf(log, registry, w).activity.byKey)
  {
    RecordsWellFiled(log);
    ActivityOfState(log, registry, w);
    hide StateOf;
    hide RecordsOf;
    hide InactiveIds;
    ActivityLists(RecordsOf(log).claims, InactiveIds(RecordsOf(log).claims, RetractionsIn(log), registry), w);
  }

  // ---------------------------------------------------------------- a lane nobody writes to

  /** No operation resolves or reports on the lane. */
  ghost predicate LeavesLane(ops: set<Op>, lane: Lane) {
    forall op :: op in ops ==>
      (op.ResolutionAdded? ==> LaneOfResolution(op.resolution) != lane)
      && (op.LifecycleEventAdded? ==> LaneOfEvent(op.event) != lane)
  }

  /** The lane's own records are the same in both tables. */
  ghost predicate SameOnLane(a: Records, b: Records, lane: Lane) {
    && (forall x: Resolution :: LaneOfResolution(x) == lane ==>
          (x.id in a.resolutions && a.resolutions[x.id] == x <==> x.id in b.resolutions && b.resolutions[x.id] == x))
    && (forall x: Event :: LaneOfEvent(x) == lane ==>
          (x.id in a.events && a.events[x.id] == x <==> x.id in b.events && b.events[x.id] == x))
  }

  lemma LaneLeft(log: set<Op>, more: set<Op>, lane: Lane)
    requires CollisionFree(log + more) && LeavesLane(more, lane)
    ensures SameOnLane(RecordsOf(log), RecordsOf(log + more), lane)
  {
    CollisionFreeSubset(log, log + more);
    forall x: Resolution | LaneOfResolution(x) == lane
      ensures x in ResolutionsIn(log) <==> x in ResolutionsIn(log + more)
    {
      if x in ResolutionsIn(log) {
        var op :| op in log && op.ResolutionAdded? && op.resolution == x;
        assert op in log + more;
      }
    }
    forall x: Event | LaneOfEvent(x) == lane
      ensures x in EventsIn(log) <==> x in EventsIn(log + more)
    {
      if x in EventsIn(log) {
        var op :| op in log && op.LifecycleEventAdded? && op.event == x;
        assert op in log + more;
      }
    }
    hide ById;
    hide ResolutionsIn;
    hide EventsIn;
    forall x: Resolution { StoredIffMember(ResolutionsIn(log), ResolutionId, x); }
    forall x: Resolution { StoredIffMember(ResolutionsIn(log + more), ResolutionId, x); }
    forall x: Event { StoredIffMember(EventsIn(log), EventId, x); }
    forall x: Event { StoredIffMember(EventsIn(log + more), EventId, x); }
  }

  lemma StoredIffMember<T(!new)>(s: set<T>, id: T -> Id, x: T)
    requires Injective(s, id)
    ensures id(x) in ById(s, id) && ById(s, id)[id(x)] == x <==> x in s
  {
    ByIdEntry(s, id, id(x));
  }

  lemma LaneHistoriesLeft(a: Records, b: Records, lane: Lane)
    requires WellFiled(a) && WellFiled(b) && SameOnLane(a, b, lane)
    ensures LaneHistory(HistoriesOf(a).resolutionLanes, lane) == LaneHistory(HistoriesOf(b).resolutionLanes, lane)
    ensures LaneHistory(HistoriesOf(a).eventLanes, lane) == LaneHistory(HistoriesOf(b).eventLanes, lane)
    ensures SameLaneRecords(a.resolutions, b.resolutions, lane)
  {
    hide Listings;
    ResolutionLaneAt(a.resolutions, lane);
    ResolutionLaneAt(b.resolutions, lane);
    EventLaneAt(a.events, lane);
    EventLaneAt(b.events, lane);
    var s, t := LaneHistory(HistoriesOf(a).resolutionLanes, lane), LaneHistory(HistoriesOf(b).resolutionLanes, lane);
    assert Elements(s) == Elements(t);
    StrictlySortedUnique(s, t, ResolutionRank);
    var u, v := LaneHistory(HistoriesOf(a).eventLanes, lane), LaneHistory(HistoriesOf(b).eventLanes, lane);
    assert Elements(u) == Elements(v);
    StrictlySortedUnique(u, v, EventRank);
  }

  /** Replaying a lane does not look at conflicts, so its active resolution stays. */
  lemma ActiveStays(a: Inputs, b: Inputs, lane: Lane)
    requires Filed(a) && a.at == b.at
    requires LaneHistory(a.resolutionLanes, lane) == LaneHistory(b.resolutionLanes, lane)
    requires LaneHistory(a.eventLanes, lane) == LaneHistory(b.eventLanes, lane)
    requires SameLaneRecords(a.resolutions, b.resolutions, lane)
    ensures ActiveAt(a, lane) == ActiveAt(b, lane)
  {
    LaneIsLocal(a.(conflicts := map[]), b.(conflicts := map[]), lane);
    assert ActiveAt(a, lane) == ActiveAt(a.(conflicts := map[]), lane);
    assert ActiveAt(b, lane) == ActiveAt(b.(conflicts := map[]), lane);
  }

  lemma ActiveKept(log: set<Op>, more: set<Op>, registry: Registry, w: Window, lane: Lane)
    requires CollisionFree(log + more) && LeavesLane(more, lane)
    requires lane in StateOf(log, registry, w).lifecycle.active
    ensures var s, t := StateOf(log, registry, w), StateOf(log + more, registry, w);
            lane in t.lifecycle.active && t.lifecycle.active[lane] == s.lifecycle.active[lane]
  {
    CollisionFreeSubset(log, log + more);
    RecordsWellFiled(log);
    RecordsWellFiled(log + more);
    LaneLeft(log, more, lane);
    StateParts(log, registry, w);
    StateParts(log + more, registry, w);
    var s, t := StateOf(log, registry, w), StateOf(log + more, registry, w);
    hide StateOf;
    hide CollisionFree;
    hide LeavesLane;
    var a, b := RecordsOf(log), RecordsOf(log + more);
    hide RecordsOf;
    hide SameOnLane;
    LaneHistoriesLeft(a, b, lane);
    EventsAreFiled(a, s.findings.byRef, w.at);
    hide WellFiled;
    hide HistoriesOf;
    hide Filed;
    hide LaneReplay;
    var i, j := FoldInputs(a, HistoriesOf(a), s.findings.byRef, w.at), FoldInputs(b, HistoriesOf(b), t.findings.byRef, w.at);
    ActiveStays(i, j, lane);
    hide ActiveAt;
    FoldMatches(i, lane);
    FoldMatches(j, lane);
    hide FoldOf;
  }

  /** Whenever an unclassified claim joins an incompatible pair under an active resolution, and
      nothing else is said on the lane, the lane is left reopened: the resolution stays active but is
      no longer effective. This holds for every log, every batch, every scope and every instant. */
  lemma NewClaimReopens(log: set<Op>, more: set<Op>, registry: Registry, w: Window, scope: Option<Name>, x: Claim, y: Claim)
    requires CollisionFree(log + more)
    requires var lane := Lane(DirectRefOf(x.key), scope);
             LeavesLane(more, lane) && lane in StateOf(log, registry, w).lifecycle.active
             && x.id !in StateOf(log, registry, w).lifecycle.active[lane].Classified()
    requires var listed := ClaimsAt(StateOf(log + more, registry, w).activity.byKey, x.key); x in listed && y in listed
    requires Incompatible(x, y, registry)
    ensures var lane, s, t := Lane(DirectRefOf(x.key), scope), StateOf(log, registry, w), StateOf(log + more, registry, w);
            lane in t.lifecycle.statuses && t.lifecycle.statuses[lane] == Reopened
            && lane !in t.lifecycle.effective
            && lane in t.lifecycle.active && t.lifecycle.active[lane] == s.lifecycle.active[lane]
  {
    var lane := Lane(DirectRefOf(x.key), scope);
    var t := StateOf(log + more, registry, w);
    ActiveKept(log, more, registry, w, lane);
    IncompatibleAreCandidates(log + more, registry, w, x, y);
    StateParts(log + more, registry, w);
    hide StateOf;
    hide CollisionFree;
    hide LeavesLane;
    hide Incompatible;
    hide HistoriesOf;
    hide RecordsOf;
    hide FoldOf;
    var inputs := FoldInputs(RecordsOf(log + more), HistoriesOf(RecordsOf(log + more)), t.findings.byRef, w.at);
    UnclassifiedReopens(inputs, lane, x);
  }
}
