/** The materialized state as a function of the operations: what `materialize` must compute and
    what the incremental path must keep equal to it. Identifier tuples the program keeps sorted are
    sets here; lists whose order matters are sequences. */
module State {
  import opened Basics
  import opened Model
  import opened Applicability
  import opened ConflictIndex
  import opened Findings
  import opened Lifecycle
  import opened Records

  /** The instant and context a scoped materialization is asked for. */
  datatype Window = Window(at: Option<Time>, context: Option<Context>)

  const UNSCOPED := Window(None, None)

  // ---------------------------------------------------------------- cross-indexes

  datatype Links = Links(
    claimRefs: map<Id, ClaimRef>,
    idsByRef: map<ClaimRef, set<Id>>,
    claimsByEvidence: map<Id, set<Id>>,
    claimsByDerivation: map<Id, set<Id>>,
    evidenceBySource: map<Id, set<Id>>,
    resolutionsByClaim: map<Id, set<Id>>)

  ghost function RefMap(claims: map<Id, Claim>, registry: Registry): map<Id, ClaimRef> {
    map id | id in claims :: registry.ClaimRefFor(claims[id])
  }

  ghost function RefPairs(claims: map<Id, Claim>, registry: Registry): set<(ClaimRef, Id)> {
    set id | id in claims :: (registry.ClaimRefFor(claims[id]), id)
  }

  ghost function EvidencePairs(claims: map<Id, Claim>): set<(Id, Id)> {
    set id, e | id in claims && e in claims[id].evidenceIds :: (e, id)
  }

  ghost function DerivationPairs(claims: map<Id, Claim>): set<(Id, Id)> {
    set id | id in claims && claims[id].derivationId.Some? :: (claims[id].derivationId.value, id)
  }

  ghost function SourcePairs(evidence: map<Id, Evidence>): set<(Id, Id)> {
    set id | id in evidence && evidence[id].sourceId.Some? :: (evidence[id].sourceId.value, id)
  }

  ghost function ClassifiedPairs(resolutions: map<Id, Resolution>): set<(Id, Id)> {
    set id, c | id in resolutions && c in resolutions[id].Classified() :: (c, id)
  }

  ghost function LinksOf(r: Records, registry: Registry): Links {
    Links(RefMap(r.claims, registry), Group(RefPairs(r.claims, registry)), Group(EvidencePairs(r.claims)),
          Group(DerivationPairs(r.claims)), Group(SourcePairs(r.evidence)), Group(ClassifiedPairs(r.resolutions)))
  }

  // ---------------------------------------------------------------- retractions

  datatype Retractions = Retractions(
    byTarget: map<Id, seq<Op>>,
    byTargetRef: map<ClaimRef, seq<Op>>,
    bySuperseder: map<Id, seq<Op>>,
    bySupersederRef: map<ClaimRef, seq<Op>>)

  ghost function TargetPairs(rs: set<Op>): set<(Id, Op)> {
    set op | op in rs && op.ClaimRetracted? && op.target.Some? :: (op.target.value, op)
  }

  ghost function TargetRefPairs(rs: set<Op>): set<(ClaimRef, Op)> {
    set op | op in rs && op.ClaimRetracted? && op.targetRef.Some? :: (op.targetRef.value, op)
  }

  ghost function SupersederPairs(rs: set<Op>): set<(Id, Op)> {
    set op | op in rs && op.ClaimRetracted? && op.superseder.Some? :: (op.superseder.value, op)
  }

  ghost function SupersederRefPairs(rs: set<Op>): set<(ClaimRef, Op)> {
    set op | op in rs && op.ClaimRetracted? && op.supersederRef.Some? :: (op.supersederRef.value, op)
  }

  ghost function RetractionsOf(rs: set<Op>): Retractions {
    Retractions(Listings(TargetPairs(rs), RetractionRank), Listings(TargetRefPairs(rs), RetractionRank),
                Listings(SupersederPairs(rs), RetractionRank), Listings(SupersederRefPairs(rs), RetractionRank))
  }

  // ---------------------------------------------------------------- active claims

  datatype Activity = Activity(inactive: set<Id>, inapplicable: set<Id>, byKey: map<ClaimKey, seq<Claim>>)

  ghost predicate HasRefIn(claims: map<Id, Claim>, refs: set<ClaimRef>, registry: Registry, id: Id) {
    id in claims && registry.ClaimRefFor(claims[id]) in refs
  }

  ghost function IdsWithRef(claims: map<Id, Claim>, refs: set<ClaimRef>, registry: Registry): set<Id> {
    set id | id in claims && HasRefIn(claims, refs, registry, id)
  }

  /** Claims named by a retraction, directly or through their reference; unknown targets count. */
  ghost function InactiveIds(claims: map<Id, Claim>, rs: set<Op>, registry: Registry): set<Id> {
    Firsts(TargetPairs(rs)) + IdsWithRef(claims, Firsts(TargetRefPairs(rs)), registry)
  }

  ghost predicate Applies(claim: Claim, w: Window) { ClaimApplies(claim, w.at, w.context) }

  ghost function InapplicableIds(claims: map<Id, Claim>, inactive: set<Id>, w: Window): set<Id> {
    set id | id in claims && id !in inactive && !Applies(claims[id], w)
  }

  ghost predicate IsActiveClaim(claims: map<Id, Claim>, inactive: set<Id>, w: Window, id: Id) {
    id in claims && id !in inactive && Applies(claims[id], w)
  }

  ghost function ActivePairs(claims: map<Id, Claim>, inactive: set<Id>, w: Window): set<(ClaimKey, Claim)> {
    set id | id in claims && IsActiveClaim(claims, inactive, w, id) :: (claims[id].key, claims[id])
  }

  ghost function ActivityOf(claims: map<Id, Claim>, inactive: set<Id>, w: Window): Activity {
    Activity(inactive, InapplicableIds(claims, inactive, w), Listings(ActivePairs(claims, inactive, w), ClaimRank))
  }

  // ---------------------------------------------------------------- histories

  datatype Histories = Histories(
    resolutionsByRef: map<ConflictRef, seq<Resolution>>,
    resolutionLanes: map<Lane, seq<Resolution>>,
    eventsByRef: map<ConflictRef, seq<Event>>,
    eventLanes: map<Lane, seq<Event>>)

  ghost function ResolutionRefPairs(rs: map<Id, Resolution>): set<(ConflictRef, Resolution)> {
    set id | id in rs :: (rs[id].conflictRef, rs[id])
  }

  ghost function ResolutionLanePairs(rs: map<Id, Resolution>): set<(Lane, Resolution)> {
    set id | id in rs :: (LaneOfResolution(rs[id]), rs[id])
  }

  ghost function EventRefPairs(es: map<Id, Event>): set<(ConflictRef, Event)> {
    set id | id in es :: (es[id].conflictRef, es[id])
  }

  ghost function EventLanePairs(es: map<Id, Event>): set<(Lane, Event)> {
    set id | id in es :: (LaneOfEvent(es[id]), es[id])
  }

  ghost function HistoriesOf(r: Records): Histories {
    Histories(Listings(ResolutionRefPairs(r.resolutions), ResolutionRank),
              Listings(ResolutionLanePairs(r.resolutions), ResolutionRank),
              Listings(EventRefPairs(r.events), EventRank),
              Listings(EventLanePairs(r.events), EventRank))
  }

  // ---------------------------------------------------------------- findings

  datatype FindingTables = FindingTables(
    byId: map<ConflictId, ConflictSet>,
    byRef: map<ConflictRef, ConflictSet>,
    byKey: map<ClaimKey, seq<ConflictSet>>)

  function FactsOf(r: Records): Facts { Facts(r.evidence, r.sources, r.derivations) }

  /** The active claims of one key; empty for a key that has none. */
  function ClaimsAt(byKey: map<ClaimKey, seq<Claim>>, key: ClaimKey): seq<Claim> {
    if key in byKey then byKey[key] else []
  }

  ghost function FindingAt(byKey: map<ClaimKey, seq<Claim>>, key: ClaimKey, facts: Facts, registry: Registry)
    : Option<ConflictSet>
  {
    FindingOf(key, ByClaimId(ClaimsAt(byKey, key)), facts, registry)
  }

  ghost predicate HasFinding(byKey: map<ClaimKey, seq<Claim>>, key: ClaimKey, facts: Facts, registry: Registry) {
    FindingAt(byKey, key, facts, registry).Some?
  }

  ghost function FindingsAmong(byKey: map<ClaimKey, seq<Claim>>, keys: set<ClaimKey>, facts: Facts, registry: Registry)
    : set<ConflictSet>
  {
    set key | key in keys && HasFinding(byKey, key, facts, registry) :: FindingAt(byKey, key, facts, registry).value
  }

  ghost function FindingSet(byKey: map<ClaimKey, seq<Claim>>, facts: Facts, registry: Registry): set<ConflictSet> {
    FindingsAmong(byKey, byKey.Keys, facts, registry)
  }

  function ConflictIdOf(c: ConflictSet): ConflictId { c.id }
  function ConflictRefOf(c: ConflictSet): ConflictRef { c.ref }
  function ConflictKeyOf(c: ConflictSet): ClaimKey { c.key }

  ghost function Singletons(m: map<ClaimKey, ConflictSet>): map<ClaimKey, seq<ConflictSet>> {
    map key | key in m :: [m[key]]
  }

  ghost function TablesOf(cs: set<ConflictSet>): FindingTables {
    FindingTables(ById(cs, ConflictIdOf), ById(cs, ConflictRefOf), Singletons(ById(cs, ConflictKeyOf)))
  }

  ghost function IndexesOf(byKey: map<ClaimKey, seq<Claim>>, registry: Registry): map<ClaimKey, Index> {
    map key | key in byKey :: IndexOf(ByClaimId(byKey[key]), registry)
  }

  // ---------------------------------------------------------------- the whole state

  datatype MemoryState = MemoryState(
    records: Records,
    links: Links,
    retractions: Retractions,
    activity: Activity,
    histories: Histories,
    findings: FindingTables,
    indexes: map<ClaimKey, Index>,
    lifecycle: Lifecycle)

  function FoldInputs(r: Records, h: Histories, byRef: map<ConflictRef, ConflictSet>, at: Option<Time>): Inputs {
    Inputs(r.resolutions, h.resolutionLanes, h.eventLanes, byRef, at)
  }

  ghost function Derive(r: Records, rs: set<Op>, registry: Registry, w: Window): MemoryState {
    var activity := ActivityOf(r.claims, InactiveIds(r.claims, rs, registry), w);
    var findings := TablesOf(FindingSet(activity.byKey, FactsOf(r), registry));
    var histories := HistoriesOf(r);
    MemoryState(r, LinksOf(r, registry), RetractionsOf(rs), activity, histories, findings,
                IndexesOf(activity.byKey, registry), FoldOf(FoldInputs(r, histories, findings.byRef, w.at)))
  }

  /** The state full materialization gives for a set of operations. */
  ghost function StateOf(ops: set<Op>, registry: Registry, w: Window): MemoryState {
    Derive(RecordsOf(ops), RetractionsIn(ops), registry, w)
  }

  // ---------------------------------------------------------------- well-filed records

  ghost predicate ClaimsFiled(claims: map<Id, Claim>) { forall id :: id in claims ==> claims[id].id == id }

  ghost predicate EvidenceFiled(evidence: map<Id, Evidence>) { forall id :: id in evidence ==> evidence[id].id == id }

  ghost predicate ResolutionsFiled(rs: map<Id, Resolution>) { forall id :: id in rs ==> rs[id].id == id }

  ghost predicate EventsFiled(es: map<Id, Event>) { forall id :: id in es ==> es[id].id == id }

  /** Each table files a record under the record's own identifier. */
  ghost predicate WellFiled(r: Records) {
    ClaimsFiled(r.claims) && EvidenceFiled(r.evidence) && ResolutionsFiled(r.resolutions) && EventsFiled(r.events)
  }

  lemma RecordsWellFiled(ops: set<Op>)
    requires CollisionFree(ops)
    ensures WellFiled(RecordsOf(ops))
  {
    var r := RecordsOf(ops);
    forall id | id in r.claims ensures r.claims[id].id == id { ByIdValues(ClaimsIn(ops), ClaimId, id); }
    forall id | id in r.evidence ensures r.evidence[id].id == id { ByIdValues(EvidenceIn(ops), EvidenceId, id); }
    forall id | id in r.resolutions ensures r.resolutions[id].id == id { ByIdValues(ResolutionsIn(ops), ResolutionId, id); }
    forall id | id in r.events ensures r.events[id].id == id { ByIdValues(EventsIn(ops), EventId, id); }
  }
}
