/** The lists a state keeps of retractions, resolutions and events, its cross-indexes and its findings,
    told by the operations of the log. */
module LogHistories {
  import opened Basics
  import opened Model
  import opened Findings
  import opened Lifecycle
  import opened Records
  import opened State
  import opened Tables
  import opened Refold
  import opened Reported
  import opened Labelled
  import opened LogTables

  predicate Earlier(s: Time, a: Id, t: Time, b: Id) { s < t || (s == t && a.n < b.n) }

  // ---------------------------------------------------------------- retractions

  ghost predicate RetractionsInTime(ops: seq<Op>) {
    forall i, j :: 0 <= i < j < |ops| ==> Earlier(ops[i].timestamp, ops[i].opId, ops[j].timestamp, ops[j].opId)
  }

  ghost predicate Lists<K(!new), V(!new)>(m: map<K, seq<V>>, k: K, v: V) { k in m && v in m[k] }

  lemma ListsPair<K(!new), V(!new)>(pairs: set<(K, V)>, k: K, v: V, rank: V -> Rank)
    requires Distinct(Seconds(pairs), rank)
    ensures Lists(Listings(pairs, rank), k, v) <==> (k, v) in pairs
  {
    ListedAt(pairs, k, rank);
  }

  lemma ListSorted<K(!new), V(!new)>(pairs: set<(K, V)>, k: K, rank: V -> Rank)
    requires Distinct(Seconds(pairs), rank) && k in Listings(pairs, rank)
    ensures StrictlySorted(Listings(pairs, rank)[k], rank)
  {
    ListedAt(pairs, k, rank);
  }

  ghost predicate ListsPairs<K(!new)>(m: map<K, seq<Op>>, pairs: set<(K, Op)>) {
    && (forall k, op :: Lists(m, k, op) <==> (k, op) in pairs)
    && (forall k :: k in m ==> RetractionsInTime(m[k]))
  }

  lemma PairsListed<K(!new)>(pairs: set<(K, Op)>)
    requires Distinct(Seconds(pairs), RetractionRank)
    ensures ListsPairs(Listings(pairs, RetractionRank), pairs)
  {
    var m := Listings(pairs, RetractionRank);
    forall k, op ensures Lists(m, k, op) <==> (k, op) in pairs { ListsPair(pairs, k, op, RetractionRank); }
    forall k | k in m ensures RetractionsInTime(m[k]) {
      ListSorted(pairs, k, RetractionRank);
      hide Listings;
      forall i, j | 0 <= i < j < |m[k]| ensures Earlier(m[k][i].timestamp, m[k][i].opId, m[k][j].timestamp, m[k][j].opId) {
        assert Below(RetractionRank(m[k][i]), RetractionRank(m[k][j]));
      }
    }
  }

  lemma NamedMember(log: set<Op>, id: Id, ref: ClaimRef, op: Op)
    ensures (id, op) in TargetPairs(RetractionsIn(log)) <==> op in log && op.ClaimRetracted? && op.target == Some(id)
    ensures (id, op) in SupersederPairs(RetractionsIn(log)) <==> op in log && op.ClaimRetracted? && op.superseder == Some(id)
    ensures (ref, op) in TargetRefPairs(RetractionsIn(log)) <==> op in log && op.ClaimRetracted? && op.targetRef == Some(ref)
    ensures (ref, op) in SupersederRefPairs(RetractionsIn(log)) <==> op in log && op.ClaimRetracted? && op.supersederRef == Some(ref)
  {
  }

  /** The four lists of retractions: each holds exactly the retractions of the log that name its key,
      by time and then by identifier. */
  lemma RetractionsExactly(log: set<Op>, registry: Registry, w: Window)
    requires UniqueOps(log)
    ensures var r := StateOf(log, registry, w).retractions;
            (forall id, op :: Lists(r.byTarget, id, op) <==> op in log && op.ClaimRetracted? && op.target == Some(id))
            && (forall ref, op :: Lists(r.byTargetRef, ref, op) <==> op in log && op.ClaimRetracted? && op.targetRef == Some(ref))
            && (forall id, op :: Lists(r.bySuperseder, id, op) <==> op in log && op.ClaimRetracted? && op.superseder == Some(id))
            && (forall ref, op :: Lists(r.bySupersederRef, ref, op) <==> op in log && op.ClaimRetracted? && op.supersederRef == Some(ref))
    ensures var r := StateOf(log, registry, w).retractions;
            (forall id :: id in r.byTarget ==> RetractionsInTime(r.byTarget[id]))
            && (forall ref :: ref in r.byTargetRef ==> RetractionsInTime(r.byTargetRef[ref]))
            && (forall id :: id in r.bySuperseder ==> RetractionsInTime(r.bySuperseder[id]))
            && (forall ref :: ref in r.bySupersederRef ==> RetractionsInTime(r.bySupersederRef[ref]))
  {
    ActivityParts(log, registry, w);
    var rs := RetractionsIn(log);
    assert UniqueOps(rs);
    hide StateOf;
    RetractionsDistinct(rs);
    PairsListed(TargetPairs(rs));
    PairsListed(TargetRefPairs(rs));
    PairsListed(SupersederPairs(rs));
    PairsListed(SupersederRefPairs(rs));
    forall id, op { NamedMember(log, id, OtherClaimRef(0), op); }
    forall ref, op { NamedMember(log, Id(0), ref, op); }
    hide RetractionsIn;
    hide TargetPairs;
    hide TargetRefPairs;
    hide SupersederPairs;
    hide SupersederRefPairs;
    hide Lists;
    hide RetractionsInTime;
    hide Listings;
  }

  // ---------------------------------------------------------------- resolutions and events

  ghost predicate ResolutionRecorded(log: set<Op>, x: Resolution) { exists op :: op in log && op.ResolutionAdded? && op.resolution == x }

  ghost predicate EventRecorded(log: set<Op>, x: Event) { exists op :: op in log && op.LifecycleEventAdded? && op.event == x }

  lemma ResolutionStored(log: set<Op>, x: Resolution)
    requires CollisionFree(log)
    ensures x.id in RecordsOf(log).resolutions && RecordsOf(log).resolutions[x.id] == x <==> ResolutionRecorded(log, x)
  {
    ByIdEntry(ResolutionsIn(log), ResolutionId, x.id);
    assert x in ResolutionsIn(log) <==> ResolutionRecorded(log, x);
  }

  lemma EventStored(log: set<Op>, x: Event)
    requires CollisionFree(log)
    ensures x.id in RecordsOf(log).events && RecordsOf(log).events[x.id] == x <==> EventRecorded(log, x)
  {
    ByIdEntry(EventsIn(log), EventId, x.id);
    assert x in EventsIn(log) <==> EventRecorded(log, x);
  }

  ghost predicate ResolutionsInTime(xs: seq<Resolution>) {
    forall i, j :: 0 <= i < j < |xs| ==> Earlier(xs[i].timestamp, xs[i].id, xs[j].timestamp, xs[j].id)
  }

  ghost predicate EventsInTime(xs: seq<Event>) {
    forall i, j :: 0 <= i < j < |xs| ==> Earlier(xs[i].timestamp, xs[i].id, xs[j].timestamp, xs[j].id)
  }

  ghost predicate ResolutionsListed(h: Histories, log: set<Op>, lane: Lane) {
    && (forall x :: Lists(h.resolutionLanes, lane, x) <==> ResolutionRecorded(log, x) && x.conflictRef == lane.ref && x.scope == lane.scope)
    && (forall x :: Lists(h.resolutionsByRef, lane.ref, x) <==> ResolutionRecorded(log, x) && x.conflictRef == lane.ref)
    && (lane in h.resolutionLanes ==> ResolutionsInTime(h.resolutionLanes[lane]))
    && (lane.ref in h.resolutionsByRef ==> ResolutionsInTime(h.resolutionsByRef[lane.ref]))
  }

  ghost predicate EventsListed(h: Histories, log: set<Op>, lane: Lane) {
    && (forall x :: Lists(h.eventLanes, lane, x) <==> EventRecorded(log, x) && x.conflictRef == lane.ref && x.scope == lane.scope)
    && (forall x :: Lists(h.eventsByRef, lane.ref, x) <==> EventRecorded(log, x) && x.conflictRef == lane.ref)
    && (lane in h.eventLanes ==> EventsInTime(h.eventLanes[lane]))
    && (lane.ref in h.eventsByRef ==> EventsInTime(h.eventsByRef[lane.ref]))
  }

  /** A lane's and a reference's history: exactly the resolutions and events of the log that say so, by
      time and then by identifier. */
  lemma HistoriesExactly(log: set<Op>, registry: Registry, w: Window, lane: Lane)
    requires CollisionFree(log)
    ensures ResolutionsListed(StateOf(log, registry, w).histories, log, lane)
    ensures EventsListed(StateOf(log, registry, w).histories, log, lane)
  {
    hide ResolutionsListed;
    hide EventsListed;
    ActivityParts(log, registry, w);
    hide StateOf;
    ResolutionsOfLane(log, lane);
    EventsOfLane(log, lane);
  }

  lemma ResolutionsOfLane(log: set<Op>, lane: Lane)
    requires CollisionFree(log)
    ensures ResolutionsListed(HistoriesOf(RecordsOf(log)), log, lane)
  {
    RecordsWellFiled(log);
    var rs, h := RecordsOf(log).resolutions, HistoriesOf(RecordsOf(log));
    hide RecordsOf;
    hide CollisionFree;
    hide ResolutionRecorded;
    hide Listings;
    ResolutionLists(rs, lane);
    hide ResolutionsInTime;
    hide Lists;
    forall x ensures Lists(h.resolutionLanes, lane, x) <==> ResolutionRecorded(log, x) && x.conflictRef == lane.ref && x.scope == lane.scope {
      ResolutionStored(log, x);
    }
    forall x ensures Lists(h.resolutionsByRef, lane.ref, x) <==> ResolutionRecorded(log, x) && x.conflictRef == lane.ref {
      ResolutionStored(log, x);
    }
  }

  lemma EventsOfLane(log: set<Op>, lane: Lane)
    requires CollisionFree(log)
    ensures EventsListed(HistoriesOf(RecordsOf(log)), log, lane)
  {
    RecordsWellFiled(log);
    var es, h := RecordsOf(log).events, HistoriesOf(RecordsOf(log));
    hide RecordsOf;
    hide CollisionFree;
    hide EventRecorded;
    hide Listings;
    EventLists(es, lane);
    hide EventsInTime;
    hide Lists;
    forall x ensures Lists(h.eventLanes, lane, x) <==> EventRecorded(log, x) && x.conflictRef == lane.ref && x.scope == lane.scope {
      EventStored(log, x);
    }
    forall x ensures Lists(h.eventsByRef, lane.ref, x) <==> EventRecorded(log, x) && x.conflictRef == lane.ref {
      EventStored(log, x);
    }
  }

  lemma ResolutionLists(rs: map<Id, Resolution>, lane: Lane)
    requires ResolutionsFiled(rs)
    ensures var m, n := Listings(ResolutionLanePairs(rs), ResolutionRank), Listings(ResolutionRefPairs(rs), ResolutionRank);
            (forall x :: Lists(m, lane, x) <==> x.id in rs && rs[x.id] == x && x.conflictRef == lane.ref && x.scope == lane.scope)
            && (forall x :: Lists(n, lane.ref, x) <==> x.id in rs && rs[x.id] == x && x.conflictRef == lane.ref)
            && (lane in m ==> ResolutionsInTime(m[lane])) && (lane.ref in n ==> ResolutionsInTime(n[lane.ref]))
  {
    ResolutionLaneAt(rs, lane);
    ResolutionHistoryAt(rs, lane.ref);
    hide Listings;
    hide ResolutionLanePairs;
    hide ResolutionRefPairs;
    ResolutionsSorted(LaneHistory(Listings(ResolutionLanePairs(rs), ResolutionRank), lane));
    ResolutionsSorted(HistoryAt(Listings(ResolutionRefPairs(rs), ResolutionRank), lane.ref));
    hide ResolutionsInTime;
    hide StrictlySorted;
  }

  lemma ResolutionsSorted(xs: seq<Resolution>)
    requires StrictlySorted(xs, ResolutionRank)
    ensures ResolutionsInTime(xs)
  {
    forall i, j | 0 <= i < j < |xs| ensures Earlier(xs[i].timestamp, xs[i].id, xs[j].timestamp, xs[j].id) {
      assert Below(ResolutionRank(xs[i]), ResolutionRank(xs[j]));
    }
  }

  lemma EventLists(es: map<Id, Event>, lane: Lane)
    requires EventsFiled(es)
    ensures var m, n := Listings(EventLanePairs(es), EventRank), Listings(EventRefPairs(es), EventRank);
            (forall x :: Lists(m, lane, x) <==> x.id in es && es[x.id] == x && x.conflictRef == lane.ref && x.scope == lane.scope)
            && (forall x :: Lists(n, lane.ref, x) <==> x.id in es && es[x.id] == x && x.conflictRef == lane.ref)
            && (lane in m ==> EventsInTime(m[lane])) && (lane.ref in n ==> EventsInTime(n[lane.ref]))
  {
    EventLaneAt(es, lane);
    EventHistoryAt(es, lane.ref);
    hide Listings;
    hide EventLanePairs;
    hide EventRefPairs;
    EventsSorted(LaneHistory(Listings(EventLanePairs(es), EventRank), lane));
    EventsSorted(HistoryAt(Listings(EventRefPairs(es), EventRank), lane.ref));
    hide EventsInTime;
    hide StrictlySorted;
  }

  lemma EventsSorted(xs: seq<Event>)
    requires StrictlySorted(xs, EventRank)
    ensures EventsInTime(xs)
  {
    forall i, j | 0 <= i < j < |xs| ensures Earlier(xs[i].timestamp, xs[i].id, xs[j].timestamp, xs[j].id) {
      assert Below(EventRank(xs[i]), EventRank(xs[j]));
    }
  }

  // ---------------------------------------------------------------- cross-indexes

  ghost predicate Files<K(!new)>(m: map<K, set<Id>>, k: K, id: Id) { k in m && id in m[k] }

  /** The reference of a claim, and the claims that cite, are derived by, and are classified, in the
      tables of a state. */
  ghost predicate Linked(links: Links, r: Records, rules: map<Name, Rule>) {
    && (forall id :: id in r.claims ==> id in links.claimRefs && ReferenceIs(links.claimRefs[id], r.claims[id], rules))
    && (forall e, id :: Files(links.claimsByEvidence, e, id) <==> id in r.claims && e in r.claims[id].evidenceIds)
    && (forall d, id :: Files(links.claimsByDerivation, d, id) <==> id in r.claims && r.claims[id].derivationId == Some(d))
    && (forall x, id :: Files(links.evidenceBySource, x, id) <==> id in r.evidence && r.evidence[id].sourceId == Some(x))
    && (forall c, id :: Files(links.resolutionsByClaim, c, id) <==>
          id in r.resolutions && (c in r.resolutions[id].selected || c in r.resolutions[id].rejected || c in r.resolutions[id].retained))
  }

  ghost predicate ReferenceIs(ref: ClaimRef, c: Claim, rules: map<Name, Rule>) {
    ref == RefOf(c.key, ReferredValue(c, rules), c.kind, c.context)
  }

  lemma GroupFiles<K(!new)>(pairs: set<(K, Id)>, k: K, id: Id)
    ensures Files(Group(pairs), k, id) <==> (k, id) in pairs
  {
    GroupLookup(pairs, k, id);
  }

  lemma LinksOfRecords(r: Records, registry: Registry)
    ensures Linked(LinksOf(r, registry), r, registry.rules)
  {
    var links := LinksOf(r, registry);
    forall id | id in r.claims ensures ReferenceIs(links.claimRefs[id], r.claims[id], registry.rules) { RefExactly(r.claims[id], registry); }
    forall e, id ensures Files(links.claimsByEvidence, e, id) <==> id in r.claims && e in r.claims[id].evidenceIds {
      GroupFiles(EvidencePairs(r.claims), e, id);
    }
    forall d, id ensures Files(links.claimsByDerivation, d, id) <==> id in r.claims && r.claims[id].derivationId == Some(d) {
      GroupFiles(DerivationPairs(r.claims), d, id);
    }
    forall x, id ensures Files(links.evidenceBySource, x, id) <==> id in r.evidence && r.evidence[id].sourceId == Some(x) {
      GroupFiles(SourcePairs(r.evidence), x, id);
    }
    forall c, id ensures Files(links.resolutionsByClaim, c, id) <==>
        id in r.resolutions && (c in r.resolutions[id].selected || c in r.resolutions[id].rejected || c in r.resolutions[id].retained) {
      GroupFiles(ClassifiedPairs(r.resolutions), c, id);
    }
    hide Group;
    hide Files;
  }

  /** The cross-indexes of a state, told by its records. */
  lemma LinksExactly(log: set<Op>, registry: Registry, w: Window)
    ensures Linked(StateOf(log, registry, w).links, StateOf(log, registry, w).records, registry.rules)
  {
    ActivityParts(log, registry, w);
    hide StateOf;
    hide RecordsOf;
    hide LinksOf;
    hide Linked;
    LinksOfRecords(RecordsOf(log), registry);
  }

  // ---------------------------------------------------------------- findings

  /** The three tables hold the same findings, under their own identifier, reference and key. */
  ghost predicate Tabled(t: FindingTables, cs: set<ConflictSet>) {
    && (forall id :: id in t.byId ==> t.byId[id] in cs && t.byId[id].id == id)
    && (forall ref :: ref in t.byRef ==> t.byRef[ref] in cs && t.byRef[ref].ref == ref)
    && (forall key :: key in t.byKey ==> |t.byKey[key]| == 1 && t.byKey[key][0] in cs && t.byKey[key][0].key == key)
    && (forall c :: c in cs ==> TabledAt(t, c))
  }

  ghost predicate TabledAt(t: FindingTables, c: ConflictSet) {
    c.id in t.byId && t.byId[c.id] == c && c.ref in t.byRef && t.byRef[c.ref] == c && c.key in t.byKey && t.byKey[c.key] == [c]
  }

  lemma TablesHold(cs: set<ConflictSet>)
    requires Injective(cs, ConflictIdOf) && Injective(cs, ConflictRefOf) && Injective(cs, ConflictKeyOf)
    ensures Tabled(TablesOf(cs), cs)
  {
    var t := TablesOf(cs);
    forall c | c in cs ensures TabledAt(t, c) {
      ByIdEntry(cs, ConflictIdOf, c.id);
      ByIdEntry(cs, ConflictRefOf, c.ref);
      ByIdEntry(cs, ConflictKeyOf, c.key);
    }
    forall id | id in t.byId ensures t.byId[id] in cs && t.byId[id].id == id { ByIdEntry(cs, ConflictIdOf, id); }
    forall ref | ref in t.byRef ensures t.byRef[ref] in cs && t.byRef[ref].ref == ref { ByIdEntry(cs, ConflictRefOf, ref); }
    forall key | key in t.byKey ensures |t.byKey[key]| == 1 && t.byKey[key][0] in cs && t.byKey[key][0].key == key { ByIdEntry(cs, ConflictKeyOf, key); }
  }

  lemma FindingsOfState(log: set<Op>, registry: Registry, w: Window)
    requires CollisionFree(log)
    ensures var s := StateOf(log, registry, w);
            s.findings == TablesOf(FindingSet(s.activity.byKey, FactsOf(RecordsOf(log)), registry)) && ListsByKey(s.activity.byKey)
  {
    ActivityParts(log, registry, w);
    RecordsWellFiled(log);
    ActivityLists(RecordsOf(log).claims, InactiveIds(RecordsOf(log).claims, RetractionsIn(log), registry), w);
    hide RecordsOf;
    hide CollisionFree;
    hide InactiveIds;
    hide ActivityOf;
    hide TablesOf;
    hide FindingSet;
    hide HistoriesOf;
    hide FoldOf;
  }

  /** The findings that stand: one for each key two of whose active claims cannot both hold, reporting
      exactly those pairs, labelled by what the log's records say, and in all three tables. */
  lemma FindingsExactly(log: set<Op>, registry: Registry, w: Window) returns (cs: set<ConflictSet>)
    requires CollisionFree(log)
    ensures var s := StateOf(log, registry, w);
            Tabled(s.findings, cs) && ReportsAll(cs, s.activity.byKey, registry.rules)
            && forall c :: c in cs ==> Labels(c, Facts(s.records.evidence, s.records.sources, s.records.derivations), registry.rules)
  {
    var s := StateOf(log, registry, w);
    ActivityParts(log, registry, w);
    FindingsOfState(log, registry, w);
    hide StateOf;
    hide RecordsOf;
    hide ActivityOf;
    hide CollisionFree;
    hide FindingAt;
    hide Reports;
    hide Labels;
    hide ReportsAll;
    cs := FindingSet(s.activity.byKey, FactsOf(s.records), registry);
    FindingsInjective(s.activity.byKey, s.activity.byKey.Keys, FactsOf(s.records), registry);
    AllReported(s.activity.byKey, FactsOf(s.records), registry);
    AllLabelled(s.activity.byKey, FactsOf(s.records), registry);
    hide FindingSet;
    TablesHold(cs);
    hide TablesOf;
    hide Tabled;
  }
}
