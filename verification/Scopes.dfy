/** Scopes do not interfere: what is committed in one scope leaves every other scope's view alone. */
module Scopes {
  import opened Basics
  import opened Model
  import opened Lifecycle
  import opened Records
  import opened State
  import opened Refold
  import opened View

  // ---------------------------------------------------------------- what a view depends on

  /** Two states say the same of one lane. */
  ghost predicate SameLaneView(s: MemoryState, t: MemoryState, lane: Lane) {
    && LookupLane(s.lifecycle.effective, lane) == LookupLane(t.lifecycle.effective, lane)
    && LookupLane(s.lifecycle.active, lane) == LookupLane(t.lifecycle.active, lane)
    && LookupLane(s.lifecycle.statuses, lane) == LookupLane(t.lifecycle.statuses, lane)
    && (lane in s.histories.resolutionLanes <==> lane in t.histories.resolutionLanes)
    && (lane in s.histories.eventLanes <==> lane in t.histories.eventLanes)
  }

  /** Two states that a view in this scope cannot tell apart. */
  ghost predicate SameForView(s: MemoryState, t: MemoryState, scope: Option<Name>) {
    && s.activity.byKey == t.activity.byKey && s.findings == t.findings
    && (forall ref :: SameLaneView(s, t, Lane(ref, None)))
    && (forall ref :: SameLaneView(s, t, Lane(ref, scope)))
  }

  lemma ChoiceKept(s: MemoryState, t: MemoryState, scope: Option<Name>, c: ConflictSet)
    requires SameForView(s, t, scope)
    ensures CommittedChoice(s, c, scope) == CommittedChoice(t, c, scope)
    ensures RejectedBy(s, c, scope) == RejectedBy(t, c, scope)
  {
    hide ChoiceFrom;
    assert SameLaneView(s, t, Lane(c.ref, scope)) && SameLaneView(s, t, Lane(c.ref, None));
    var lane := ResolutionLane(s, c, scope);
    assert lane == ResolutionLane(t, c, scope);
    assert SameLaneView(s, t, lane);
    assert lane in s.lifecycle.effective ==> LookupLane(t.lifecycle.effective, lane).Some?;
  }

  /** Two resolvers suggest the same for every finding the view asks them about. */
  ghost predicate SuggestAlike(s: MemoryState, p: Option<Resolver>, q: Option<Resolver>) {
    forall key :: KeyConflicts(s, key) != [] ==> SuggestSame(KeyConflicts(s, key)[0], p, q)
  }

  ghost predicate SuggestSame(c: ConflictSet, p: Option<Resolver>, q: Option<Resolver>) { Suggested(c, p) == Suggested(c, q) }

  lemma KeyViewKept(s: MemoryState, t: MemoryState, registry: Registry, scope: Option<Name>, p: Option<Resolver>, q: Option<Resolver>,
                    key: ClaimKey, claims: seq<Claim>)
    requires SameForView(s, t, scope) && SuggestAlike(s, p, q) && claims != []
    ensures ViewOfKey(s, registry, scope, p, key, claims) == ViewOfKey(t, registry, scope, q, key, claims)
  {
    hide CommittedChoice;
    hide Suggested;
    hide NotAmongCandidates;
    hide BestClaim;
    hide HasAlternatives;
    if KeyConflicts(s, key) != [] {
      ChoiceKept(s, t, scope, KeyConflicts(s, key)[0]);
      assert SuggestSame(KeyConflicts(s, key)[0], p, q);
    }
    assert KeyConflicts(s, key) == KeyConflicts(t, key);
    hide SameForView;
    hide SuggestAlike;
    hide KeyConflicts;
  }

  lemma KeyKept(s: MemoryState, t: MemoryState, registry: Registry, scope: Option<Name>, p: Option<Resolver>, q: Option<Resolver>,
                ch: Choices, done: set<ClaimKey>, key: ClaimKey)
    requires SameForView(s, t, scope) && SuggestAlike(s, p, q)
    ensures ViewsKey(ch, s, registry, scope, p, done, key) <==> ViewsKey(ch, t, registry, scope, q, done, key)
  {
    TablesKept(s, t, scope);
    hide SameForView;
    hide SuggestAlike;
    hide ViewOfKey;
    if key in s.activity.byKey && s.activity.byKey[key] != [] {
      KeyViewKept(s, t, registry, scope, p, q, key, s.activity.byKey[key]);
    }
  }

  lemma {:induction false} RestKept(s: MemoryState, t: MemoryState, scope: Option<Name>, ch: Choices, handled: set<ConflictSet>, conflicts: seq<ConflictSet>)
    requires SameForView(s, t, scope)
    ensures AfterRest(ch, s, scope, handled, conflicts) == AfterRest(ch, t, scope, handled, conflicts)
  {
    hide SameForView;
    hide CommittedChoice;
    hide RejectedBy;
    hide ExcludeAll;
    if conflicts != [] {
      RestKept(s, t, scope, ch, handled, conflicts[..|conflicts| - 1]);
      ChoiceKept(s, t, scope, conflicts[|conflicts| - 1]);
    }
  }

  lemma UnresolvedKept(s: MemoryState, t: MemoryState, scope: Option<Name>, cs: set<ConflictSet>)
    requires SameForView(s, t, scope)
    ensures UnresolvedIn(s, scope, cs) == UnresolvedIn(t, scope, cs)
  {
    hide SameForView;
    hide CommittedChoice;
    forall c ensures CommittedChoice(s, c, scope) == CommittedChoice(t, c, scope) { ChoiceKept(s, t, scope, c); }
  }

  lemma TablesKept(s: MemoryState, t: MemoryState, scope: Option<Name>)
    requires SameForView(s, t, scope)
    ensures SurfacedOf(s) == SurfacedOf(t)
    ensures s.activity.byKey == t.activity.byKey
    ensures HandledAt(s, s.activity.byKey.Keys) == HandledAt(t, t.activity.byKey.Keys)
  {
    assert forall key :: KeyConflicts(s, key) == KeyConflicts(t, key);
    hide KeyConflicts;
    hide SameLaneView;
  }

  /** The view is a function of what the states agree on. */
  lemma ViewFrame(v: Viewed, s: MemoryState, t: MemoryState, registry: Registry, scope: Option<Name>, p: Option<Resolver>,
                  q: Option<Resolver>, conflicts: seq<ConflictSet>)
    requires SameForView(s, t, scope) && SuggestAlike(s, p, q) && IsView(v, s, registry, scope, p, conflicts)
    ensures IsView(v, t, registry, scope, q, conflicts)
  {
    hide SameForView;
    hide SuggestAlike;
    hide ViewsKey;
    hide HandledAt;
    hide SurfacedOf;
    hide UnresolvedIn;
    TablesKept(s, t, scope);
    var handled := HandledAt(s, s.activity.byKey.Keys);
    UnresolvedKept(s, t, scope, handled + Elements(conflicts));
    var ch :| ViewsKeys(ch, s, registry, scope, p, s.activity.byKey.Keys) && v.choices == AfterRest(ch, s, scope, handled, conflicts);
    RestKept(s, t, scope, ch, handled, conflicts);
    forall key ensures ViewsKey(ch, t, registry, scope, q, t.activity.byKey.Keys, key) {
      KeyKept(s, t, registry, scope, p, q, ch, s.activity.byKey.Keys, key);
    }
    assert ViewsKeys(ch, t, registry, scope, q, t.activity.byKey.Keys);
  }

  /** There is one view. */
  lemma ViewUnique(v: Viewed, x: Viewed, s: MemoryState, registry: Registry, scope: Option<Name>, resolver: Option<Resolver>,
                   conflicts: seq<ConflictSet>)
    requires IsView(v, s, registry, scope, resolver, conflicts) && IsView(x, s, registry, scope, resolver, conflicts)
    ensures v == x
  {
    hide HandledAt;
    hide SurfacedOf;
    hide UnresolvedIn;
    hide ViewsKeys;
    var handled, keys := HandledAt(s, s.activity.byKey.Keys), s.activity.byKey.Keys;
    var ch :| ViewsKeys(ch, s, registry, scope, resolver, keys) && v.choices == AfterRest(ch, s, scope, handled, conflicts);
    var dh :| ViewsKeys(dh, s, registry, scope, resolver, keys) && x.choices == AfterRest(dh, s, scope, handled, conflicts);
    ChoicesUnique(ch, dh, s, registry, scope, resolver, keys);
  }

  lemma ChoicesUnique(a: Choices, b: Choices, s: MemoryState, registry: Registry, scope: Option<Name>, resolver: Option<Resolver>, keys: set<ClaimKey>)
    requires ViewsKeys(a, s, registry, scope, resolver, keys) && ViewsKeys(b, s, registry, scope, resolver, keys)
    ensures a == b
  {
    hide ViewOfKey;
    forall key ensures SameChoice(a, b, key) {
      assert ViewsKey(a, s, registry, scope, resolver, keys, key) && ViewsKey(b, s, registry, scope, resolver, keys, key);
    }
    ChoicesEqual(a, b);
  }

  ghost predicate SameChoice(a: Choices, b: Choices, key: ClaimKey) {
    && (key in a.selected <==> key in b.selected) && (key in a.selected ==> a.selected[key] == b.selected[key])
    && (key in a.provisional <==> key in b.provisional) && (key in a.provisional ==> a.provisional[key] == b.provisional[key])
    && (key in a.basis <==> key in b.basis) && (key in a.basis ==> a.basis[key] == b.basis[key])
    && (key in a.compatible <==> key in b.compatible) && (key in a.compatible ==> a.compatible[key] == b.compatible[key])
  }

  lemma ChoicesEqual(a: Choices, b: Choices)
    requires forall key :: SameChoice(a, b, key)
    ensures a == b
  {
    forall key ensures SameChoice(a, b, key) {}
    assert a.selected == b.selected by { assert forall key :: key in a.selected || key in b.selected ==> SameChoice(a, b, key); }
    assert a.provisional == b.provisional by { assert forall key :: key in a.provisional || key in b.provisional ==> SameChoice(a, b, key); }
    assert a.basis == b.basis by { assert forall key :: key in a.basis || key in b.basis ==> SameChoice(a, b, key); }
    assert a.compatible == b.compatible by { assert forall key :: key in a.compatible || key in b.compatible ==> SameChoice(a, b, key); }
  }

  // ---------------------------------------------------------------- adding to one scope

  /** Only resolutions and lifecycle events of one scope. */
  ghost predicate OnlyScope(ops: set<Op>, scope: Name) {
    forall op :: op in ops ==> (op.ResolutionAdded? && op.resolution.scope == Some(scope))
                               || (op.LifecycleEventAdded? && op.event.scope == Some(scope))
  }

  lemma OtherRecordsKept(log: set<Op>, more: set<Op>, scope: Name)
    requires OnlyScope(more, scope)
    ensures SourcesIn(log + more) == SourcesIn(log) && EvidenceIn(log + more) == EvidenceIn(log)
    ensures ClaimsIn(log + more) == ClaimsIn(log) && DerivationsIn(log + more) == DerivationsIn(log)
    ensures RetractionsIn(log + more) == RetractionsIn(log)
    ensures forall r :: r in ResolutionsIn(log) ==> r in ResolutionsIn(log + more)
    ensures forall r :: r in ResolutionsIn(log + more) && r.scope != Some(scope) ==> r in ResolutionsIn(log)
    ensures forall e :: e in EventsIn(log) ==> e in EventsIn(log + more)
    ensures forall e :: e in EventsIn(log + more) && e.scope != Some(scope) ==> e in EventsIn(log)
  {
  }

  /** The records of every other scope are the same in both logs. */
  ghost predicate ScopeApart(a: Records, b: Records, scope: Name) {
    && (forall id :: id in a.resolutions ==> id in b.resolutions && a.resolutions[id] == b.resolutions[id])
    && (forall id :: id in b.resolutions && b.resolutions[id].scope != Some(scope) ==>
          id in a.resolutions && a.resolutions[id] == b.resolutions[id])
    && (forall id :: id in a.events ==> id in b.events && a.events[id] == b.events[id])
    && (forall id :: id in b.events && b.events[id].scope != Some(scope) ==> id in a.events && a.events[id] == b.events[id])
  }

  lemma RecordsApart(log: set<Op>, more: set<Op>, scope: Name)
    requires OnlyScope(more, scope) && CollisionFree(log + more)
    ensures ScopeApart(RecordsOf(log), RecordsOf(log + more), scope)
  {
    CollisionFreeSubset(log, log + more);
    OtherRecordsKept(log, more, scope);
    var a, b := RecordsOf(log), RecordsOf(log + more);
    forall id | id in b.resolutions && b.resolutions[id].scope != Some(scope)
      ensures id in a.resolutions && a.resolutions[id] == b.resolutions[id]
    {
      ByIdValues(ResolutionsIn(log + more), ResolutionId, id);
      ByIdEntry(ResolutionsIn(log), ResolutionId, id);
    }
    forall id | id in b.events && b.events[id].scope != Some(scope) ensures id in a.events && a.events[id] == b.events[id] {
      ByIdValues(EventsIn(log + more), EventId, id);
      ByIdEntry(EventsIn(log), EventId, id);
    }
    hide ById;
    hide ResolutionsIn;
    hide EventsIn;
    ApartById(ResolutionsIn(log), ResolutionsIn(log + more), ResolutionId);
    ApartById(EventsIn(log), EventsIn(log + more), EventId);
  }

  lemma ApartById<T(!new)>(a: set<T>, b: set<T>, id: T -> Id)
    requires Injective(b, id) && a <= b
    ensures forall k :: k in ById(a, id) ==> k in ById(b, id) && ById(a, id)[k] == ById(b, id)[k]
  {
    forall k | k in ById(a, id) ensures k in ById(b, id) && ById(a, id)[k] == ById(b, id)[k] {
      ByIdValues(a, id, k);
      ByIdEntry(b, id, k);
    }
  }

  lemma PresentIffListed(rs: map<Id, Resolution>, es: map<Id, Event>, lane: Lane)
    requires ResolutionsFiled(rs) && EventsFiled(es)
    ensures lane in Listings(ResolutionLanePairs(rs), ResolutionRank) <==>
              LaneHistory(Listings(ResolutionLanePairs(rs), ResolutionRank), lane) != []
    ensures lane in Listings(EventLanePairs(es), EventRank) <==> LaneHistory(Listings(EventLanePairs(es), EventRank), lane) != []
  {
    ResolutionLaneAt(rs, lane);
    EventLaneAt(es, lane);
    if lane in Firsts(ResolutionLanePairs(rs)) {
      var p :| p in ResolutionLanePairs(rs) && p.0 == lane;
      assert p.1 in LaneHistory(Listings(ResolutionLanePairs(rs), ResolutionRank), lane);
    }
    if lane in Firsts(EventLanePairs(es)) {
      var p :| p in EventLanePairs(es) && p.0 == lane;
      assert p.1 in LaneHistory(Listings(EventLanePairs(es), EventRank), lane);
    }
  }

  lemma LanesApart(a: Records, b: Records, scope: Name, lane: Lane)
    requires WellFiled(a) && WellFiled(b) && ScopeApart(a, b, scope) && lane.scope != Some(scope)
    ensures LaneHistory(HistoriesOf(a).resolutionLanes, lane) == LaneHistory(HistoriesOf(b).resolutionLanes, lane)
    ensures LaneHistory(HistoriesOf(a).eventLanes, lane) == LaneHistory(HistoriesOf(b).eventLanes, lane)
    ensures SameLaneRecords(a.resolutions, b.resolutions, lane)
    ensures lane in HistoriesOf(a).resolutionLanes <==> lane in HistoriesOf(b).resolutionLanes
    ensures lane in HistoriesOf(a).eventLanes <==> lane in HistoriesOf(b).eventLanes
  {
    hide Listings;
    ResolutionLaneAt(a.resolutions, lane);
    ResolutionLaneAt(b.resolutions, lane);
    EventLaneAt(a.events, lane);
    EventLaneAt(b.events, lane);
    var s, t := LaneHistory(HistoriesOf(a).resolutionLanes, lane), LaneHistory(HistoriesOf(b).resolutionLanes, lane);
    assert Elements(s) == Elements(t);
    StrictlySortedUnique(s, t, ResolutionRank);
    var u, v := LaneHistory(HistoriesOf(a).eventLanes, lane), LaneHistory(HistoriesOf(b).eventLanes, lane);
    assert Elements(u) == Elements(v);
    StrictlySortedUnique(u, v, EventRank);
    PresentIffListed(a.resolutions, a.events, lane);
    PresentIffListed(b.resolutions, b.events, lane);
  }

  lemma EventsAreFiled(r: Records, byRef: map<ConflictRef, ConflictSet>, at: Option<Time>)
    requires EventsFiled(r.events)
    ensures Filed(FoldInputs(r, HistoriesOf(r), byRef, at))
  {
    HistoriesFiled(r, byRef);
    hide HistoriesOf;
  }

  /** A lane of another scope folds as before, even if its events name the added resolutions. */
  lemma LaneApart(a: Records, b: Records, scope: Name, lane: Lane, byRef: map<ConflictRef, ConflictSet>, at: Option<Time>)
    requires WellFiled(a) && WellFiled(b) && ScopeApart(a, b, scope) && lane.scope != Some(scope)
    ensures var f, g := FoldOf(FoldInputs(a, HistoriesOf(a), byRef, at)), FoldOf(FoldInputs(b, HistoriesOf(b), byRef, at));
            LookupLane(f.effective, lane) == LookupLane(g.effective, lane)
            && LookupLane(f.active, lane) == LookupLane(g.active, lane)
            && LookupLane(f.statuses, lane) == LookupLane(g.statuses, lane)
  {
    var i, j := FoldInputs(a, HistoriesOf(a), byRef, at), FoldInputs(b, HistoriesOf(b), byRef, at);
    LanesApart(a, b, scope, lane);
    EventsAreFiled(a, byRef, at);
    hide HistoriesOf;
    hide ScopeApart;
    hide WellFiled;
    hide Filed;
    LaneIsLocal(i, j, lane);
    FoldMatches(i, lane);
    FoldMatches(j, lane);
    hide FoldOf;
    hide ActiveAt;
    hide EffectiveAt;
    hide StatusAt;
  }

  lemma LaneViewApart(log: set<Op>, more: set<Op>, scope: Name, registry: Registry, w: Window, lane: Lane)
    requires OnlyScope(more, scope) && CollisionFree(log + more) && lane.scope != Some(scope)
    ensures SameLaneView(StateOf(log, registry, w), StateOf(log + more, registry, w), lane)
    ensures StateOf(log, registry, w).activity == StateOf(log + more, registry, w).activity
    ensures StateOf(log, registry, w).findings == StateOf(log + more, registry, w).findings
  {
    hide CollisionFree;
    hide StateOf;
    hide RecordsOf;
    hide WellFiled;
    hide ScopeApart;
    hide HistoriesOf;
    hide FoldOf;
    CollisionFreeSubset(log, log + more);
    RecordsWellFiled(log);
    RecordsWellFiled(log + more);
    RecordsApart(log, more, scope);
    OtherRecordsKept(log, more, scope);
    SameTables(log, log + more, registry, w);
    LanesApart(RecordsOf(log), RecordsOf(log + more), scope, lane);
    LaneApart(RecordsOf(log), RecordsOf(log + more), scope, lane, StateOf(log, registry, w).findings.byRef, w.at);
    StateParts(log, registry, w);
    StateParts(log + more, registry, w);
  }

  /** Everything but the lanes of the added scope is the same in both states. */
  lemma StatesApart(log: set<Op>, more: set<Op>, scope: Name, registry: Registry, w: Window, viewed: Option<Name>)
    requires OnlyScope(more, scope) && CollisionFree(log + more) && viewed != Some(scope)
    ensures SameForView(StateOf(log, registry, w), StateOf(log + more, registry, w), viewed)
  {
    hide CollisionFree;
    hide StateOf;
    hide SameLaneView;
    hide OnlyScope;
    LaneViewApart(log, more, scope, registry, w, Lane(OtherConflictRef(0), None));
    forall ref ensures SameLaneView(StateOf(log, registry, w), StateOf(log + more, registry, w), Lane(ref, None)) {
      LaneViewApart(log, more, scope, registry, w, Lane(ref, None));
    }
    forall ref ensures SameLaneView(StateOf(log, registry, w), StateOf(log + more, registry, w), Lane(ref, viewed)) {
      LaneViewApart(log, more, scope, registry, w, Lane(ref, viewed));
    }
  }

  lemma StateParts(ops: set<Op>, registry: Registry, w: Window)
    ensures var s := StateOf(ops, registry, w);
            s.histories == HistoriesOf(RecordsOf(ops))
            && s.lifecycle == FoldOf(FoldInputs(RecordsOf(ops), HistoriesOf(RecordsOf(ops)), s.findings.byRef, w.at))
  {
    hide RecordsOf;
    hide HistoriesOf;
    hide FoldOf;
    hide TablesOf;
    hide ActivityOf;
  }

  lemma SameTables(a: set<Op>, b: set<Op>, registry: Registry, w: Window)
    requires ClaimsIn(a) == ClaimsIn(b) && SourcesIn(a) == SourcesIn(b) && EvidenceIn(a) == EvidenceIn(b)
    requires DerivationsIn(a) == DerivationsIn(b) && RetractionsIn(a) == RetractionsIn(b)
    ensures StateOf(a, registry, w).activity == StateOf(b, registry, w).activity
    ensures StateOf(a, registry, w).findings == StateOf(b, registry, w).findings
  {
    hide ById;
    hide ActivityOf;
    hide TablesOf;
    hide FindingSet;
    hide InactiveIds;
    hide FoldOf;
    hide HistoriesOf;
    hide LinksOf;
    hide RetractionsOf;
    hide IndexesOf;
  }

  /** Adding any resolutions and lifecycle events of one scope leaves the view of every other scope,
      and of none, unchanged: at every instant and in every context. */
  lemma ScopesDoNotInterfere(log: set<Op>, more: set<Op>, scope: Name, registry: Registry, w: Window, viewed: Option<Name>,
                             conflicts: seq<ConflictSet>, before: Viewed, after: Viewed)
    requires OnlyScope(more, scope) && CollisionFree(log + more) && viewed != Some(scope)
    requires IsView(before, StateOf(log, registry, w), registry, viewed, None, conflicts)
    requires IsView(after, StateOf(log + more, registry, w), registry, viewed, None, conflicts)
    ensures before == after
  {
    hide CollisionFree;
    hide StateOf;
    hide IsView;
    hide SameForView;
    StatesApart(log, more, scope, registry, w, viewed);
    ViewFrame(before, StateOf(log, registry, w), StateOf(log + more, registry, w), registry, viewed, None, None, conflicts);
    ViewUnique(before, after, StateOf(log + more, registry, w), registry, viewed, None, conflicts);
  }
}
