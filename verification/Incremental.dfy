/** `apply_operations_incrementally`: folding unseen operations into a state gives, in every table,
    the state full materialization gives for all the operations together. */
module Incremental {
  import opened Basics
  import opened Model
  import opened Findings
  import opened Lifecycle
  import opened Records
  import opened State
  import opened Tables
  import opened Affected
  import opened Absorb
  import opened AbsorbAll
  import opened Refresh
  import opened Offmarks
  import opened Refold

  /** `MaterializationDelta` */
  datatype Delta = Delta(
    processed: seq<Id>, keys: set<ClaimKey>, namespaces: set<Name>, claims: set<Id>,
    previous: set<ConflictId>, current: set<ConflictId>, refs: set<ConflictRef>, resolutions: set<Id>,
    cursorBefore: nat, cursorAfter: nat, fullRebuild: bool, comparisons: nat)
  {
    /** Names nothing at all. */
    predicate Silent() {
      keys == {} && namespaces == {} && claims == {} && previous == {} && current == {} && refs == {} && resolutions == {}
    }

    predicate IsEmpty() { processed == [] && !fullRebuild }

    /** The namespaces named are those of the keys. */
    ghost predicate NamesNamespaces() { forall n :: n in namespaces <==> exists key :: key in keys && key.namespace == n }

    function Marked(): Marks { Marks(keys, claims, refs, resolutions) }
  }

  const EMPTY_DELTA := Delta([], {}, {}, {}, {}, {}, {}, {}, 0, 0, false, 0)

  function BaseOfState(s: MemoryState): Base { Base(s.records, s.activity.inactive) }

  ghost function FindingsIn(s: MemoryState, registry: Registry): set<ConflictSet> {
    SideFindings(SideOf(BaseOfState(s)), registry)
  }

  /** Everything that differs between two states is named by the delta. */
  ghost predicate DeltaCovers(d: Delta, s: MemoryState, t: MemoryState, registry: Registry) {
    && Covered(BaseOfState(s), BaseOfState(t), d.Marked())
    && IdsAmong(FindingsIn(s, registry), d.keys) + IdsAmong(FindingsIn(t, registry), d.keys) <= d.previous + d.current
    && RefsAmong(FindingsIn(s, registry), d.keys) + RefsAmong(FindingsIn(t, registry), d.keys) <= d.refs
    && CandidatesAmong(FindingsIn(s, registry), d.keys) + CandidatesAmong(FindingsIn(t, registry), d.keys) <= d.claims
    && ResolutionsOn(t.records.resolutions, d.refs) <= d.resolutions
  }

  ghost predicate Reached(s: MemoryState, ops: set<Op>, registry: Registry) {
    CollisionFree(ops) && s == StateOf(ops, registry, UNSCOPED)
  }

  lemma CoveredMore(a: Base, b: Base, marks: Marks, more: Marks)
    requires Covered(a, b, marks)
    requires marks.keys <= more.keys && marks.claims <= more.claims && marks.refs <= more.refs
    requires marks.resolutions <= more.resolutions
    ensures Covered(a, b, more)
  {
  }

  // ---------------------------------------------------------------- findings and indexes

  /** `for key in sorted(affected_keys)` */
  method RefreshEach(start: Refreshed, keys: set<ClaimKey>, was: map<ClaimKey, seq<Claim>>, now: map<ClaimKey, seq<Claim>>,
                     facts: Facts, registry: Registry, ghost a: Side, ghost b: Side, ghost marks: Marks)
    returns (x: Refreshed)
    requires Compatible(a, b) && NoEmptyLists(b.byKey)
    requires was == a.byKey && now == b.byKey && facts == b.facts
    requires TablesSoFar(start, a, b, registry, {}) && ReportSoFar(start, a, b, registry, marks, {})
    ensures TablesSoFar(x, a, b, registry, keys) && ReportSoFar(x, a, b, registry, marks, keys)
  {
    hide Compatible;
    hide TablesSoFar;
    hide ReportSoFar;
    hide NoEmptyLists;
    x := start;
    var todo := keys;
    ghost var done: set<ClaimKey> := {};
    while todo != {}
      invariant done + todo == keys && done * todo == {}
      invariant TablesSoFar(x, a, b, registry, done) && ReportSoFar(x, a, b, registry, marks, done)
      decreases |todo|
    {
      var _ := Inhabited(todo);
      var key :| key in todo;
      x := RefreshKey(x, key, ClaimsAt(was, key), ClaimsAt(now, key), facts, registry, a, b, marks, done);
      done, todo := done + {key}, todo - {key};
    }
    assert done == keys;
  }

  method RefreshAll(state: MemoryState, wk: Work, byKey: map<ClaimKey, seq<Claim>>, registry: Registry)
    returns (x: Refreshed)
    requires WellFiled(state.records) && WellFiled(wk.records)
    requires Covered(BaseOfState(state), BaseOf(wk), wk.marks)
    requires state.activity.byKey == SideOf(BaseOfState(state)).byKey && byKey == SideOf(BaseOf(wk)).byKey
    requires state.findings == TablesOf(FindingsIn(state, registry))
    requires state.indexes == IndexesOf(state.activity.byKey, registry)
    ensures x.t == TablesOf(SideFindings(SideOf(BaseOf(wk)), registry))
    ensures x.indexes == IndexesOf(byKey, registry)
    ensures ReportSoFar(x, SideOf(BaseOfState(state)), SideOf(BaseOf(wk)), registry, wk.marks, wk.marks.keys)
  {
    ghost var a, b := SideOf(BaseOfState(state)), SideOf(BaseOf(wk));
    SidesCompatible(BaseOfState(state), BaseOf(wk), wk.marks);
    MixedEnds(BaseOfState(state), BaseOf(wk), wk.marks, registry);
    x := Refreshed(state.findings, state.indexes, {}, {}, wk.marks.claims, wk.marks.refs, 0);
    RefreshStart(x, a, b, registry, wk.marks);
    var facts := FactsOf(wk.records);
    assert facts == b.facts;
    hide SideOf;
    hide Covered;
    hide Compatible;
    hide TablesSoFar;
    hide ReportSoFar;
    hide NoEmptyLists;
    hide WellFiled;
    hide TablesOf;
    hide IndexesOf;
    hide SideFindings;
    x := RefreshEach(x, wk.marks.keys, state.activity.byKey, byKey, facts, registry, a, b, wk.marks);
    RefreshEnd(x, a, b, registry, wk.marks.keys);
  }

  lemma RefreshStart(x: Refreshed, a: Side, b: Side, registry: Registry, marks: Marks)
    requires x == Refreshed(TablesOf(SideFindings(a, registry)), IndexesOf(a.byKey, registry), {}, {}, marks.claims, marks.refs, 0)
    ensures TablesSoFar(x, a, b, registry, {}) && ReportSoFar(x, a, b, registry, marks, {})
  {
    hide SideFindings;
    assert Mixed(SideFindings(a, registry), SideFindings(b, registry), {}) == SideFindings(a, registry);
    assert MixedLists(a.byKey, b.byKey, {}) == a.byKey;
  }

  lemma RefreshEnd(x: Refreshed, a: Side, b: Side, registry: Registry, done: set<ClaimKey>)
    requires TablesSoFar(x, a, b, registry, done)
    requires MixedLists(a.byKey, b.byKey, done) == b.byKey
    requires Mixed(SideFindings(a, registry), SideFindings(b, registry), done) == SideFindings(b, registry)
    ensures x.t == TablesOf(SideFindings(b, registry)) && x.indexes == IndexesOf(b.byKey, registry)
  {
  }

  // ---------------------------------------------------------------- lifecycle

  /** A reference no marked key's finding bears has the finding it had. */
  lemma UnmarkedRef(state: MemoryState, wk: Work, registry: Registry, refs: set<ConflictRef>, ref: ConflictRef)
    requires WellFiled(state.records) && WellFiled(wk.records)
    requires Covered(BaseOfState(state), BaseOf(wk), wk.marks) && ref !in refs
    requires RefsAmong(FindingsIn(state, registry), wk.marks.keys) <= refs
    requires RefsAmong(SideFindings(SideOf(BaseOf(wk)), registry), wk.marks.keys) <= refs
    ensures SameAtRef(ById(FindingsIn(state, registry), ConflictRefOf),
                      ById(SideFindings(SideOf(BaseOf(wk)), registry), ConflictRefOf), ref)
  {
    var s, t := FindingsIn(state, registry), SideFindings(SideOf(BaseOf(wk)), registry);
    ActivityLists(state.records.claims, state.activity.inactive, UNSCOPED);
    ActivityLists(wk.records.claims, wk.inactive, UNSCOPED);
    SideOnePerKey(SideOf(BaseOfState(state)), registry, ClaimKey("", "", ""));
    SideOnePerKey(SideOf(BaseOf(wk)), registry, ClaimKey("", "", ""));
    FindingsEnd(BaseOfState(state), BaseOf(wk), wk.marks, registry);
    hide SideFindings;
    hide Covered;
    hide SideOf;
    hide WellFiled;
    SameRef(s, t, wk.marks.keys, refs, ref);
  }

  lemma RefMarked(cs: set<ConflictSet>, keys: set<ClaimKey>, c: ConflictSet)
    ensures c in cs && c.key in keys ==> c.ref in RefsAmong(cs, keys)
  {
  }

  lemma SameRef(s: set<ConflictSet>, t: set<ConflictSet>, keys: set<ClaimKey>, refs: set<ConflictRef>, ref: ConflictRef)
    requires OnePerKey(s) && OnePerKey(t) && ref !in refs
    requires RefsAmong(s, keys) <= refs && RefsAmong(t, keys) <= refs
    requires forall c: ConflictSet :: c.key !in keys ==> (c in s <==> c in t)
    ensures SameAtRef(ById(s, ConflictRefOf), ById(t, ConflictRefOf), ref)
  {
    OnePerKeyInjective(s);
    OnePerKeyInjective(t);
    ByIdEntry(s, ConflictRefOf, ref);
    ByIdEntry(t, ConflictRefOf, ref);
    hide ById;
    forall c: ConflictSet | ConflictRefOf(c) == ref && (c in s || c in t) ensures c in s && c in t {
      RefMarked(s, keys, c);
      RefMarked(t, keys, c);
    }
  }

  lemma UnaffectedLanes(state: MemoryState, wk: Work, registry: Registry, refs: set<ConflictRef>)
    requires WellFiled(state.records) && WellFiled(wk.records)
    requires Covered(BaseOfState(state), BaseOf(wk), wk.marks) && wk.marks.refs <= refs
    requires RefsAmong(FindingsIn(state, registry), wk.marks.keys) <= refs
    requires RefsAmong(SideFindings(SideOf(BaseOf(wk)), registry), wk.marks.keys) <= refs
    requires state.lifecycle == FoldOf(FoldInputs(state.records, HistoriesOf(state.records),
                                                  ById(FindingsIn(state, registry), ConflictRefOf), None))
    ensures RefoldedSoFar(FoldInputs(wk.records, HistoriesOf(wk.records),
                                     ById(SideFindings(SideOf(BaseOf(wk)), registry), ConflictRefOf), None),
                          refs, state.lifecycle)
  {
    var was, now := ById(FindingsIn(state, registry), ConflictRefOf), ById(SideFindings(SideOf(BaseOf(wk)), registry), ConflictRefOf);
    var after := FoldInputs(wk.records, HistoriesOf(wk.records), now, None);
    forall lane: Lane | lane.ref !in refs ensures LaneMatches(after, lane, state.lifecycle) {
      UnmarkedRef(state, wk, registry, refs, lane.ref);
      LaneKept(BaseOfState(state), BaseOf(wk), wk.marks, lane, was, now, state.lifecycle);
    }
  }

  // ---------------------------------------------------------------- the whole step

  lemma ReachedParts(state: MemoryState, log: set<Op>, registry: Registry)
    requires Reached(state, log, registry)
    ensures WellFiled(state.records)
    ensures state.activity.byKey == SideOf(BaseOfState(state)).byKey
    ensures state.activity.inapplicable == {}
    ensures state.findings == TablesOf(FindingsIn(state, registry))
    ensures state.indexes == IndexesOf(state.activity.byKey, registry)
    ensures state.lifecycle == FoldOf(FoldInputs(state.records, HistoriesOf(state.records),
                                                 ById(FindingsIn(state, registry), ConflictRefOf), None))
  {
    RecordsWellFiled(log);
    NothingInapplicable(state.records.claims, state.activity.inactive);
    hide RecordsOf;
    hide CollisionFree;
    hide WellFiled;
    hide FoldOf;
    hide FindingSet;
    hide ById;
    hide Listings;
    hide IndexesOf;
    hide LinksOf;
    hide RetractionsOf;
    hide HistoriesOf;
    hide InapplicableIds;
  }

  lemma NothingInapplicable(claims: map<Id, Claim>, inactive: set<Id>)
    ensures InapplicableIds(claims, inactive, UNSCOPED) == {}
  {
  }

  /** The tables of a finished step are those of full materialization. */
  lemma FinishedState(wk: Work, done: set<Op>, start: Base, registry: Registry, byKey: map<ClaimKey, seq<Claim>>,
                      x: Refreshed, f: Lifecycle)
    requires Absorbed(wk, done, start, registry)
    requires byKey == SideOf(BaseOf(wk)).byKey
    requires x.t == TablesOf(SideFindings(SideOf(BaseOf(wk)), registry)) && x.indexes == IndexesOf(byKey, registry)
    requires f == FoldOf(FoldInputs(wk.records, wk.histories, x.t.byRef, None))
    ensures Reached(MemoryState(wk.records, wk.links, wk.retractions, Activity(wk.inactive, {}, byKey), wk.histories, x.t,
                                x.indexes, f), done, registry)
  {
    NothingInapplicable(wk.records.claims, wk.inactive);
    hide RecordsOf;
    hide CollisionFree;
    hide FoldOf;
    hide FindingSet;
    hide ById;
    hide Listings;
    hide IndexesOf;
    hide LinksOf;
    hide RetractionsOf;
    hide HistoriesOf;
    hide InapplicableIds;
    hide LooseBag;
    hide Covered;
    hide InactiveIds;
  }

  lemma FinishedDelta(state: MemoryState, after: MemoryState, wk: Work, registry: Registry, x: Refreshed, d: Delta)
    requires Covered(BaseOfState(state), BaseOf(wk), wk.marks) && BaseOfState(after) == BaseOf(wk)
    requires ReportSoFar(x, SideOf(BaseOfState(state)), SideOf(BaseOf(wk)), registry, wk.marks, wk.marks.keys)
    requires d.keys == wk.marks.keys && d.claims == x.claims && d.previous == x.previous && d.current == x.current
    requires d.refs == x.refs && d.resolutions == wk.marks.resolutions + ResolutionsOn(wk.records.resolutions, x.refs)
    ensures DeltaCovers(d, state, after, registry)
  {
    CoveredMore(BaseOfState(state), BaseOf(wk), wk.marks, d.Marked());
    hide Covered;
    hide SideOf;
    hide SideFindings;
    hide ResolutionsOn;
  }

  lemma EmptyDeltaCovers(state: MemoryState, registry: Registry)
    ensures DeltaCovers(EMPTY_DELTA, state, state, registry) && EMPTY_DELTA.NamesNamespaces()
  {
    CoveredReflexive(BaseOfState(state));
    hide SideOf;
    hide SideFindings;
  }

  /** Detection, refolding and assembly after the loop over operations. */
  method FinishStep(state: MemoryState, wk: Work, registry: Registry, ghost log: set<Op>, ghost done: set<Op>)
    returns (after: MemoryState, d: Delta)
    requires Reached(state, log, registry)
    requires Absorbed(wk, done, BaseOfState(state), registry)
    ensures Reached(after, done, registry)
    ensures d.processed == [] && !d.fullRebuild && DeltaCovers(d, state, after, registry) && d.NamesNamespaces()
    ensures wk.marks == NO_MARKS ==> d.Silent()
  {
    hide Delta.NamesNamespaces;
    ReachedParts(state, log, registry);
    RecordsWellFiled(done);
    var byKey := Tidy(wk.raw);
    TidyIsActivity(wk.raw, wk.records.claims, wk.inactive);
    assert byKey == SideOf(BaseOf(wk)).byKey;
    assert wk.histories == HistoriesOf(wk.records);
    hide Reached;
    var x := RefreshAll(state, wk, byKey, registry);
    var f, resolutionIds := RefoldLanes(state, wk, registry, x);
    after := MemoryState(wk.records, wk.links, wk.retractions, Activity(wk.inactive, state.activity.inapplicable, byKey),
                         wk.histories, x.t, x.indexes, f);
    FinishedState(wk, done, BaseOfState(state), registry, byKey, x, f);
    d := Delta([], wk.marks.keys, set key | key in wk.marks.keys :: key.namespace, x.claims, x.previous, x.current, x.refs,
               resolutionIds, 0, 0, false, x.comparisons);
    FinishedDelta(state, after, wk, registry, x, d);
    FinishedSilent(state, wk, registry, x, d);
  }

  lemma FinishedSilent(state: MemoryState, wk: Work, registry: Registry, x: Refreshed, d: Delta)
    requires ReportSoFar(x, SideOf(BaseOfState(state)), SideOf(BaseOf(wk)), registry, wk.marks, wk.marks.keys)
    requires d.keys == wk.marks.keys && d.claims == x.claims && d.previous == x.previous && d.current == x.current
    requires d.refs == x.refs && d.resolutions == wk.marks.resolutions + ResolutionsOn(wk.records.resolutions, x.refs)
    requires d.namespaces == set key | key in wk.marks.keys :: key.namespace
    ensures (wk.marks == NO_MARKS ==> d.Silent()) && d.NamesNamespaces()
  {
    hide SideOf;
    hide SideFindings;
  }

  method RefoldLanes(state: MemoryState, wk: Work, registry: Registry, x: Refreshed)
    returns (f: Lifecycle, resolutionIds: set<Id>)
    requires WellFiled(state.records) && WellFiled(wk.records) && wk.histories == HistoriesOf(wk.records)
    requires Covered(BaseOfState(state), BaseOf(wk), wk.marks)
    requires x.t == TablesOf(SideFindings(SideOf(BaseOf(wk)), registry))
    requires ReportSoFar(x, SideOf(BaseOfState(state)), SideOf(BaseOf(wk)), registry, wk.marks, wk.marks.keys)
    requires state.lifecycle == FoldOf(FoldInputs(state.records, HistoriesOf(state.records),
                                                  ById(FindingsIn(state, registry), ConflictRefOf), None))
    ensures f == FoldOf(FoldInputs(wk.records, wk.histories, x.t.byRef, None))
    ensures resolutionIds == wk.marks.resolutions + ResolutionsOn(wk.records.resolutions, x.refs)
  {
    UnaffectedLanes(state, wk, registry, x.refs);
    hide Covered;
    hide SideOf;
    hide SideFindings;
    hide FoldOf;
    hide RefoldedSoFar;
    hide ReportSoFar;
    f, resolutionIds := RefoldAll(x.refs, wk.records, wk.histories, x.t.byRef, state.lifecycle, wk.marks.resolutions);
  }

  /** Applying any operations, in any order, already known or not, to the state of a log: raises
      exactly when the operations collide with each other or with the log, and otherwise gives
      field by field the state of the log with those operations, and a delta naming every change. */
  method ApplyOperationsIncrementally(state: MemoryState, ops: seq<Op>, registry: Registry, ghost log: set<Op>)
    returns (r: Result<(MemoryState, Delta)>)
    requires Reached(state, log, registry) && UniqueOps(log + Elements(ops))
    ensures r.Ok? <==> CollisionFree(log + Elements(ops))
    ensures r.Ok? ==> r.value.0 == StateOf(log + Elements(ops), registry, UNSCOPED)
    ensures r.Ok? ==> DeltaCovers(r.value.1, state, r.value.0, registry) && r.value.1.processed == OpIds(ops)
                      && !r.value.1.fullRebuild && r.value.1.NamesNamespaces()
    ensures r.Ok? && AllRedelivered(ops, log) ==> r.value.1.Silent()
  {
    hide Delta.NamesNamespaces;
    if ops == [] {
      assert log + Elements(ops) == log;
      EmptyDeltaCovers(state, registry);
      return Ok((state, EMPTY_DELTA));
    }
    StartAbsorbed(state, log, registry);
    hide Absorbed;
    hide StateOf;
    hide DeltaCovers;
    var absorbed := AbsorbOps(StartWork(state), ops, log, BaseOfState(state), registry);
    if absorbed.ValueError? { return ValueError; }
    var after, d := FinishStep(state, absorbed.value, registry, log, log + Elements(ops));
    Processed(d, state, after, registry, OpIds(ops));
    r := Ok((after, d.(processed := OpIds(ops))));
  }

  function OpIds(ops: seq<Op>): seq<Id> { seq(|ops|, i requires 0 <= i < |ops| => ops[i].opId) }

  lemma Processed(d: Delta, s: MemoryState, t: MemoryState, registry: Registry, ids: seq<Id>)
    requires DeltaCovers(d, s, t, registry)
    ensures DeltaCovers(d.(processed := ids), s, t, registry)
    ensures d.NamesNamespaces() ==> d.(processed := ids).NamesNamespaces()
  {
    hide Covered;
    hide SideOf;
    hide SideFindings;
  }
}
