/** The loop over affected conflict references: refolding only their lanes gives what folding
    everything gives. */
module Refold {
  import opened Basics
  import opened Model
  import opened Lifecycle
  import opened Records
  import opened State
  import opened Tables
  import opened Affected

  // ---------------------------------------------------------------- histories of one reference

  function HistoryAt<K, V>(m: map<K, seq<V>>, k: K): seq<V> { if k in m then m[k] else [] }

  lemma ListedAt<K(!new), V(!new)>(pairs: set<(K, V)>, k: K, rank: V -> Rank)
    requires Distinct(Seconds(pairs), rank)
    ensures var listed := HistoryAt(Listings(pairs, rank), k);
            StrictlySorted(listed, rank) && forall x :: x in listed <==> (k, x) in pairs
  {
    ImageDistinct(pairs, k, rank);
    ListingProperties(Image(pairs, k), rank);
    ImageOutside(pairs, k);
    var listed := HistoryAt(Listings(pairs, rank), k);
    assert Elements(listed) == Image(pairs, k);
    forall x ensures x in listed <==> (k, x) in pairs {
      ImageMember(pairs, k, x);
      assert x in listed <==> x in Elements(listed);
    }
  }

  lemma {:induction false} InLaneProperties<T(!new)>(s: seq<T>, lane: Lane, laneOf: T -> Lane, rank: T -> Rank)
    requires StrictlySorted(s, rank)
    ensures StrictlySorted(InLane(s, lane, laneOf), rank)
    ensures forall x :: x in InLane(s, lane, laneOf) <==> x in s && laneOf(x) == lane
  {
    if s != [] {
      var front, last := s[..|s| - 1], s[|s| - 1];
      assert s == front + [last];
      InLaneProperties(front, lane, laneOf, rank);
      forall x | x in InLane(front, lane, laneOf) ensures Below(rank(x), rank(last)) {
        var i :| 0 <= i < |front| && front[i] == x;
        assert s[i] == x;
      }
    }
  }

  /** A reference's history, split by lane, is the lane history. */
  lemma SplitHistory<T(!new)>(byRef: seq<T>, byLane: seq<T>, lane: Lane, laneOf: T -> Lane, rank: T -> Rank)
    requires StrictlySorted(byRef, rank) && StrictlySorted(byLane, rank)
    requires forall x :: x in byLane <==> x in byRef && laneOf(x) == lane
    ensures byLane == InLane(byRef, lane, laneOf)
  {
    InLaneProperties(byRef, lane, laneOf, rank);
    assert Elements(byLane) == Elements(InLane(byRef, lane, laneOf));
    StrictlySortedUnique(byLane, InLane(byRef, lane, laneOf), rank);
  }

  lemma ResolutionPairs(rs: map<Id, Resolution>, x: Resolution, ref: ConflictRef, lane: Lane)
    requires ResolutionsFiled(rs)
    ensures (ref, x) in ResolutionRefPairs(rs) <==> x.id in rs && rs[x.id] == x && x.conflictRef == ref
    ensures (lane, x) in ResolutionLanePairs(rs) <==> x.id in rs && rs[x.id] == x && LaneOfResolution(x) == lane
  {
  }

  lemma EventPairs(es: map<Id, Event>, x: Event, ref: ConflictRef, lane: Lane)
    requires EventsFiled(es)
    ensures (ref, x) in EventRefPairs(es) <==> x.id in es && es[x.id] == x && x.conflictRef == ref
    ensures (lane, x) in EventLanePairs(es) <==> x.id in es && es[x.id] == x && LaneOfEvent(x) == lane
  {
  }

  lemma ResolutionHistoryAt(rs: map<Id, Resolution>, ref: ConflictRef)
    requires ResolutionsFiled(rs)
    ensures var listed := HistoryAt(Listings(ResolutionRefPairs(rs), ResolutionRank), ref);
            StrictlySorted(listed, ResolutionRank)
            && forall x :: x in listed <==> x.id in rs && rs[x.id] == x && x.conflictRef == ref
  {
    ResolutionsDistinct(rs);
    ListedAt(ResolutionRefPairs(rs), ref, ResolutionRank);
    forall x { ResolutionPairs(rs, x, ref, Lane(ref, None)); }
  }

  lemma ResolutionLaneAt(rs: map<Id, Resolution>, lane: Lane)
    requires ResolutionsFiled(rs)
    ensures var listed := LaneHistory(Listings(ResolutionLanePairs(rs), ResolutionRank), lane);
            StrictlySorted(listed, ResolutionRank)
            && forall x :: x in listed <==> x.id in rs && rs[x.id] == x && LaneOfResolution(x) == lane
  {
    ResolutionsDistinct(rs);
    ListedAt(ResolutionLanePairs(rs), lane, ResolutionRank);
    forall x { ResolutionPairs(rs, x, lane.ref, lane); }
  }

  lemma EventHistoryAt(es: map<Id, Event>, ref: ConflictRef)
    requires EventsFiled(es)
    ensures var listed := HistoryAt(Listings(EventRefPairs(es), EventRank), ref);
            StrictlySorted(listed, EventRank)
            && forall x :: x in listed <==> x.id in es && es[x.id] == x && x.conflictRef == ref
  {
    EventsDistinct(es);
    ListedAt(EventRefPairs(es), ref, EventRank);
    forall x { EventPairs(es, x, ref, Lane(ref, None)); }
  }

  lemma EventLaneAt(es: map<Id, Event>, lane: Lane)
    requires EventsFiled(es)
    ensures var listed := LaneHistory(Listings(EventLanePairs(es), EventRank), lane);
            StrictlySorted(listed, EventRank)
            && forall x :: x in listed <==> x.id in es && es[x.id] == x && LaneOfEvent(x) == lane
  {
    EventsDistinct(es);
    ListedAt(EventLanePairs(es), lane, EventRank);
    forall x { EventPairs(es, x, lane.ref, lane); }
  }

  lemma ResolutionsSplit(rs: map<Id, Resolution>, ref: ConflictRef, lane: Lane)
    requires ResolutionsFiled(rs) && lane.ref == ref
    ensures LaneHistory(Listings(ResolutionLanePairs(rs), ResolutionRank), lane)
            == InLane(HistoryAt(Listings(ResolutionRefPairs(rs), ResolutionRank), ref), lane, LaneOfResolution)
  {
    ResolutionHistoryAt(rs, ref);
    ResolutionLaneAt(rs, lane);
    SplitHistory(HistoryAt(Listings(ResolutionRefPairs(rs), ResolutionRank), ref),
                 LaneHistory(Listings(ResolutionLanePairs(rs), ResolutionRank), lane), lane, LaneOfResolution, ResolutionRank);
  }

  lemma EventsSplit(es: map<Id, Event>, ref: ConflictRef, lane: Lane)
    requires EventsFiled(es) && lane.ref == ref
    ensures LaneHistory(Listings(EventLanePairs(es), EventRank), lane)
            == InLane(HistoryAt(Listings(EventRefPairs(es), EventRank), ref), lane, LaneOfEvent)
  {
    EventHistoryAt(es, ref);
    EventLaneAt(es, lane);
    SplitHistory(HistoryAt(Listings(EventRefPairs(es), EventRank), ref),
                 LaneHistory(Listings(EventLanePairs(es), EventRank), lane), lane, LaneOfEvent, EventRank);
  }

  lemma HistoriesOfRef(r: Records, byRef: map<ConflictRef, ConflictSet>, ref: ConflictRef)
    requires ResolutionsFiled(r.resolutions) && EventsFiled(r.events)
    ensures var h := HistoriesOf(r);
            RefHistories(FoldInputs(r, h, byRef, None), ref, HistoryAt(h.resolutionsByRef, ref), HistoryAt(h.eventsByRef, ref))
  {
    ResolutionHistoryAt(r.resolutions, ref);
    EventHistoryAt(r.events, ref);
    hide Listings;
    var h := HistoriesOf(r);
    forall lane: Lane | lane.ref == ref
      ensures LaneHistory(h.resolutionLanes, lane) == InLane(HistoryAt(h.resolutionsByRef, ref), lane, LaneOfResolution)
      ensures LaneHistory(h.eventLanes, lane) == InLane(HistoryAt(h.eventsByRef, ref), lane, LaneOfEvent)
    {
      ResolutionsSplit(r.resolutions, ref, lane);
      EventsSplit(r.events, ref, lane);
    }
  }

  lemma HistoriesFiled(r: Records, byRef: map<ConflictRef, ConflictSet>)
    requires EventsFiled(r.events)
    ensures Filed(FoldInputs(r, HistoriesOf(r), byRef, None))
  {
    var lanes := HistoriesOf(r).eventLanes;
    forall lane | lane in lanes ensures EventsInLane(lanes[lane], lane) {
      EventLaneAt(r.events, lane);
      assert forall i :: 0 <= i < |lanes[lane]| ==> lanes[lane][i] in LaneHistory(lanes, lane);
    }
  }

  // ---------------------------------------------------------------- unaffected lanes

  lemma LaneHistoriesKept(a: Records, b: Records, lane: Lane)
    requires ResolutionsFiled(a.resolutions) && ResolutionsFiled(b.resolutions)
    requires EventsFiled(a.events) && EventsFiled(b.events)
    requires forall id :: id in a.resolutions ==> SameResolution(a, b, id)
    requires forall id :: id in a.events ==> SameEvent(a, b, id)
    requires forall id :: id in b.resolutions && b.resolutions[id].conflictRef == lane.ref ==> SameResolution(a, b, id)
    requires forall id :: id in b.events && b.events[id].conflictRef == lane.ref ==> SameEvent(a, b, id)
    ensures LaneHistory(HistoriesOf(a).resolutionLanes, lane) == LaneHistory(HistoriesOf(b).resolutionLanes, lane)
    ensures LaneHistory(HistoriesOf(a).eventLanes, lane) == LaneHistory(HistoriesOf(b).eventLanes, lane)
    ensures SameLaneRecords(a.resolutions, b.resolutions, lane)
  {
    hide Listings;
    ResolutionLaneAt(a.resolutions, lane);
    ResolutionLaneAt(b.resolutions, lane);
    EventLaneAt(a.events, lane);
    EventLaneAt(b.events, lane);
    var s, t := LaneHistory(HistoriesOf(a).resolutionLanes, lane), LaneHistory(HistoriesOf(b).resolutionLanes, lane);
    assert Elements(s) == Elements(t);
    StrictlySortedUnique(s, t, ResolutionRank);
    var u, v := LaneHistory(HistoriesOf(a).eventLanes, lane), LaneHistory(HistoriesOf(b).eventLanes, lane);
    assert Elements(u) == Elements(v);
    StrictlySortedUnique(u, v, EventRank);
  }

  ghost predicate SameAtRef(a: map<ConflictRef, ConflictSet>, b: map<ConflictRef, ConflictSet>, ref: ConflictRef) {
    (ref in a <==> ref in b) && (ref in a ==> a[ref] == b[ref])
  }

  /** A lane of an unaffected reference folds as it did before. */
  lemma LaneKept(a: Base, b: Base, marks: Marks, lane: Lane, was: map<ConflictRef, ConflictSet>, now: map<ConflictRef, ConflictSet>,
                 f: Lifecycle)
    requires Covered(a, b, marks) && WellFiled(a.records) && WellFiled(b.records)
    requires lane.ref !in marks.refs && SameAtRef(was, now, lane.ref)
    requires f == FoldOf(FoldInputs(a.records, HistoriesOf(a.records), was, None))
    ensures LaneMatches(FoldInputs(b.records, HistoriesOf(b.records), now, None), lane, f)
  {
    var before, after := FoldInputs(a.records, HistoriesOf(a.records), was, None), FoldInputs(b.records, HistoriesOf(b.records), now, None);
    LaneHistoriesKept(a.records, b.records, lane);
    HistoriesFiled(a.records, was);
    hide Covered;
    hide HistoriesOf;
    hide Filed;
    hide WellFiled;
    FoldMatches(before, lane);
    LaneIsLocal(before, after, lane);
  }

  // ---------------------------------------------------------------- the loop

  ghost function ResolutionsOn(resolutions: map<Id, Resolution>, refs: set<ConflictRef>): set<Id> {
    set id | id in resolutions && resolutions[id].conflictRef in refs
  }

  function ResolutionIds(rs: seq<Resolution>): set<Id> { set r | r in rs :: r.id }

  lemma ResolutionsOnStep(resolutions: map<Id, Resolution>, refs: set<ConflictRef>, ref: ConflictRef)
    requires ResolutionsFiled(resolutions)
    ensures ResolutionsOn(resolutions, refs + {ref})
            == ResolutionsOn(resolutions, refs) + ResolutionIds(HistoryAt(Listings(ResolutionRefPairs(resolutions), ResolutionRank), ref))
  {
    ResolutionHistoryAt(resolutions, ref);
    var listed := HistoryAt(Listings(ResolutionRefPairs(resolutions), ResolutionRank), ref);
    forall id ensures id in ResolutionIds(listed) <==> id in resolutions && resolutions[id].conflictRef == ref {
      if id in resolutions && resolutions[id].conflictRef == ref { assert resolutions[id] in listed; }
    }
  }

  ghost predicate RefoldedSoFar(inputs: Inputs, todo: set<ConflictRef>, f: Lifecycle) {
    forall lane: Lane :: lane.ref !in todo ==> LaneMatches(inputs, lane, f)
  }

  lemma RefoldedNext(inputs: Inputs, todo: set<ConflictRef>, ref: ConflictRef, f: Lifecycle, g: Lifecycle)
    requires RefoldedSoFar(inputs, todo, f) && Refolded(inputs, ref, f, g)
    ensures RefoldedSoFar(inputs, todo - {ref}, g)
  {
    hide LaneMatches;
    forall lane: Lane | lane.ref !in todo - {ref} ensures LaneMatches(inputs, lane, g) {
      if lane.ref != ref {
        assert SameLane(lane, f, g);
        SameEntry(inputs, lane, f, g);
      }
    }
  }

  /** The body of `for conflict_ref in sorted(affected_conflict_refs)`. */
  method RefoldOne(ref: ConflictRef, r: Records, h: Histories, byRef: map<ConflictRef, ConflictSet>, f: Lifecycle,
                   ghost inputs: Inputs, ghost todo: set<ConflictRef>)
    returns (g: Lifecycle)
    requires inputs == FoldInputs(r, h, byRef, None) && Filed(inputs) && h == HistoriesOf(r)
    requires ResolutionsFiled(r.resolutions) && EventsFiled(r.events)
    requires RefoldedSoFar(inputs, todo, f)
    ensures RefoldedSoFar(inputs, todo - {ref}, g)
  {
    HistoriesOfRef(r, byRef, ref);
    hide RefHistories;
    hide HistoriesOf;
    hide Filed;
    hide Refolded;
    hide RefoldedSoFar;
    g := ReplaceLifecycleFoldForRef(
      ref, r.resolutions, HistoryAt(h.resolutionsByRef, ref), HistoryAt(h.eventsByRef, ref), byRef, f, inputs);
    RefoldedNext(inputs, todo, ref, f, g);
  }

  ghost predicate RefoldState(inputs: Inputs, refs: set<ConflictRef>, todo: set<ConflictRef>, g: Lifecycle,
                              marked: set<Id>, resolutionIds: set<Id>)
  {
    && RefoldedSoFar(inputs, todo, g)
    && resolutionIds == marked + ResolutionsOn(inputs.resolutions, refs - todo)
  }

  method RefoldNext(ref: ConflictRef, r: Records, h: Histories, byRef: map<ConflictRef, ConflictSet>, f: Lifecycle,
                    resolutionIds: set<Id>, ghost inputs: Inputs, ghost refs: set<ConflictRef>, ghost todo: set<ConflictRef>,
                    ghost marked: set<Id>)
    returns (g: Lifecycle, resolutionIds': set<Id>)
    requires inputs == FoldInputs(r, h, byRef, None) && Filed(inputs) && h == HistoriesOf(r)
    requires ResolutionsFiled(r.resolutions) && EventsFiled(r.events)
    requires ref in todo && todo <= refs
    requires RefoldState(inputs, refs, todo, f, marked, resolutionIds)
    ensures RefoldState(inputs, refs, todo - {ref}, g, marked, resolutionIds')
  {
    ResolutionsOnStep(r.resolutions, refs - todo, ref);
    assert refs - (todo - {ref}) == (refs - todo) + {ref};
    hide RefoldedSoFar;
    hide Filed;
    hide Listings;
    hide ResolutionsOn;
    hide ResolutionIds;
    g := RefoldOne(ref, r, h, byRef, f, inputs, todo);
    resolutionIds' := resolutionIds + ResolutionIds(HistoryAt(h.resolutionsByRef, ref));
  }

  method RefoldAll(refs: set<ConflictRef>, r: Records, h: Histories, byRef: map<ConflictRef, ConflictSet>,
                   f: Lifecycle, marked: set<Id>)
    returns (g: Lifecycle, resolutionIds: set<Id>)
    requires ResolutionsFiled(r.resolutions) && EventsFiled(r.events) && h == HistoriesOf(r)
    requires RefoldedSoFar(FoldInputs(r, h, byRef, None), refs, f)
    ensures g == FoldOf(FoldInputs(r, h, byRef, None))
    ensures resolutionIds == marked + ResolutionsOn(r.resolutions, refs)
  {
    g, resolutionIds := f, marked;
    var todo := refs;
    ghost var inputs := FoldInputs(r, h, byRef, None);
    HistoriesFiled(r, byRef);
    NoneRefolded(inputs, refs, f, marked);
    hide RefoldState;
    hide Filed;
    hide HistoriesOf;
    hide FoldOf;
    while todo != {}
      invariant todo <= refs
      invariant RefoldState(inputs, refs, todo, g, marked, resolutionIds)
      decreases |todo|
    {
      var _ := Inhabited(todo);
      var ref :| ref in todo;
      g, resolutionIds := RefoldNext(ref, r, h, byRef, g, resolutionIds, inputs, refs, todo, marked);
      todo := todo - {ref};
    }
    AllRefolded(inputs, refs, g, marked, resolutionIds);
  }

  lemma NoneRefolded(inputs: Inputs, refs: set<ConflictRef>, f: Lifecycle, marked: set<Id>)
    requires RefoldedSoFar(inputs, refs, f)
    ensures RefoldState(inputs, refs, refs, f, marked, marked)
  {
    assert ResolutionsOn(inputs.resolutions, refs - refs) == {};
  }

  lemma AllRefolded(inputs: Inputs, refs: set<ConflictRef>, g: Lifecycle, marked: set<Id>, resolutionIds: set<Id>)
    requires RefoldState(inputs, refs, {}, g, marked, resolutionIds)
    ensures g == FoldOf(inputs) && resolutionIds == marked + ResolutionsOn(inputs.resolutions, refs)
  {
    assert refs - {} == refs;
    MatchesUnique(inputs, g);
  }
}
