/** Who decides a lane: the entry that comes after all others, by time, resolutions before events, then
    by identifier. */
module LastWord {
  import opened Basics
  import opened Model
  import opened Lifecycle

  // ---------------------------------------------------------------- the last entry

  /** A resolution counts within its own period only. */
  ghost predicate InForce(r: Resolution, at: Option<Time>) {
    at.Some? ==> (r.validFrom.Some? ==> r.validFrom.value <= at.value) && (r.validUntil.Some? ==> at.value < r.validUntil.value)
  }

  ghost predicate Counts(rs: seq<Resolution>, at: Option<Time>, r: Resolution) { r in rs && InForce(r, at) }

  /** A resolution of the lane after all others in force and after every event. */
  ghost predicate ResolutionIsLast(rs: seq<Resolution>, es: seq<Event>, at: Option<Time>, r: Resolution) {
    && Counts(rs, at, r)
    && (forall x :: Counts(rs, at, x) && x != r ==> x.timestamp < r.timestamp || (x.timestamp == r.timestamp && x.id.n < r.id.n))
    && (forall e :: e in es ==> e.timestamp < r.timestamp)
  }

  /** An event of the lane after all others, and no earlier than any resolution in force. */
  ghost predicate EventIsLast(rs: seq<Resolution>, es: seq<Event>, at: Option<Time>, e: Event) {
    && e in es
    && (forall x :: x in es && x != e ==> x.timestamp < e.timestamp || (x.timestamp == e.timestamp && x.id.n < e.id.n))
    && (forall x :: Counts(rs, at, x) ==> x.timestamp <= e.timestamp)
  }

  /** The resolution an event restores: one of the same reference and scope that observed the same
      conflict, in force. */
  ghost predicate Restores(e: Event, resolutions: map<Id, Resolution>, at: Option<Time>, r: Resolution) {
    e.status == Resolved && e.resolutionId.Some? && e.resolutionId.value in resolutions && resolutions[e.resolutionId.value] == r
    && r.conflictRef == e.conflictRef && r.scope == e.scope && r.observedConflictId == e.observedConflictId && InForce(r, at)
  }

  lemma {:induction false} EntriesCount(rs: seq<Resolution>, at: Option<Time>, x: Entry)
    ensures x in ResolutionEntries(rs, at) <==> x.ResolutionEntry? && Counts(rs, at, x.resolution)
  {
    if rs != [] {
      var front, last := rs[..|rs| - 1], rs[|rs| - 1];
      assert rs == front + [last];
      EntriesCount(front, at, x);
      assert ResolutionApplies(last, at) <==> InForce(last, at);
    }
  }

  lemma EventsEnter(es: seq<Event>, x: Entry)
    ensures x in EventEntries(es) <==> x.EventEntry? && x.event in es
  {
    if x.EventEntry? && x.event in es {
      var i :| 0 <= i < |es| && es[i] == x.event;
      assert EventEntries(es)[i] == x;
    }
  }

  lemma TimelineHolds(rs: seq<Resolution>, es: seq<Event>, at: Option<Time>, x: Entry)
    ensures x in Timeline(rs, es, at)
            <==> (x.ResolutionEntry? && Counts(rs, at, x.resolution)) || (x.EventEntry? && x.event in es)
  {
    var all := ResolutionEntries(rs, at) + EventEntries(es);
    SortByProperties(all, EntryRank);
    SameMultisetSameElements(all, Timeline(rs, es, at));
    EntriesCount(rs, at, x);
    EventsEnter(es, x);
    assert x in Elements(all) <==> x in Elements(Timeline(rs, es, at));
  }

  lemma LastOfSorted(entries: seq<Entry>, x: Entry)
    requires Sorted(entries, EntryRank) && x in entries
    requires forall y :: y in entries && y != x ==> Below(EntryRank(y), EntryRank(x))
    ensures entries[|entries| - 1] == x
  {
    var last := entries[|entries| - 1];
    var i :| 0 <= i < |entries| && entries[i] == x;
    assert last in entries;
    assert i < |entries| - 1 ==> !Below(EntryRank(last), EntryRank(entries[i]));
  }

  lemma LastIsAfter(rs: seq<Resolution>, es: seq<Event>, at: Option<Time>, x: Entry, y: Entry)
    requires if x.ResolutionEntry? then ResolutionIsLast(rs, es, at, x.resolution) else EventIsLast(rs, es, at, x.event)
    requires (y.ResolutionEntry? && Counts(rs, at, y.resolution)) || (y.EventEntry? && y.event in es)
    ensures y != x ==> Below(EntryRank(y), EntryRank(x))
  {
  }

  lemma TimelineEndsIn(rs: seq<Resolution>, es: seq<Event>, at: Option<Time>, x: Entry)
    requires if x.ResolutionEntry? then ResolutionIsLast(rs, es, at, x.resolution) else EventIsLast(rs, es, at, x.event)
    ensures var entries := Timeline(rs, es, at); entries != [] && entries[|entries| - 1] == x
  {
    var entries := Timeline(rs, es, at);
    SortByProperties(ResolutionEntries(rs, at) + EventEntries(es), EntryRank);
    hide Counts;
    assert Sorted(entries, EntryRank);
    hide Timeline;
    hide SortBy;
    hide Sorted;
    TimelineHolds(rs, es, at, x);
    hide EntryRank;
    forall y | y in entries && y != x ensures Below(EntryRank(y), EntryRank(x)) {
      TimelineHolds(rs, es, at, y);
      LastIsAfter(rs, es, at, x, y);
    }
    LastOfSorted(entries, x);
  }

  // ---------------------------------------------------------------- what it decides

  ghost function ResolutionsAt(inputs: Inputs, lane: Lane): seq<Resolution> {
    if lane in inputs.resolutionLanes then inputs.resolutionLanes[lane] else []
  }

  ghost function EventsAt(inputs: Inputs, lane: Lane): seq<Event> {
    if lane in inputs.eventLanes then inputs.eventLanes[lane] else []
  }

  ghost predicate ActiveIs(f: Lifecycle, lane: Lane, r: Resolution) { lane in f.active && f.active[lane] == r }

  ghost predicate StatusIs(f: Lifecycle, lane: Lane, status: Status) { lane in f.statuses && f.statuses[lane] == status }

  lemma ReplayEnds(inputs: Inputs, lane: Lane, x: Entry)
    requires var rs, es := ResolutionsAt(inputs, lane), EventsAt(inputs, lane);
             if x.ResolutionEntry? then ResolutionIsLast(rs, es, inputs.at, x.resolution) else EventIsLast(rs, es, inputs.at, x.event)
    ensures exists st :: LaneReplay(inputs, lane) == StepLane(st, x, inputs.resolutions, inputs.at)
  {
    hide ResolutionIsLast;
    hide EventIsLast;
    var entries := Timeline(ResolutionsAt(inputs, lane), EventsAt(inputs, lane), inputs.at);
    TimelineEndsIn(ResolutionsAt(inputs, lane), EventsAt(inputs, lane), inputs.at, x);
    assert LaneReplay(inputs, lane) == Replay(entries, inputs.resolutions, inputs.at);
    hide Timeline;
    assert LaneReplay(inputs, lane) == StepLane(Replay(entries[..|entries| - 1], inputs.resolutions, inputs.at), x, inputs.resolutions, inputs.at);
  }

  /** The last resolution is the active one; where no conflict stands, the lane is resolved, or
      deferred when it abstains. */
  lemma LastResolutionDecides(inputs: Inputs, lane: Lane, r: Resolution)
    requires ResolutionIsLast(ResolutionsAt(inputs, lane), EventsAt(inputs, lane), inputs.at, r)
    ensures var f := FoldOf(inputs);
            ActiveIs(f, lane, r)
            && (lane.ref !in inputs.conflicts ==> StatusIs(f, lane, if r.outcome == Abstain then Deferred else Resolved))
  {
    ReplayEnds(inputs, lane, ResolutionEntry(r));
    FoldMatches(inputs, lane);
    hide FoldOf;
    hide LaneReplay;
    hide ResolutionIsLast;
  }

  /** The last event clears the lane and leaves its own status, unless it says that the conflict is
      resolved: then the resolution it names becomes active again if it restores it, and otherwise the
      lane is open. */
  lemma LastEventDecides(inputs: Inputs, lane: Lane, e: Event)
    requires EventIsLast(ResolutionsAt(inputs, lane), EventsAt(inputs, lane), inputs.at, e)
    ensures var f := FoldOf(inputs);
            (forall r :: Restores(e, inputs.resolutions, inputs.at, r) ==>
               ActiveIs(f, lane, r)
               && (lane.ref !in inputs.conflicts ==> StatusIs(f, lane, if r.outcome == Abstain then Deferred else Resolved)))
            && ((forall r :: !Restores(e, inputs.resolutions, inputs.at, r)) ==>
                  lane !in f.active && StatusIs(f, lane, if e.status == Resolved then Open else e.status))
  {
    ReplayEnds(inputs, lane, EventEntry(e));
    FoldMatches(inputs, lane);
    hide EventIsLast;
    hide FoldOf;
    EventStep(e, inputs.resolutions, inputs.at);
    hide Restores;
    hide StepLane;
    hide LaneReplay;
  }

  lemma EventStep(e: Event, resolutions: map<Id, Resolution>, at: Option<Time>)
    ensures forall st, r :: Restores(e, resolutions, at, r) ==> StepLane(st, EventEntry(e), resolutions, at) == Adopt(r)
    ensures (forall r :: !Restores(e, resolutions, at, r)) ==>
              forall st :: StepLane(st, EventEntry(e), resolutions, at) == LaneState(None, Some(if e.status == Resolved then Open else e.status))
  {
    if e.status == Resolved && Names(e, resolutions, at) {
      assert Restores(e, resolutions, at, resolutions[e.resolutionId.value]);
    }
  }

  /** A lane on which nothing in force is said has no active resolution, and no status unless it is the
      global lane of a standing conflict, which is open. */
  lemma NothingSaid(inputs: Inputs, lane: Lane)
    requires EventsAt(inputs, lane) == [] && forall r :: !Counts(ResolutionsAt(inputs, lane), inputs.at, r)
    ensures var f := FoldOf(inputs);
            lane !in f.active && lane !in f.effective
            && (if lane.ref in inputs.conflicts && lane.scope == None then StatusIs(f, lane, Open) else lane !in f.statuses)
  {
    var entries := Timeline(ResolutionsAt(inputs, lane), EventsAt(inputs, lane), inputs.at);
    if entries != [] {
      TimelineHolds(ResolutionsAt(inputs, lane), EventsAt(inputs, lane), inputs.at, entries[0]);
      assert false;
    }
    hide Timeline;
    assert LaneReplay(inputs, lane) == LaneState(None, None);
    FoldMatches(inputs, lane);
    hide FoldOf;
    hide LaneReplay;
  }

  // ---------------------------------------------------------------- against a standing conflict

  /** A direct conflict: one key, the built-in detector. */
  ghost predicate IsDirect(c: ConflictSet) {
    c.keys == {c.key} && c.conflictType == "same_key_distinct_value" && c.detector == "direct"
  }

  /** A resolution saw exactly the claims it classifies, and classifies every candidate. */
  ghost predicate SawAll(r: Resolution, c: ConflictSet) {
    && r.observedConflictId == KeyedId(c.key, r.selected + r.rejected + r.retained)
    && forall x :: x in c.candidates ==> x.id in r.selected || x.id in r.rejected || x.id in r.retained
  }

  ghost predicate SelectsOnly(r: Resolution, c: ConflictSet, x: Claim) {
    x in c.candidates && x.id in r.selected && forall y :: y in c.candidates && y.id in r.selected ==> y.id == x.id
  }

  /** It keeps all candidates, or chooses exactly one. */
  ghost predicate Settles(r: Resolution, c: ConflictSet) {
    (r.outcome == Preserve && r.selected == {} && r.rejected == {} && forall x :: x in c.candidates ==> x.id in r.retained)
    || ((r.outcome == Select || r.outcome == Replace || r.outcome == Merge) && exists x :: SelectsOnly(r, c, x))
  }

  lemma OneSelected(r: Resolution, c: ConflictSet)
    ensures |c.CandidateIds() * r.selected| == 1 <==> exists x :: SelectsOnly(r, c, x)
  {
    var ids := c.CandidateIds() * r.selected;
    if |ids| == 1 {
      var id :| id in ids;
      var x :| x in c.candidates && x.id == id;
      assert ids == {id} by {
        assert |ids - {id}| == 0;
      }
      forall y | y in c.candidates && y.id in r.selected ensures y.id == x.id { assert y.id in ids; }
      assert SelectsOnly(r, c, x);
    }
    if exists x :: SelectsOnly(r, c, x) {
      var x :| SelectsOnly(r, c, x);
      assert ids == {x.id};
    }
  }

  lemma SettlesExactly(r: Resolution, c: ConflictSet)
    requires IsDirect(c)
    ensures Covers(r, c) <==> SawAll(r, c)
    ensures TakesEffect(r, c) <==> r.outcome != Abstain && SawAll(r, c) && Settles(r, c)
  {
    OneSelected(r, c);
    hide SelectsOnly;
    AllIn(c, r.Classified());
    AllIn(c, r.retained);
    hide ConflictSet.CandidateIds;
  }

  lemma AllIn(c: ConflictSet, ids: set<Id>)
    ensures c.CandidateIds() <= ids <==> forall x :: x in c.candidates ==> x.id in ids
  {
    if c.CandidateIds() <= ids {
      forall x | x in c.candidates ensures x.id in ids { assert x.id in c.CandidateIds(); }
    }
  }

  /** On a lane whose direct conflict stands, the active resolution is effective exactly when it saw
      every candidate and settles them, and the lane is then resolved; one that abstains leaves it
      deferred as long as it saw every candidate; in all other cases the lane is reopened. */
  lemma ActiveAgainstConflict(inputs: Inputs, lane: Lane, r: Resolution)
    requires lane.ref in inputs.conflicts && IsDirect(inputs.conflicts[lane.ref]) && ActiveIs(FoldOf(inputs), lane, r)
    ensures var f, c := FoldOf(inputs), inputs.conflicts[lane.ref];
            (lane in f.effective <==> r.outcome != Abstain && SawAll(r, c) && Settles(r, c))
            && (lane in f.effective ==> f.effective[lane] == r)
            && StatusIs(f, lane, if !SawAll(r, c) then Reopened
                                 else if r.outcome == Abstain then Deferred
                                 else if Settles(r, c) then Resolved else Reopened)
  {
    FoldMatches(inputs, lane);
    SettlesExactly(r, inputs.conflicts[lane.ref]);
    hide FoldOf;
    hide LaneReplay;
    hide TakesEffect;
    hide Covers;
    hide SawAll;
    hide Settles;
  }

  /** Without an active resolution nothing is effective. */
  lemma NoneActive(inputs: Inputs, lane: Lane)
    requires lane !in FoldOf(inputs).active
    ensures lane !in FoldOf(inputs).effective
  {
    FoldMatches(inputs, lane);
    hide FoldOf;
    hide LaneReplay;
  }
}
