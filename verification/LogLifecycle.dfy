/** The lifecycle of a lane, told by the resolutions and events of the log. */
module LogLifecycle {
  import opened Basics
  import opened Model
  import opened Lifecycle
  import opened Records
  import opened State
  import opened Reported
  import opened Labelled
  import opened LastWord
  import opened LogTables
  import opened LogHistories

  ghost predicate OnLane(log: set<Op>, lane: Lane, at: Option<Time>, r: Resolution) {
    ResolutionRecorded(log, r) && r.conflictRef == lane.ref && r.scope == lane.scope && InForce(r, at)
  }

  ghost predicate EventOnLane(log: set<Op>, lane: Lane, e: Event) {
    EventRecorded(log, e) && e.conflictRef == lane.ref && e.scope == lane.scope
  }

  /** Of the lane's resolutions in force and its events, this resolution comes last. */
  ghost predicate LastResolution(log: set<Op>, lane: Lane, at: Option<Time>, r: Resolution) {
    && OnLane(log, lane, at, r)
    && (forall x :: OnLane(log, lane, at, x) && x != r ==> x.timestamp < r.timestamp || (x.timestamp == r.timestamp && x.id.n < r.id.n))
    && (forall e :: EventOnLane(log, lane, e) ==> e.timestamp < r.timestamp)
  }

  /** Of the lane's resolutions in force and its events, this event comes last. */
  ghost predicate LastEvent(log: set<Op>, lane: Lane, at: Option<Time>, e: Event) {
    && EventOnLane(log, lane, e)
    && (forall x :: EventOnLane(log, lane, x) && x != e ==> x.timestamp < e.timestamp || (x.timestamp == e.timestamp && x.id.n < e.id.n))
    && (forall x :: OnLane(log, lane, at, x) ==> x.timestamp <= e.timestamp)
  }

  /** The event says that its conflict is resolved by this resolution of its own lane, which saw the
      same conflict and is in force. */
  ghost predicate Confirms(log: set<Op>, at: Option<Time>, e: Event, r: Resolution) {
    e.status == Resolved && e.resolutionId == Some(r.id) && r.observedConflictId == e.observedConflictId
    && OnLane(log, Lane(e.conflictRef, e.scope), at, r)
  }

  ghost function InputsOf(log: set<Op>, registry: Registry, w: Window): Inputs {
    FoldInputs(RecordsOf(log), HistoriesOf(RecordsOf(log)), StateOf(log, registry, w).findings.byRef, w.at)
  }

  lemma LifecycleFolded(log: set<Op>, registry: Registry, w: Window)
    ensures StateOf(log, registry, w).lifecycle == FoldOf(InputsOf(log, registry, w))
  {
    hide RecordsOf;
    hide HistoriesOf;
    hide FoldOf;
    hide FindingSet;
    hide TablesOf;
    hide ActivityOf;
  }

  lemma LaneLists(log: set<Op>, registry: Registry, w: Window, lane: Lane)
    requires CollisionFree(log)
    ensures var inputs := InputsOf(log, registry, w);
            Heard(log, lane, w.at, ResolutionsAt(inputs, lane), EventsAt(inputs, lane))
            && inputs.at == w.at && inputs.resolutions == RecordsOf(log).resolutions
            && inputs.conflicts == StateOf(log, registry, w).findings.byRef
  {
    HistoriesExactly(log, registry, w, lane);
    ActivityParts(log, registry, w);
    hide StateOf;
    hide RecordsOf;
    hide HistoriesOf;
    hide CollisionFree;
    hide ResolutionsListed;
    hide EventsListed;
    hide Heard;
    hide ResolutionsAt;
    hide EventsAt;
    ListsHeard(HistoriesOf(RecordsOf(log)), InputsOf(log, registry, w), log, lane, w.at);
  }

  lemma ListsHeard(h: Histories, inputs: Inputs, log: set<Op>, lane: Lane, at: Option<Time>)
    requires ResolutionsListed(h, log, lane) && EventsListed(h, log, lane)
    requires inputs.resolutionLanes == h.resolutionLanes && inputs.eventLanes == h.eventLanes
    ensures Heard(log, lane, at, ResolutionsAt(inputs, lane), EventsAt(inputs, lane))
  {
    hide ResolutionRecorded;
    hide EventRecorded;
    hide ResolutionsInTime;
    hide EventsInTime;
    hide InForce;
    forall r ensures Counts(ResolutionsAt(inputs, lane), at, r) <==> OnLane(log, lane, at, r) {
      assert Lists(h.resolutionLanes, lane, r) <==> r in ResolutionsAt(inputs, lane);
    }
    forall e ensures e in EventsAt(inputs, lane) <==> EventOnLane(log, lane, e) {
      assert Lists(h.eventLanes, lane, e) <==> e in EventsAt(inputs, lane);
    }
  }

  /** Lists that hold what the log says of a lane. */
  ghost predicate Heard(log: set<Op>, lane: Lane, at: Option<Time>, rs: seq<Resolution>, es: seq<Event>) {
    && (forall r :: Counts(rs, at, r) <==> OnLane(log, lane, at, r)) && (forall e :: e in es <==> EventOnLane(log, lane, e))
  }

  lemma LastHeard(log: set<Op>, lane: Lane, at: Option<Time>, rs: seq<Resolution>, es: seq<Event>)
    requires Heard(log, lane, at, rs, es)
    ensures forall r :: ResolutionIsLast(rs, es, at, r) <==> LastResolution(log, lane, at, r)
    ensures forall e :: EventIsLast(rs, es, at, e) <==> LastEvent(log, lane, at, e)
  {
    hide Counts;
    hide OnLane;
    hide EventOnLane;
  }

  lemma FirstIn(es: seq<Event>)
    ensures es != [] ==> es[0] in es
  {
  }

  /** The resolution that comes last on a lane is the active one. */
  lemma LastResolutionActive(log: set<Op>, registry: Registry, w: Window, lane: Lane, r: Resolution)
    requires CollisionFree(log) && LastResolution(log, lane, w.at, r)
    ensures var s := StateOf(log, registry, w);
            ActiveIs(s.lifecycle, lane, r)
            && (lane.ref !in s.findings.byRef ==> StatusIs(s.lifecycle, lane, if r.outcome == Abstain then Deferred else Resolved))
  {
    LifecycleFolded(log, registry, w);
    LaneLists(log, registry, w, lane);
    hide StateOf;
    hide RecordsOf;
    hide HistoriesOf;
    hide CollisionFree;
    hide FoldOf;
    hide InputsOf;
    hide Heard;
    hide LastResolution;
    hide ResolutionIsLast;
    hide ResolutionsAt;
    hide EventsAt;
    LastHeard(log, lane, w.at, ResolutionsAt(InputsOf(log, registry, w), lane), EventsAt(InputsOf(log, registry, w), lane));
    LastResolutionDecides(InputsOf(log, registry, w), lane, r);
  }

  lemma ConfirmsRestores(log: set<Op>, at: Option<Time>, e: Event, r: Resolution)
    requires CollisionFree(log)
    ensures Restores(e, RecordsOf(log).resolutions, at, r) <==> Confirms(log, at, e, r)
  {
    RecordsWellFiled(log);
    ResolutionStored(log, r);
    hide RecordsOf;
    hide CollisionFree;
    hide ResolutionRecorded;
    hide InForce;
  }

  /** The event that comes last on a lane leaves it with no active resolution and its own status; one
      that says resolved makes the resolution it confirms active, or leaves the lane open. */
  lemma LastEventDecidesLane(log: set<Op>, registry: Registry, w: Window, lane: Lane, e: Event)
    requires CollisionFree(log) && LastEvent(log, lane, w.at, e)
    ensures var s := StateOf(log, registry, w);
            (forall r :: Confirms(log, w.at, e, r) ==>
               ActiveIs(s.lifecycle, lane, r)
               && (lane.ref !in s.findings.byRef ==> StatusIs(s.lifecycle, lane, if r.outcome == Abstain then Deferred else Resolved)))
            && ((forall r :: !Confirms(log, w.at, e, r)) ==>
                  lane !in s.lifecycle.active && lane !in s.lifecycle.effective
                  && StatusIs(s.lifecycle, lane, if e.status == Resolved then Open else e.status))
  {
    LifecycleFolded(log, registry, w);
    LaneLists(log, registry, w, lane);
    forall r ensures Restores(e, RecordsOf(log).resolutions, w.at, r) <==> Confirms(log, w.at, e, r) { ConfirmsRestores(log, w.at, e, r); }
    hide StateOf;
    hide RecordsOf;
    hide HistoriesOf;
    hide CollisionFree;
    hide FoldOf;
    hide InputsOf;
    hide Heard;
    hide LastEvent;
    hide EventIsLast;
    hide ResolutionsAt;
    hide EventsAt;
    hide Restores;
    hide Confirms;
    var inputs := InputsOf(log, registry, w);
    LastHeard(log, lane, w.at, ResolutionsAt(inputs, lane), EventsAt(inputs, lane));
    LastEventDecides(inputs, lane, e);
    if lane !in FoldOf(inputs).active { NoneActive(inputs, lane); }
  }

  /** On a lane of which the log says nothing in force nothing is active, and a standing conflict is open. */
  lemma SilentLane(log: set<Op>, registry: Registry, w: Window, lane: Lane)
    requires CollisionFree(log) && (forall r :: !OnLane(log, lane, w.at, r)) && forall e :: !EventOnLane(log, lane, e)
    ensures var s := StateOf(log, registry, w);
            lane !in s.lifecycle.active && lane !in s.lifecycle.effective
            && (if lane.ref in s.findings.byRef && lane.scope == None then StatusIs(s.lifecycle, lane, Open) else lane !in s.lifecycle.statuses)
  {
    LifecycleFolded(log, registry, w);
    LaneLists(log, registry, w, lane);
    hide StateOf;
    hide RecordsOf;
    hide HistoriesOf;
    hide CollisionFree;
    hide FoldOf;
    hide InputsOf;
    hide Counts;
    hide ResolutionsAt;
    hide EventsAt;
    var inputs := InputsOf(log, registry, w);
    FirstIn(EventsAt(inputs, lane));
    NothingSaid(inputs, lane);
  }

  /** On a lane whose finding stands: the active resolution is effective exactly when it saw every
      candidate and settles them. */
  lemma ActiveSettles(log: set<Op>, registry: Registry, w: Window, lane: Lane, r: Resolution)
    requires CollisionFree(log)
    requires lane.ref in StateOf(log, registry, w).findings.byRef && ActiveIs(StateOf(log, registry, w).lifecycle, lane, r)
    ensures var s := StateOf(log, registry, w);
            var c := s.findings.byRef[lane.ref];
            (lane in s.lifecycle.effective <==> r.outcome != Abstain && SawAll(r, c) && Settles(r, c))
            && (lane in s.lifecycle.effective ==> s.lifecycle.effective[lane] == r)
            && StatusIs(s.lifecycle, lane, if !SawAll(r, c) then Reopened
                                           else if r.outcome == Abstain then Deferred
                                           else if Settles(r, c) then Resolved else Reopened)
  {
    LifecycleFolded(log, registry, w);
    var cs := FindingsExactly(log, registry, w);
    DirectByRef(StateOf(log, registry, w), cs, registry.rules, lane.ref);
    LaneLists(log, registry, w, lane);
    hide StateOf;
    hide RecordsOf;
    hide HistoriesOf;
    hide CollisionFree;
    hide FoldOf;
    hide InputsOf;
    hide SawAll;
    hide Settles;
    hide IsDirect;
    hide Heard;
    hide Tabled;
    hide ReportsAll;
    hide Labels;
    ActiveAgainstConflict(InputsOf(log, registry, w), lane, r);
  }

  lemma DirectByRef(s: MemoryState, cs: set<ConflictSet>, rules: map<Name, Rule>, ref: ConflictRef)
    requires Tabled(s.findings, cs) && ReportsAll(cs, s.activity.byKey, rules) && ref in s.findings.byRef
    ensures IsDirect(s.findings.byRef[ref])
  {
    hide TabledAt;
    hide PairsExact;
    hide TakesPart;
    hide AnyClash;
  }
}
