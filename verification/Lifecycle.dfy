/** The lifecycle fold: each lane's timeline of resolutions and events, replayed and then checked
    against the conflict as it stands. */
module Lifecycle {
  import opened Basics
  import opened Model

  datatype Lifecycle = Lifecycle(
    active: map<Lane, Resolution>, effective: map<Lane, Resolution>, statuses: map<Lane, Status>)

  /** What the fold reads. `at` is the instant a scoped materialization asks about. */
  datatype Inputs = Inputs(
    resolutions: map<Id, Resolution>,
    resolutionLanes: map<Lane, seq<Resolution>>,
    eventLanes: map<Lane, seq<Event>>,
    conflicts: map<ConflictRef, ConflictSet>,
    at: Option<Time>)

  predicate ResolutionApplies(r: Resolution, at: Option<Time>) {
    at.None?
    || ((r.validFrom.Some? ==> r.validFrom.value <= at.value)
        && (r.validUntil.Some? ==> at.value < r.validUntil.value))
  }

  // ---------------------------------------------------------------- one lane's timeline

  datatype Entry = ResolutionEntry(resolution: Resolution) | EventEntry(event: Event)

  function EntryRank(entry: Entry): Rank {
    match entry
    case ResolutionEntry(r) => Rank(r.timestamp, 0, r.id.n)
    case EventEntry(e) => Rank(e.timestamp, 1, e.id.n)
  }

  function ResolutionEntries(rs: seq<Resolution>, at: Option<Time>): seq<Entry> {
    if rs == [] then []
    else ResolutionEntries(rs[..|rs| - 1], at)
         + if ResolutionApplies(rs[|rs| - 1], at) then [ResolutionEntry(rs[|rs| - 1])] else []
  }

  function EventEntries(es: seq<Event>): seq<Entry> {
    seq(|es|, i requires 0 <= i < |es| => EventEntry(es[i]))
  }

  function Timeline(rs: seq<Resolution>, es: seq<Event>, at: Option<Time>): seq<Entry> {
    SortBy(ResolutionEntries(rs, at) + EventEntries(es), EntryRank)
  }

  // ---------------------------------------------------------------- replay

  datatype LaneState = LaneState(active: Option<Resolution>, status: Option<Status>)

  /** An event can only name a resolution of its own lane that observed the same conflict. */
  predicate Names(event: Event, resolutions: map<Id, Resolution>, at: Option<Time>) {
    event.resolutionId.Some? && event.resolutionId.value in resolutions
    && var r := resolutions[event.resolutionId.value];
    r.conflictRef == event.conflictRef && r.scope == event.scope
    && r.observedConflictId == event.observedConflictId && ResolutionApplies(r, at)
  }

  function Adopt(r: Resolution): LaneState {
    LaneState(Some(r), Some(if r.outcome.Abstain? then Deferred else Resolved))
  }

  function StepLane(st: LaneState, entry: Entry, resolutions: map<Id, Resolution>, at: Option<Time>): LaneState {
    match entry
    case ResolutionEntry(r) => Adopt(r)
    case EventEntry(e) =>
      if e.status != Resolved then LaneState(None, Some(e.status))
      else if !Names(e, resolutions, at) then LaneState(None, Some(Open))
      else Adopt(resolutions[e.resolutionId.value])
  }

  function Replay(entries: seq<Entry>, resolutions: map<Id, Resolution>, at: Option<Time>): LaneState {
    if entries == [] then LaneState(None, None)
    else StepLane(Replay(entries[..|entries| - 1], resolutions, at), entries[|entries| - 1], resolutions, at)
  }

  function LaneHistory<T>(lanes: map<Lane, seq<T>>, lane: Lane): seq<T> { if lane in lanes then lanes[lane] else [] }

  function LaneReplay(inputs: Inputs, lane: Lane): LaneState {
    Replay(Timeline(LaneHistory(inputs.resolutionLanes, lane), LaneHistory(inputs.eventLanes, lane), inputs.at),
           inputs.resolutions, inputs.at)
  }

  // ---------------------------------------------------------------- check against the conflict

  predicate ObservedMatches(r: Resolution, conflict: ConflictSet) {
    r.observedConflictId
    == DeriveConflictId(conflict.key, r.Classified(), conflict.conflictType, conflict.keys, conflict.detector)
  }

  predicate Covers(r: Resolution, conflict: ConflictSet) {
    ObservedMatches(r, conflict) && conflict.CandidateIds() <= r.Classified()
  }

  predicate Preserves(r: Resolution, conflict: ConflictSet) {
    r.outcome.Preserve? && r.selected == {} && r.rejected == {} && conflict.CandidateIds() <= r.retained
  }

  predicate SelectsOne(r: Resolution, conflict: ConflictSet) {
    (r.outcome.Select? || r.outcome.Replace? || r.outcome.Merge?) && |conflict.CandidateIds() * r.selected| == 1
  }

  predicate TakesEffect(r: Resolution, conflict: ConflictSet) {
    !r.outcome.Abstain? && Covers(r, conflict) && (Preserves(r, conflict) || SelectsOne(r, conflict))
  }

  /** The status an active resolution leaves on a lane whose conflict stands. */
  function SettledStatus(r: Resolution, conflict: ConflictSet): Status {
    if r.outcome.Abstain? then if Covers(r, conflict) then Deferred else Reopened
    else if TakesEffect(r, conflict) then Resolved
    else Reopened
  }

  function ActiveAt(inputs: Inputs, lane: Lane): Option<Resolution> { LaneReplay(inputs, lane).active }

  function EffectiveAt(inputs: Inputs, lane: Lane): Option<Resolution> {
    var active := ActiveAt(inputs, lane);
    if active.Some? && lane.ref in inputs.conflicts && TakesEffect(active.value, inputs.conflicts[lane.ref])
    then active else None
  }

  function StatusAt(inputs: Inputs, lane: Lane): Option<Status> {
    var replayed := LaneReplay(inputs, lane);
    if lane.ref !in inputs.conflicts then replayed.status
    else if replayed.active.Some? then Some(SettledStatus(replayed.active.value, inputs.conflicts[lane.ref]))
    else if replayed.status.None? && lane.scope.None? then Some(Open)
    else replayed.status
  }

  // ---------------------------------------------------------------- the whole fold

  ghost function HistoryLanes(inputs: Inputs): set<Lane> {
    inputs.resolutionLanes.Keys + inputs.eventLanes.Keys
  }

  ghost function GlobalLanes(conflicts: map<ConflictRef, ConflictSet>): set<Lane> {
    set ref | ref in conflicts :: Lane(ref, None)
  }

  ghost function AllLanes(inputs: Inputs): set<Lane> { HistoryLanes(inputs) + GlobalLanes(inputs.conflicts) }

  ghost predicate IsActive(inputs: Inputs, lane: Lane) { ActiveAt(inputs, lane).Some? }

  ghost predicate IsEffective(inputs: Inputs, lane: Lane) { EffectiveAt(inputs, lane).Some? }

  ghost predicate HasStatus(inputs: Inputs, lane: Lane) { StatusAt(inputs, lane).Some? }

  ghost function ActiveMap(inputs: Inputs, lanes: set<Lane>): map<Lane, Resolution> {
    map lane | lane in lanes && IsActive(inputs, lane) :: ActiveAt(inputs, lane).value
  }

  ghost function EffectiveMap(inputs: Inputs, lanes: set<Lane>): map<Lane, Resolution> {
    map lane | lane in lanes && IsEffective(inputs, lane) :: EffectiveAt(inputs, lane).value
  }

  ghost function StatusMap(inputs: Inputs, lanes: set<Lane>): map<Lane, Status> {
    map lane | lane in lanes && HasStatus(inputs, lane) :: StatusAt(inputs, lane).value
  }

  /** The result of `_fold_lifecycle`, lane by lane. */
  ghost function FoldOf(inputs: Inputs): Lifecycle {
    var lanes := AllLanes(inputs);
    Lifecycle(ActiveMap(inputs, lanes), EffectiveMap(inputs, lanes), StatusMap(inputs, lanes))
  }

  lemma OutsideLanes(inputs: Inputs, lane: Lane)
    requires lane !in AllLanes(inputs)
    ensures !IsActive(inputs, lane) && !IsEffective(inputs, lane) && !HasStatus(inputs, lane)
  {
    assert Timeline([], [], inputs.at) == [];
    assert lane.ref in inputs.conflicts ==> Lane(lane.ref, None) in GlobalLanes(inputs.conflicts);
  }

  /** The maps agree with the fold on one lane. */
  ghost predicate LaneMatches(inputs: Inputs, lane: Lane, f: Lifecycle) {
    && (lane in f.active <==> IsActive(inputs, lane))
    && (lane in f.active ==> ActiveAt(inputs, lane) == Some(f.active[lane]))
    && (lane in f.effective <==> IsEffective(inputs, lane))
    && (lane in f.effective ==> EffectiveAt(inputs, lane) == Some(f.effective[lane]))
    && (lane in f.statuses <==> HasStatus(inputs, lane))
    && (lane in f.statuses ==> StatusAt(inputs, lane) == Some(f.statuses[lane]))
  }

  lemma FoldMatches(inputs: Inputs, lane: Lane)
    ensures LaneMatches(inputs, lane, FoldOf(inputs))
  {
    if lane !in AllLanes(inputs) {
      OutsideLanes(inputs, lane);
    }
  }

  /** Maps that agree with the fold on every lane are the fold. */
  lemma MatchesUnique(inputs: Inputs, f: Lifecycle)
    requires forall lane :: LaneMatches(inputs, lane, f)
    ensures f == FoldOf(inputs)
  {
    var g := FoldOf(inputs);
    forall lane ensures LaneMatches(inputs, lane, g) && LaneMatches(inputs, lane, f) {
      FoldMatches(inputs, lane);
    }
    SameLanes(inputs, f, g);
  }

  lemma SameLanes(inputs: Inputs, f: Lifecycle, g: Lifecycle)
    requires forall lane :: LaneMatches(inputs, lane, f) && LaneMatches(inputs, lane, g)
    ensures f == g
  {
    hide IsActive;
    hide IsEffective;
    hide HasStatus;
    hide ActiveAt;
    hide EffectiveAt;
    hide StatusAt;
    forall lane
      ensures (lane in f.active <==> lane in g.active) && (lane in f.active ==> f.active[lane] == g.active[lane])
      ensures (lane in f.effective <==> lane in g.effective)
              && (lane in f.effective ==> f.effective[lane] == g.effective[lane])
      ensures (lane in f.statuses <==> lane in g.statuses)
              && (lane in f.statuses ==> f.statuses[lane] == g.statuses[lane])
    {
      assert LaneMatches(inputs, lane, f) && LaneMatches(inputs, lane, g);
    }
    assert f.active == g.active;
    assert f.effective == g.effective;
    assert f.statuses == g.statuses;
  }

  /** Whether a lane matches depends only on the maps' entries for that lane. */
  lemma SameEntry(inputs: Inputs, lane: Lane, f: Lifecycle, g: Lifecycle)
    requires LaneMatches(inputs, lane, f)
    requires (lane in f.active <==> lane in g.active) && (lane in f.active ==> f.active[lane] == g.active[lane])
    requires (lane in f.effective <==> lane in g.effective)
             && (lane in f.effective ==> f.effective[lane] == g.effective[lane])
    requires (lane in f.statuses <==> lane in g.statuses)
             && (lane in f.statuses ==> f.statuses[lane] == g.statuses[lane])
    ensures LaneMatches(inputs, lane, g)
  {
    hide IsActive;
    hide IsEffective;
    hide HasStatus;
    hide ActiveAt;
    hide EffectiveAt;
    hide StatusAt;
  }

  // ---------------------------------------------------------------- the loops of the fold

  function Assign<T>(m: map<Lane, T>, lane: Lane, value: Option<T>): map<Lane, T> {
    if value.Some? then m[lane := value.value] else m - {lane}
  }

  /** The timeline loop of one lane, updating the two maps entry by entry. */
  method ReplayLane(lane: Lane, entries: seq<Entry>, resolutions: map<Id, Resolution>, at: Option<Time>,
                    active: map<Lane, Resolution>, statuses: map<Lane, Status>)
    returns (active': map<Lane, Resolution>, statuses': map<Lane, Status>)
    requires lane !in active && lane !in statuses
    ensures active' == Assign(active, lane, Replay(entries, resolutions, at).active)
    ensures statuses' == Assign(statuses, lane, Replay(entries, resolutions, at).status)
  {
    active', statuses' := active, statuses;
    for i := 0 to |entries|
      invariant active' == Assign(active, lane, Replay(entries[..i], resolutions, at).active)
      invariant statuses' == Assign(statuses, lane, Replay(entries[..i], resolutions, at).status)
    {
      assert entries[..i + 1][..i] == entries[..i];
      active', statuses' := ReplayEntry(lane, entries[i], resolutions, at, active', statuses');
    }
    assert entries[..|entries|] == entries;
  }

  method ReplayEntry(lane: Lane, entry: Entry, resolutions: map<Id, Resolution>, at: Option<Time>,
                     active: map<Lane, Resolution>, statuses: map<Lane, Status>)
    returns (active': map<Lane, Resolution>, statuses': map<Lane, Status>)
    ensures forall st :: StepLane(st, entry, resolutions, at) == StepLane(LaneState(None, None), entry, resolutions, at)
    ensures var next := StepLane(LaneState(None, None), entry, resolutions, at);
            active' == Assign(active, lane, next.active) && statuses' == Assign(statuses, lane, next.status)
  {
    match entry
    case ResolutionEntry(r) =>
      active', statuses' := active[lane := r], statuses[lane := if r.outcome.Abstain? then Deferred else Resolved];
    case EventEntry(e) =>
      if e.status != Resolved {
        active', statuses' := active - {lane}, statuses[lane := e.status];
      } else if !Names(e, resolutions, at) {
        active', statuses' := active - {lane}, statuses[lane := Open];
      } else {
        var r := resolutions[e.resolutionId.value];
        active', statuses' := active[lane := r], statuses[lane := if r.outcome.Abstain? then Deferred else Resolved];
      }
  }

  lemma ReplayedLane(bare: Inputs, lane: Lane, active: map<Lane, Resolution>, statuses: map<Lane, Status>)
    requires bare.conflicts == map[]
    requires lane !in active && lane !in statuses
    ensures LaneMatches(bare, lane, Lifecycle(
      Assign(active, lane, LaneReplay(bare, lane).active), map[], Assign(statuses, lane, LaneReplay(bare, lane).status)))
  {
    hide LaneReplay;
  }

  lemma OtherLanes(bare: Inputs, lane: Lane, todo: set<Lane>, f: Lifecycle, g: Lifecycle)
    requires g.effective == f.effective
    requires exists a :: g.active == Assign(f.active, lane, a)
    requires exists b :: g.statuses == Assign(f.statuses, lane, b)
    requires forall other :: other !in todo ==> LaneMatches(bare, other, f)
    ensures forall other :: other !in todo && other != lane ==> LaneMatches(bare, other, g)
    ensures forall other :: other != lane && other !in f.active ==> other !in g.active
    ensures forall other :: other != lane && other !in f.statuses ==> other !in g.statuses
  {
    forall other | other !in todo && other != lane ensures LaneMatches(bare, other, g) {
      SameEntry(bare, other, f, g);
    }
  }

  /** Part way through the first loop: the lanes still to do are untouched. */
  ghost predicate Replayed(bare: Inputs, todo: set<Lane>, active: map<Lane, Resolution>, statuses: map<Lane, Status>) {
    && (forall lane :: lane in todo ==> lane !in active && lane !in statuses)
    && (forall lane :: lane !in todo ==> LaneMatches(bare, lane, Lifecycle(active, map[], statuses)))
  }

  lemma ReplayStart(bare: Inputs)
    requires bare.conflicts == map[]
    ensures Replayed(bare, HistoryLanes(bare), map[], map[])
  {
    forall lane | lane !in HistoryLanes(bare) ensures LaneMatches(bare, lane, Lifecycle(map[], map[], map[])) {
      assert GlobalLanes(bare.conflicts) == {};
      OutsideLanes(bare, lane);
    }
  }

  method ReplayNext(inputs: Inputs, ghost todo: set<Lane>, lane: Lane,
                    active: map<Lane, Resolution>, statuses: map<Lane, Status>)
    returns (active': map<Lane, Resolution>, statuses': map<Lane, Status>)
    requires lane in todo && Replayed(inputs.(conflicts := map[]), todo, active, statuses)
    ensures Replayed(inputs.(conflicts := map[]), todo - {lane}, active', statuses')
  {
    ghost var bare := inputs.(conflicts := map[]);
    var entries := Timeline(LaneHistory(inputs.resolutionLanes, lane), LaneHistory(inputs.eventLanes, lane), inputs.at);
    active', statuses' := ReplayLane(lane, entries, inputs.resolutions, inputs.at, active, statuses);
    hide LaneMatches;
    ReplayedLane(bare, lane, active, statuses);
    OtherLanes(bare, lane, todo, Lifecycle(active, map[], statuses), Lifecycle(active', map[], statuses'));
  }

  /** The first loop of the fold: every lane's timeline, before any conflict is looked at. */
  method ReplayLanes(inputs: Inputs) returns (active: map<Lane, Resolution>, statuses: map<Lane, Status>)
    ensures Replayed(inputs.(conflicts := map[]), {}, active, statuses)
  {
    active, statuses := map[], map[];
    var todo := inputs.resolutionLanes.Keys + inputs.eventLanes.Keys;
    ReplayStart(inputs.(conflicts := map[]));
    hide Replayed;
    while todo != {}
      invariant Replayed(inputs.(conflicts := map[]), todo, active, statuses)
      decreases |todo|
    {
      var _ := Inhabited(todo);
      var lane :| lane in todo;
      active, statuses := ReplayNext(inputs, todo, lane, active, statuses);
      todo := todo - {lane};
    }
  }

  // ---------------------------------------------------------------- the second loop

  /** Resolutions of a standing conflict's lane take effect, or reopen or defer it. */
  method SettleLane(lane: Lane, conflict: ConflictSet, active: map<Lane, Resolution>,
                    effective: map<Lane, Resolution>, statuses: map<Lane, Status>)
    returns (effective': map<Lane, Resolution>, statuses': map<Lane, Status>)
    ensures lane !in active ==> effective' == effective && statuses' == statuses
    ensures lane in active ==>
              effective' == (if TakesEffect(active[lane], conflict) then effective[lane := active[lane]] else effective)
              && statuses' == statuses[lane := SettledStatus(active[lane], conflict)]
  {
    effective', statuses' := effective, statuses;
    if lane !in active { return; }
    var r := active[lane];
    var current := conflict.CandidateIds();
    var classified := r.selected + r.rejected + r.retained;
    var selected := current * r.selected;
    var matches := r.observedConflictId
                   == DeriveConflictId(conflict.key, classified, conflict.conflictType, conflict.keys, conflict.detector);
    if r.outcome.Abstain? {
      statuses' := statuses'[lane := if matches && current <= classified then Deferred else Reopened];
      return;
    }
    var preserves := r.outcome.Preserve? && r.selected == {} && r.rejected == {} && current <= r.retained;
    var selects := (r.outcome.Select? || r.outcome.Replace? || r.outcome.Merge?) && |selected| == 1;
    if matches && current <= classified && (preserves || selects) {
      effective', statuses' := effective'[lane := r], statuses'[lane := Resolved];
    } else {
      statuses' := statuses'[lane := Reopened];
    }
  }

  /** The fold's inputs with only the conflicts already looked at. */
  ghost function Upto(inputs: Inputs, refs: set<ConflictRef>): Inputs {
    inputs.(conflicts := map ref | ref in inputs.conflicts && ref in refs :: inputs.conflicts[ref])
  }

  /** A lane about to be settled: an active lane may still show its replayed status. */
  ghost predicate ReadyLane(inputs: Inputs, lane: Lane, f: Lifecycle) {
    if lane in f.active then lane !in f.effective && ActiveAt(inputs, lane) == Some(f.active[lane])
    else LaneMatches(inputs, lane, f)
  }

  ghost predicate Settling(inputs: Inputs, todo: set<Lane>, f: Lifecycle) {
    forall lane: Lane :: if lane in todo then ReadyLane(inputs, lane, f) else LaneMatches(inputs, lane, f)
  }

  lemma SettledLane(inputs: Inputs, lane: Lane, f: Lifecycle, g: Lifecycle)
    requires lane.ref in inputs.conflicts && ReadyLane(inputs, lane, f) && g.active == f.active
    requires lane !in f.active ==> g == f
    requires lane in f.active ==>
               var conflict := inputs.conflicts[lane.ref];
               g.effective == (if TakesEffect(f.active[lane], conflict) then f.effective[lane := f.active[lane]] else f.effective)
               && g.statuses == f.statuses[lane := SettledStatus(f.active[lane], conflict)]
    ensures LaneMatches(inputs, lane, g)
  {
    hide LaneReplay;
    hide TakesEffect;
    hide SettledStatus;
  }

  method SettleNext(ghost inputs: Inputs, ghost todo: set<Lane>, lane: Lane, conflict: ConflictSet, f: Lifecycle)
    returns (g: Lifecycle)
    requires lane in todo && Settling(inputs, todo, f)
    requires lane.ref in inputs.conflicts && inputs.conflicts[lane.ref] == conflict
    ensures Settling(inputs, todo - {lane}, g)
  {
    var effective, statuses := SettleLane(lane, conflict, f.active, f.effective, f.statuses);
    g := f.(effective := effective, statuses := statuses);
    SettledLane(inputs, lane, f, g);
    hide LaneMatches;
    forall other: Lane | other != lane
      ensures if other in todo then ReadyLane(inputs, other, g) else LaneMatches(inputs, other, g)
    {
      if other !in todo || other !in f.active {
        SameEntry(inputs, other, f, g);
      }
    }
  }

  lemma ConflictUnseen(inputs: Inputs, refs: set<ConflictRef>, ref: ConflictRef, lane: Lane)
    requires ref in inputs.conflicts && ref !in refs && lane.ref != ref
    ensures IsActive(Upto(inputs, refs + {ref}), lane) == IsActive(Upto(inputs, refs), lane)
    ensures ActiveAt(Upto(inputs, refs + {ref}), lane) == ActiveAt(Upto(inputs, refs), lane)
    ensures EffectiveAt(Upto(inputs, refs + {ref}), lane) == EffectiveAt(Upto(inputs, refs), lane)
    ensures StatusAt(Upto(inputs, refs + {ref}), lane) == StatusAt(Upto(inputs, refs), lane)
  {
    assert lane.ref in Upto(inputs, refs + {ref}).conflicts <==> lane.ref in Upto(inputs, refs).conflicts;
  }

  lemma ConflictSeen(inputs: Inputs, refs: set<ConflictRef>, ref: ConflictRef, lane: Lane, f: Lifecycle, g: Lifecycle)
    requires ref in inputs.conflicts && ref !in refs && lane.ref == ref
    requires LaneMatches(Upto(inputs, refs), lane, f)
    requires g == if Lane(ref, None) in f.statuses then f else f.(statuses := f.statuses[Lane(ref, None) := Open])
    ensures ReadyLane(Upto(inputs, refs + {ref}), lane, g)
    ensures lane !in HistoryLanes(inputs) && lane.scope.Some? ==> lane !in g.active
  {
    hide Timeline;
    assert Upto(inputs, refs + {ref}).conflicts.Keys == Upto(inputs, refs).conflicts.Keys + {ref};
    if lane !in HistoryLanes(inputs) && lane.scope.Some? {
      OutsideLanes(Upto(inputs, refs), lane);
    }
  }

  /** One conflict of the second loop. */
  method SettleConflict(inputs: Inputs, ghost refs: set<ConflictRef>, ref: ConflictRef, f: Lifecycle) returns (g: Lifecycle)
    requires ref in inputs.conflicts && ref !in refs
    requires Settling(Upto(inputs, refs), {}, f)
    ensures Settling(Upto(inputs, refs + {ref}), {}, g)
  {
    ghost var next := Upto(inputs, refs + {ref});
    var global := Lane(ref, None);
    g := if global in f.statuses then f else f.(statuses := f.statuses[global := Open]);
    var todo := {global} + set lane | lane in inputs.resolutionLanes.Keys + inputs.eventLanes.Keys && lane.ref == ref;
    SettleStart(inputs, refs, ref, todo, f, g);
    hide Settling;
    while todo != {}
      invariant forall lane :: lane in todo ==> lane.ref == ref
      invariant Settling(next, todo, g)
      decreases |todo|
    {
      var _ := Inhabited(todo);
      var lane :| lane in todo;
      g := SettleNext(next, todo, lane, inputs.conflicts[ref], g);
      todo := todo - {lane};
    }
  }

  lemma SettleStart(inputs: Inputs, refs: set<ConflictRef>, ref: ConflictRef, todo: set<Lane>, f: Lifecycle, g: Lifecycle)
    requires ref in inputs.conflicts && ref !in refs && Settling(Upto(inputs, refs), {}, f)
    requires g == if Lane(ref, None) in f.statuses then f else f.(statuses := f.statuses[Lane(ref, None) := Open])
    requires todo == {Lane(ref, None)} + set lane | lane in HistoryLanes(inputs) && lane.ref == ref
    ensures Settling(Upto(inputs, refs + {ref}), todo, g)
  {
    var before, next := Upto(inputs, refs), Upto(inputs, refs + {ref});
    forall lane: Lane
      ensures if lane in todo then ReadyLane(next, lane, g) else LaneMatches(next, lane, g)
    {
      assert LaneMatches(before, lane, f);
      if lane.ref == ref {
        ConflictSeen(inputs, refs, ref, lane, f, g);
        if lane !in todo { assert lane !in HistoryLanes(inputs) && lane.scope.Some?; }
      } else {
        ConflictUnseen(inputs, refs, ref, lane);
        SameEntry(before, lane, f, g);
      }
    }
  }

  /** `_fold_lifecycle` */
  method FoldLifecycle(inputs: Inputs) returns (f: Lifecycle)
    ensures f == FoldOf(inputs)
  {
    var active, statuses := ReplayLanes(inputs);
    f := Lifecycle(active, map[], statuses);
    var todo := inputs.conflicts.Keys;
    ghost var refs: set<ConflictRef> := {};
    assert Upto(inputs, refs) == inputs.(conflicts := map[]);
    assert Settling(Upto(inputs, refs), {}, f);
    hide Settling;
    while todo != {}
      invariant todo == inputs.conflicts.Keys - refs && refs <= inputs.conflicts.Keys
      invariant Settling(Upto(inputs, refs), {}, f)
      decreases |todo|
    {
      var _ := Inhabited(todo);
      var ref :| ref in todo;
      f := SettleConflict(inputs, refs, ref, f);
      todo, refs := todo - {ref}, refs + {ref};
    }
    FoldEnds(inputs, refs, f);
  }

  lemma FoldEnds(inputs: Inputs, refs: set<ConflictRef>, f: Lifecycle)
    requires refs == inputs.conflicts.Keys && Settling(Upto(inputs, refs), {}, f)
    ensures f == FoldOf(inputs)
  {
    assert Upto(inputs, refs).conflicts == inputs.conflicts;
    forall lane ensures LaneMatches(inputs, lane, f) {}
    MatchesUnique(inputs, f);
  }

  // ---------------------------------------------------------------- what a status means

  lemma {:induction false} ReplayedResolved(entries: seq<Entry>, resolutions: map<Id, Resolution>, at: Option<Time>)
    ensures var st := Replay(entries, resolutions, at);
            (st.status == Some(Resolved) ==> st.active.Some? && !st.active.value.outcome.Abstain?)
            && (st.active.Some? ==> st.status == Adopt(st.active.value).status)
  {
    if entries != [] {
      ReplayedResolved(entries[..|entries| - 1], resolutions, at);
    }
  }

  /** On a lane whose conflict stands, the status is resolved exactly when a resolution is
      effective; that resolution is the active one, observed exactly the claims it classifies, and
      classifies every current candidate. */
  lemma ResolvedMeansEffective(inputs: Inputs, lane: Lane)
    requires lane.ref in inputs.conflicts
    ensures var f, conflict := FoldOf(inputs), inputs.conflicts[lane.ref];
            ((lane in f.statuses && f.statuses[lane] == Resolved) <==> lane in f.effective)
            && (lane in f.effective ==>
                  lane in f.active && f.active[lane] == f.effective[lane]
                  && !f.effective[lane].outcome.Abstain?
                  && conflict.CandidateIds() <= f.effective[lane].Classified()
                  && f.effective[lane].observedConflictId
                     == DeriveConflictId(conflict.key, f.effective[lane].Classified(), conflict.conflictType,
                                         conflict.keys, conflict.detector))
  {
    FoldMatches(inputs, lane);
    ReplayedResolved(Timeline(LaneHistory(inputs.resolutionLanes, lane), LaneHistory(inputs.eventLanes, lane), inputs.at),
                     inputs.resolutions, inputs.at);
  }

  /** A current candidate the active resolution does not classify reopens the lane. */
  lemma UnclassifiedReopens(inputs: Inputs, lane: Lane, claim: Claim)
    requires lane.ref in inputs.conflicts && lane in FoldOf(inputs).active
    requires claim in inputs.conflicts[lane.ref].candidates
    requires claim.id !in FoldOf(inputs).active[lane].Classified()
    ensures lane in FoldOf(inputs).statuses && FoldOf(inputs).statuses[lane] == Reopened
    ensures lane !in FoldOf(inputs).effective
  {
    FoldMatches(inputs, lane);
    assert claim.id in inputs.conflicts[lane.ref].CandidateIds();
  }

  // ---------------------------------------------------------------- locality

  ghost predicate EventsInLane(es: seq<Event>, lane: Lane) {
    forall i :: 0 <= i < |es| ==> LaneOfEvent(es[i]) == lane
  }

  /** Every event is filed under its own lane. */
  ghost predicate Filed(inputs: Inputs) {
    forall lane :: lane in inputs.eventLanes ==> EventsInLane(inputs.eventLanes[lane], lane)
  }

  ghost predicate OfLane(resolutions: map<Id, Resolution>, id: Id, lane: Lane) {
    id in resolutions && LaneOfResolution(resolutions[id]) == lane
  }

  /** Two resolution tables hold the same records of one lane. */
  ghost predicate SameLaneRecords(a: map<Id, Resolution>, b: map<Id, Resolution>, lane: Lane) {
    forall id :: (OfLane(a, id, lane) <==> OfLane(b, id, lane)) && (OfLane(a, id, lane) ==> a[id] == b[id])
  }

  ghost predicate EntriesInLane(entries: seq<Entry>, lane: Lane) {
    forall i :: 0 <= i < |entries| && entries[i].EventEntry? ==> LaneOfEvent(entries[i].event) == lane
  }

  lemma {:induction false} ReplayFrame(
    entries: seq<Entry>, a: map<Id, Resolution>, b: map<Id, Resolution>, at: Option<Time>, lane: Lane)
    requires EntriesInLane(entries, lane) && SameLaneRecords(a, b, lane)
    ensures Replay(entries, a, at) == Replay(entries, b, at)
  {
    if entries != [] {
      ReplayFrame(entries[..|entries| - 1], a, b, at, lane);
      var last := entries[|entries| - 1];
      if last.EventEntry? && last.event.resolutionId.Some? {
        var id := last.event.resolutionId.value;
        assert OfLane(a, id, lane) <==> OfLane(b, id, lane);
      }
    }
  }

  lemma TimelineInLane(rs: seq<Resolution>, es: seq<Event>, at: Option<Time>, lane: Lane)
    requires EventsInLane(es, lane)
    ensures EntriesInLane(Timeline(rs, es, at), lane)
  {
    var entries, sorted := ResolutionEntries(rs, at) + EventEntries(es), Timeline(rs, es, at);
    SortByProperties(entries, EntryRank);
    SameMultisetSameElements(entries, sorted);
    ResolutionEntriesOnly(rs, at);
    forall i | 0 <= i < |sorted| && sorted[i].EventEntry? ensures LaneOfEvent(sorted[i].event) == lane {
      assert sorted[i] in Elements(sorted);
      assert sorted[i] in entries;
    }
  }

  lemma {:induction false} ResolutionEntriesOnly(rs: seq<Resolution>, at: Option<Time>)
    ensures forall e :: e in ResolutionEntries(rs, at) ==> e.ResolutionEntry?
  {
    if rs != [] {
      ResolutionEntriesOnly(rs[..|rs| - 1], at);
    }
  }

  /** A lane's outcome depends only on its own history, its own resolutions and its own conflict,
      although events look resolutions up in the table of all of them. */
  lemma LaneIsLocal(a: Inputs, b: Inputs, lane: Lane)
    requires Filed(a) && a.at == b.at
    requires LaneHistory(a.resolutionLanes, lane) == LaneHistory(b.resolutionLanes, lane)
    requires LaneHistory(a.eventLanes, lane) == LaneHistory(b.eventLanes, lane)
    requires SameLaneRecords(a.resolutions, b.resolutions, lane)
    requires lane.ref in a.conflicts <==> lane.ref in b.conflicts
    requires lane.ref in a.conflicts ==> a.conflicts[lane.ref] == b.conflicts[lane.ref]
    ensures ActiveAt(a, lane) == ActiveAt(b, lane)
    ensures EffectiveAt(a, lane) == EffectiveAt(b, lane)
    ensures StatusAt(a, lane) == StatusAt(b, lane)
    ensures forall f: Lifecycle :: LaneMatches(a, lane, f) <==> LaneMatches(b, lane, f)
  {
    var rs, es := LaneHistory(a.resolutionLanes, lane), LaneHistory(a.eventLanes, lane);
    TimelineInLane(rs, es, a.at, lane);
    ReplayFrame(Timeline(rs, es, a.at), a.resolutions, b.resolutions, a.at, lane);
    assert LaneReplay(a, lane) == LaneReplay(b, lane);
    hide LaneReplay;
  }

  // ---------------------------------------------------------------- refolding one conflict reference

  /** The records of a history that belong to one lane, in order. */
  function InLane<T>(s: seq<T>, lane: Lane, laneOf: T -> Lane): seq<T> {
    if s == [] then []
    else InLane(s[..|s| - 1], lane, laneOf) + if laneOf(s[|s| - 1]) == lane then [s[|s| - 1]] else []
  }

  ghost predicate GroupedBy<T(!new)>(m: map<Lane, seq<T>>, s: seq<T>, laneOf: T -> Lane) {
    forall lane :: LaneHistory(m, lane) == InLane(s, lane, laneOf)
  }

  /** `by_lane[(conflict_ref, item.scope)].append(item)` over one reference's history. */
  method GroupByLane<T(!new)>(s: seq<T>, laneOf: T -> Lane) returns (m: map<Lane, seq<T>>)
    ensures GroupedBy(m, s, laneOf)
    ensures forall lane :: lane in m ==> exists i :: 0 <= i < |s| && laneOf(s[i]) == lane
  {
    m := map[];
    for i := 0 to |s|
      invariant GroupedBy(m, s[..i], laneOf)
      invariant forall lane :: lane in m ==> exists j :: 0 <= j < i && laneOf(s[j]) == lane
    {
      var lane := laneOf(s[i]);
      GroupNext(m, s, i, laneOf);
      m := m[lane := LaneHistory(m, lane) + [s[i]]];
    }
    assert s[..|s|] == s;
  }

  lemma GroupNext<T(!new)>(m: map<Lane, seq<T>>, s: seq<T>, i: nat, laneOf: T -> Lane)
    requires i < |s| && GroupedBy(m, s[..i], laneOf)
    ensures GroupedBy(m[laneOf(s[i]) := LaneHistory(m, laneOf(s[i])) + [s[i]]], s[..i + 1], laneOf)
  {
    var m' := m[laneOf(s[i]) := LaneHistory(m, laneOf(s[i])) + [s[i]]];
    assert s[..i + 1][..i] == s[..i];
    forall lane ensures LaneHistory(m', lane) == InLane(s[..i + 1], lane, laneOf) {
      assert LaneHistory(m, lane) == InLane(s[..i], lane, laneOf);
    }
  }

  /** The lanes of one reference inside a wider set of inputs. */
  ghost predicate RefHistories(inputs: Inputs, ref: ConflictRef, rs: seq<Resolution>, es: seq<Event>) {
    && (forall i :: 0 <= i < |rs| ==> rs[i].conflictRef == ref)
    && (forall i :: 0 <= i < |es| ==> es[i].conflictRef == ref)
    && (forall lane: Lane :: lane.ref == ref ==>
          LaneHistory(inputs.resolutionLanes, lane) == InLane(rs, lane, LaneOfResolution)
          && LaneHistory(inputs.eventLanes, lane) == InLane(es, lane, LaneOfEvent))
  }

  function DropRef<T>(m: map<Lane, T>, ref: ConflictRef): map<Lane, T> {
    map lane | lane in m && lane.ref != ref :: m[lane]
  }

  /** The maps agree with the fold on `ref`'s lanes and are unchanged elsewhere. */
  ghost predicate Refolded(inputs: Inputs, ref: ConflictRef, f: Lifecycle, g: Lifecycle) {
    && (forall lane: Lane :: lane.ref == ref ==> LaneMatches(inputs, lane, g))
    && (forall lane: Lane :: lane.ref != ref ==> SameLane(lane, f, g))
  }

  ghost predicate SameLane(lane: Lane, f: Lifecycle, g: Lifecycle) {
    && (lane in f.active <==> lane in g.active) && (lane in f.active ==> f.active[lane] == g.active[lane])
    && (lane in f.effective <==> lane in g.effective) && (lane in f.effective ==> f.effective[lane] == g.effective[lane])
    && (lane in f.statuses <==> lane in g.statuses) && (lane in f.statuses ==> f.statuses[lane] == g.statuses[lane])
  }

  /** `_replace_lifecycle_fold_for_ref`: folding one reference's history alone gives, on its lanes,
      what folding everything gives. `inputs` is the ghost description of everything. */
  method ReplaceLifecycleFoldForRef(
    ref: ConflictRef, resolutions: map<Id, Resolution>, rs: seq<Resolution>, es: seq<Event>,
    conflicts: map<ConflictRef, ConflictSet>, f: Lifecycle, ghost inputs: Inputs)
    returns (g: Lifecycle)
    requires inputs.resolutions == resolutions && inputs.conflicts == conflicts && inputs.at.None?
    requires RefHistories(inputs, ref, rs, es) && Filed(inputs)
    ensures Refolded(inputs, ref, f, g)
  {
    var resolutionLanes := GroupByLane(rs, LaneOfResolution);
    var eventLanes := GroupByLane(es, LaneOfEvent);
    var local := Inputs(resolutions, resolutionLanes, eventLanes,
                        map r | r in conflicts && r == ref :: conflicts[r], None);
    LocalFold(inputs, local, ref, rs, es);
    hide RefHistories;
    hide Filed;
    hide FoldOf;
    hide Refolded;
    hide AgreesOn;
    var folded := FoldLifecycle(local);
    g := Lifecycle(DropRef(f.active, ref) + folded.active, DropRef(f.effective, ref) + folded.effective,
                   DropRef(f.statuses, ref) + folded.statuses);
    SplicedFold(inputs, local, ref, f);
  }

  ghost predicate AgreesOn(inputs: Inputs, local: Inputs, ref: ConflictRef) {
    && (forall lane: Lane, h: Lifecycle :: lane.ref == ref ==> (LaneMatches(inputs, lane, h) <==> LaneMatches(local, lane, h)))
    && (forall lane: Lane :: lane.ref != ref ==> lane !in AllLanes(local))
  }

  lemma LocalFold(inputs: Inputs, local: Inputs, ref: ConflictRef, rs: seq<Resolution>, es: seq<Event>)
    requires RefHistories(inputs, ref, rs, es) && Filed(inputs) && inputs.at == local.at
    requires inputs.resolutions == local.resolutions
    requires GroupedBy(local.resolutionLanes, rs, LaneOfResolution) && GroupedBy(local.eventLanes, es, LaneOfEvent)
    requires forall lane :: lane in local.resolutionLanes ==> exists i :: 0 <= i < |rs| && LaneOfResolution(rs[i]) == lane
    requires forall lane :: lane in local.eventLanes ==> exists i :: 0 <= i < |es| && LaneOfEvent(es[i]) == lane
    requires local.conflicts == map r | r in inputs.conflicts && r == ref :: inputs.conflicts[r]
    ensures AgreesOn(inputs, local, ref)
  {
    forall lane: Lane, h: Lifecycle | lane.ref == ref
      ensures LaneMatches(inputs, lane, h) <==> LaneMatches(local, lane, h)
    {
      LaneIsLocal(inputs, local, lane);
    }
  }

  lemma FoldedOutside(local: Inputs, lane: Lane)
    requires lane !in AllLanes(local)
    ensures var f := FoldOf(local); lane !in f.active && lane !in f.effective && lane !in f.statuses
  {
  }

  /** Replaces the entries of one reference's lanes. */
  ghost function Splice(f: Lifecycle, ref: ConflictRef, folded: Lifecycle): Lifecycle {
    Lifecycle(DropRef(f.active, ref) + folded.active, DropRef(f.effective, ref) + folded.effective,
              DropRef(f.statuses, ref) + folded.statuses)
  }

  lemma SplicedLane(f: Lifecycle, ref: ConflictRef, folded: Lifecycle, lane: Lane)
    ensures lane.ref == ref ==> SameLane(lane, folded, Splice(f, ref, folded))
    ensures lane.ref != ref && lane !in folded.active && lane !in folded.effective && lane !in folded.statuses ==>
              SameLane(lane, f, Splice(f, ref, folded))
  {
  }

  lemma SplicedFold(inputs: Inputs, local: Inputs, ref: ConflictRef, f: Lifecycle)
    requires AgreesOn(inputs, local, ref)
    ensures Refolded(inputs, ref, f, Splice(f, ref, FoldOf(local)))
  {
    var folded := FoldOf(local);
    forall lane: Lane | lane.ref == ref ensures LaneMatches(inputs, lane, Splice(f, ref, folded)) {
      FoldMatches(local, lane);
      SplicedLane(f, ref, folded, lane);
      SameEntry(local, lane, folded, Splice(f, ref, folded));
    }
    hide Splice;
    hide SameLane;
    forall lane: Lane | lane.ref != ref ensures SameLane(lane, f, Splice(f, ref, folded)) {
      FoldedOutside(local, lane);
      SplicedLane(f, ref, folded, lane);
    }
  }
}
