/** `compact_projection_equivalent_with_report`: the compaction together with the comparisons it makes
    of the compacted log with the original. */
module CompactionReports {
  import opened Basics
  import opened Model
  import opened Records
  import opened State
  import opened Refresh
  import opened Offmarks
  import opened OpLogs
  import opened View
  import opened Scopes
  import opened Compaction
  import opened Equivalence
  import opened CompactLog
  import Full = Materialize

  datatype Report = Report(compacted: seq<Op>, originalOps: nat, activeClaimsEquivalent: bool, conflictsEquivalent: bool,
                           projectionsEquivalent: bool)

  /** What the view of a log is asked for; `listing` puts findings in identifier order. */
  datatype Asked = Asked(window: Window, scope: Option<Name>, heuristic: Option<Heuristic>, listing: set<ConflictSet> -> seq<ConflictSet>)

  ghost predicate Lists(listing: set<ConflictSet> -> seq<ConflictSet>) { forall cs :: Elements(listing(cs)) == cs }

  function ResolverOn(h: Option<Heuristic>, state: MemoryState): Option<Resolver> {
    if h.Some? then Some(HeuristicOf(h.value, state)) else None
  }

  ghost predicate IsSignature(v: Viewed, log: set<Op>, registry: Registry, asked: Asked) {
    var s := StateOf(log, registry, asked.window);
    IsView(v, s, registry, asked.scope, ResolverOn(asked.heuristic, s), asked.listing(s.findings.byId.Values))
  }

  /** `_projection_signature`, without the explanations. */
  method ProjectionSignature(ops: seq<Op>, registry: Registry, asked: Asked) returns (v: Viewed)
    requires NoDuplicates(ops) && UniqueOps(Elements(ops)) && CollisionFree(Elements(ops)) && Lists(asked.listing)
    ensures IsSignature(v, Elements(ops), registry, asked)
  {
    hide StateOf;
    hide CollisionFree;
    hide IsView;
    hide UnresolvedIn;
    var full := Full.Materialize(ops, registry, asked.window);
    var state := full.value;
    NoKeyEmpty(Elements(ops), registry, asked.window);
    v := BuildView(state, registry, asked.scope, ResolverOn(asked.heuristic, state), asked.listing(state.findings.byId.Values));
  }

  lemma NoKeyEmpty(log: set<Op>, registry: Registry, w: Window)
    requires CollisionFree(log)
    ensures NoEmptyLists(StateOf(log, registry, w).activity.byKey)
  {
    RecordsWellFiled(log);
    ActivityOfState(log, registry, w);
    hide StateOf;
    hide RecordsOf;
    hide InactiveIds;
    NoEmpties(RecordsOf(log).claims, InactiveIds(RecordsOf(log).claims, RetractionsIn(log), registry), w);
  }

  lemma SignatureUnique(v: Viewed, x: Viewed, log: set<Op>, registry: Registry, asked: Asked)
    requires IsSignature(v, log, registry, asked) && IsSignature(x, log, registry, asked)
    ensures v == x
  {
    hide StateOf;
    hide IsView;
    var s := StateOf(log, registry, asked.window);
    ViewUnique(v, x, s, registry, asked.scope, ResolverOn(asked.heuristic, s), asked.listing(s.findings.byId.Values));
  }

  /** The view of the compacted log is that of the original when no heuristic is asked, or one that is
      told of every candidate what it replaces. */
  ghost predicate AskedAlike(log: set<Op>, registry: Registry, asked: Asked) {
    asked.heuristic.None? || forall key :: KeyConflicts(StateOf(log, registry, asked.window), key) != [] ==>
      CandidatesTargeted(log, KeyConflicts(StateOf(log, registry, asked.window), key)[0])
  }

  lemma SameSignature(log: set<Op>, registry: Registry, asked: Asked, v: Viewed)
    requires CollisionFree(log) && UniqueOps(log) && AskedAlike(log, registry, asked)
    ensures IsSignature(v, Compacted(log, registry), registry, asked) <==> IsSignature(v, log, registry, asked)
  {
    hide StateOf;
    hide Compacted;
    hide CollisionFree;
    hide UniqueOps;
    hide IsView;
    hide SuggestSame;
    hide CandidatesTargeted;
    hide KeyConflicts;
    var s, t := StateOf(Compacted(log, registry), registry, asked.window), StateOf(log, registry, asked.window);
    CompactionEquivalent(log, registry, asked.window);
    if asked.heuristic.Some? {
      HeuristicsAgree(log, registry, asked.window, asked.heuristic.value);
    } else {
      NoneSuggestAlike(t);
    }
    CompactionSameView(log, registry, asked.window, asked.scope, ResolverOn(asked.heuristic, s), ResolverOn(asked.heuristic, t),
                       asked.listing(t.findings.byId.Values), v);
  }

  lemma NoneSuggestAlike(s: MemoryState)
    ensures SuggestAlike(s, None, None)
  {
    hide Suggested;
  }

  /** The report never finds other active claims or findings on the compacted log. It finds the same
      view exactly when there is one view of both, and so whenever no heuristic is asked, or each
      retraction that names a candidate as a replacement names what it retracts. */
  method CompactWithReport(ops: seq<Op>, registry: Registry, asked: Asked) returns (r: Result<Report>)
    requires NoDuplicates(ops) && UniqueOps(Elements(ops)) && Lists(asked.listing)
    ensures r.Ok? <==> CollisionFree(Elements(ops))
    ensures r.Ok? ==> Elements(r.value.compacted) == Compacted(Elements(ops), registry) && r.value.originalOps == |ops|
    ensures r.Ok? ==> r.value.activeClaimsEquivalent && r.value.conflictsEquivalent
    ensures r.Ok? ==> (r.value.projectionsEquivalent <==>
              exists v :: IsSignature(v, Elements(ops), registry, asked) && IsSignature(v, Compacted(Elements(ops), registry), registry, asked))
    ensures r.Ok? && AskedAlike(Elements(ops), registry, asked) ==> r.value.projectionsEquivalent
  {
    hide StateOf;
    hide Compacted;
    hide CollisionFree;
    hide Lists;
    hide IsSignature;
    hide AskedAlike;
    hide UniqueOps;
    ghost var log := Elements(ops);
    var kept := CompactOplog(ops, registry);
    if kept.ValueError? { return ValueError; }
    CompactedSmaller(log, registry);
    UniqueSubset(Compacted(log, registry), log);
    CompactionEquivalent(log, registry, UNSCOPED);
    var original := Full.Materialize(ops, registry, UNSCOPED);
    var compacted := Full.Materialize(kept.value, registry, UNSCOPED);
    var before := ProjectionSignature(ops, registry, asked);
    var after := ProjectionSignature(kept.value, registry, asked);
    r := Ok(Report(kept.value, |ops|, original.value.activity.byKey == compacted.value.activity.byKey,
                   original.value.findings.byId == compacted.value.findings.byId, before == after));
    forall v | IsSignature(v, log, registry, asked) && IsSignature(v, Compacted(log, registry), registry, asked)
      ensures before == v == after
    {
      SignatureUnique(v, before, log, registry, asked);
      SignatureUnique(v, after, Compacted(log, registry), registry, asked);
    }
    if AskedAlike(log, registry, asked) { SameSignature(log, registry, asked, before); }
  }
}
