/** The loop over unseen operations as a whole, and tidying the lists of active claims after it. */
module AbsorbAll {
  import opened Basics
  import opened Model
  import opened Lifecycle
  import opened Records
  import opened State
  import opened Tables
  import opened Affected
  import opened Absorb
  import opened Retire

  /** Part way through: the working tables are those of the operations in `done`, and the marks
      cover everything that changed since `start`. */
  ghost predicate Absorbed(wk: Work, done: set<Op>, start: Base, registry: Registry) {
    && CollisionFree(done)
    && wk.records == RecordsOf(done)
    && InStep(wk, RetractionsIn(done), registry)
    && Covered(start, BaseOf(wk), wk.marks)
  }

  /** The branch of the loop body that fits the operation. */
  method Dispatch(wk: Work, op: Op, ghost rs: set<Op>, registry: Registry) returns (r: Result<Work>)
    requires InStep(wk, rs, registry) && WellFiled(wk.records)
    requires op.ClaimRetracted? ==> UniqueOps(rs + {op})
    ensures r.Ok? <==> RecordOp(wk.records, op).Ok?
    ensures r.Ok? ==> r.value.records == RecordOp(wk.records, op).value
                      && Advanced(wk, r.value, if op.ClaimRetracted? then rs + {op} else rs, registry)
    ensures r.Ok? && r.value.records == wk.records && !op.ClaimRetracted? ==> r.value.marks == wk.marks
  {
    hide InStep;
    hide Advanced;
    match op
    case SourceAdded(_, _, _, x) => r := ApplySource(wk, x, rs, registry);
    case EvidenceAdded(_, _, _, x) => r := ApplyEvidence(wk, x, rs, registry);
    case ClaimAdded(_, _, _, x) => r := ApplyClaim(wk, x, rs, registry);
    case ClaimRetracted(_, _, _, _, _, _, _, _, _) =>
      var after := ApplyRetraction(wk, op, rs, registry);
      r := Ok(after);
    case DecisionAdded(_, _, _, x) => r := ApplyDecision(wk, x, rs, registry);
    case DerivationAdded(_, _, _, x) => r := ApplyDerivation(wk, x, rs, registry);
    case ResolutionAdded(_, _, _, x) => r := ApplyResolution(wk, x, rs, registry);
    case LifecycleEventAdded(_, _, _, x) => r := ApplyEvent(wk, x, rs, registry);
  }

  lemma AbsorbedNext(wk: Work, after: Work, op: Op, done: set<Op>, start: Base, registry: Registry)
    requires Absorbed(wk, done, start, registry) && RecordOp(wk.records, op).Ok?
    requires after.records == RecordOp(wk.records, op).value
    requires Advanced(wk, after, if op.ClaimRetracted? then RetractionsIn(done) + {op} else RetractionsIn(done), registry)
    ensures Absorbed(after, done + {op}, start, registry)
  {
    hide InStep;
    hide Covered;
    RecordStep(done, op);
    RetractionsStep(done, op);
    var added: Marks :| after.marks == Join(wk.marks, added) && Covered(BaseOf(wk), BaseOf(after), added);
    CoveredCompose(start, BaseOf(wk), BaseOf(after), wk.marks, added);
  }

  /** A record the log already holds: such operations leave everything as it was. Retractions are
      not records: one that is delivered again names its targets again. */
  ghost predicate Redelivered(op: Op, log: set<Op>) { op in log && !op.ClaimRetracted? }

  ghost predicate AllRedelivered(ops: seq<Op>, log: set<Op>) {
    forall i :: 0 <= i < |ops| ==> Redelivered(ops[i], log)
  }

  method AbsorbOp(wk: Work, op: Op, ghost done: set<Op>, ghost start: Base, registry: Registry) returns (r: Result<Work>)
    requires Absorbed(wk, done, start, registry) && UniqueOps(done + {op})
    ensures r.Ok? <==> CollisionFree(done + {op})
    ensures r.Ok? ==> Absorbed(r.value, done + {op}, start, registry)
    ensures r.Ok? && Redelivered(op, done) ==> r.value.marks == wk.marks
  {
    assert op in done ==> done + {op} == done;
    RecordsWellFiled(done);
    RecordStep(done, op);
    assert RetractionsIn(done) + {op} <= done + {op};
    hide InStep;
    hide Covered;
    hide CollisionFree;
    hide RecordOp;
    hide RecordsOf;
    hide WellFiled;
    r := Dispatch(wk, op, RetractionsIn(done), registry);
    if r.Ok? { AbsorbedNext(wk, r.value, op, done, start, registry); }
  }

  /** Part way through the loop over operations. */
  ghost predicate AbsorbedUpto(current: Work, wk: Work, ops: seq<Op>, i: nat, log: set<Op>, start: Base, registry: Registry) {
    && i <= |ops| && Absorbed(current, log + Elements(ops[..i]), start, registry)
    && (AllRedelivered(ops, log) ==> current.marks == wk.marks)
  }

  method AbsorbNext(current: Work, ghost wk: Work, ops: seq<Op>, i: nat, ghost log: set<Op>, ghost start: Base, registry: Registry)
    returns (r: Result<Work>)
    requires i < |ops| && UniqueOps(log + Elements(ops)) && AbsorbedUpto(current, wk, ops, i, log, start, registry)
    ensures r.Ok? ==> AbsorbedUpto(r.value, wk, ops, i + 1, log, start, registry)
    ensures r.ValueError? ==> !CollisionFree(log + Elements(ops))
  {
    NextPrefix(ops, i, log);
    hide CollisionFree;
    hide Absorbed;
    hide AllRedelivered;
    hide Redelivered;
    hide UniqueOps;
    hide Elements;
    r := AbsorbOp(current, ops[i], log + Elements(ops[..i]), start, registry);
    if r.ValueError? && CollisionFree(log + Elements(ops)) {
      CollisionFreeSubset(log + Elements(ops[..i + 1]), log + Elements(ops));
    }
  }

  /** `for op in ops`: raises exactly when the operations collide with each other or with the log. */
  method AbsorbOps(wk: Work, ops: seq<Op>, ghost log: set<Op>, ghost start: Base, registry: Registry)
    returns (r: Result<Work>)
    requires Absorbed(wk, log, start, registry) && UniqueOps(log + Elements(ops))
    ensures r.Ok? <==> CollisionFree(log + Elements(ops))
    ensures r.Ok? ==> Absorbed(r.value, log + Elements(ops), start, registry)
    ensures r.Ok? && AllRedelivered(ops, log) ==> r.value.marks == wk.marks
  {
    var current := wk;
    AbsorbedStart(wk, ops, log, start, registry);
    hide CollisionFree;
    hide Absorbed;
    hide AbsorbedUpto;
    hide AllRedelivered;
    hide UniqueOps;
    hide Elements;
    for i := 0 to |ops|
      invariant AbsorbedUpto(current, wk, ops, i, log, start, registry)
    {
      var next := AbsorbNext(current, wk, ops, i, log, start, registry);
      if next.ValueError? { return ValueError; }
      current := next.value;
    }
    AbsorbedEnd(current, wk, ops, log, start, registry);
    r := Ok(current);
  }

  lemma AbsorbedStart(wk: Work, ops: seq<Op>, log: set<Op>, start: Base, registry: Registry)
    requires Absorbed(wk, log, start, registry)
    ensures AbsorbedUpto(wk, wk, ops, 0, log, start, registry)
  {
    assert log + Elements(ops[..0]) == log;
    hide Absorbed;
  }

  lemma AbsorbedEnd(current: Work, wk: Work, ops: seq<Op>, log: set<Op>, start: Base, registry: Registry)
    requires AbsorbedUpto(current, wk, ops, |ops|, log, start, registry)
    ensures Absorbed(current, log + Elements(ops), start, registry) && CollisionFree(log + Elements(ops))
    ensures AllRedelivered(ops, log) ==> current.marks == wk.marks
  {
    assert ops[..|ops|] == ops;
    AbsorbedCollisionFree(current, log + Elements(ops), start, registry);
    hide Absorbed;
  }

  lemma NextPrefix(ops: seq<Op>, i: nat, log: set<Op>)
    requires i < |ops| && UniqueOps(log + Elements(ops))
    ensures log + Elements(ops[..i + 1]) == (log + Elements(ops[..i])) + {ops[i]}
    ensures log + Elements(ops[..i + 1]) <= log + Elements(ops)
    ensures UniqueOps(log + Elements(ops[..i + 1]))
    ensures AllRedelivered(ops, log) ==> Redelivered(ops[i], log + Elements(ops[..i]))
  {
    PrefixStep(ops, i);
  }

  lemma AbsorbedCollisionFree(wk: Work, done: set<Op>, start: Base, registry: Registry)
    requires Absorbed(wk, done, start, registry)
    ensures CollisionFree(done)
  {
  }

  // ---------------------------------------------------------------- before and after the loop

  /** The copies `apply_operations_incrementally` starts from. */
  function StartWork(state: MemoryState): Work {
    Work(state.records, state.links, state.retractions, state.activity.inactive, state.activity.byKey,
         state.histories, NO_MARKS)
  }

  lemma ListingsLoose(claims: map<Id, Claim>, inactive: set<Id>)
    requires ClaimsFiled(claims)
    ensures LooseBag(ActivityOf(claims, inactive, UNSCOPED).byKey, ActivePairs(claims, inactive, UNSCOPED))
  {
    var pairs := ActivePairs(claims, inactive, UNSCOPED);
    ActiveDistinct(claims, inactive, UNSCOPED);
    forall key | key in Firsts(pairs)
      ensures NoDuplicates(Listing(Image(pairs, key), ClaimRank)) && Elements(Listing(Image(pairs, key), ClaimRank)) == Image(pairs, key)
    {
      ImageDistinct(pairs, key, ClaimRank);
      ListingProperties(Image(pairs, key), ClaimRank);
    }
  }

  lemma StartAbsorbed(state: MemoryState, log: set<Op>, registry: Registry)
    requires CollisionFree(log) && state == StateOf(log, registry, UNSCOPED)
    ensures Absorbed(StartWork(state), log, Base(state.records, state.activity.inactive), registry)
  {
    RecordsWellFiled(log);
    ListingsLoose(state.records.claims, state.activity.inactive);
    CoveredReflexive(Base(state.records, state.activity.inactive));
    hide LooseBag;
    hide Covered;
    hide RecordsOf;
    hide CollisionFree;
    hide FoldOf;
    hide TablesOf;
  }

  /** Sorts every list by claim identifier and drops the keys left without claims. */
  function Tidy(raw: map<ClaimKey, seq<Claim>>): map<ClaimKey, seq<Claim>> {
    map key | key in raw && raw[key] != [] :: SortBy(raw[key], ClaimRank)
  }

  lemma TidyIsActivity(raw: map<ClaimKey, seq<Claim>>, claims: map<Id, Claim>, inactive: set<Id>)
    requires ClaimsFiled(claims) && LooseBag(raw, ActivePairs(claims, inactive, UNSCOPED))
    ensures Tidy(raw) == ActivityOf(claims, inactive, UNSCOPED).byKey
  {
    var pairs := ActivePairs(claims, inactive, UNSCOPED);
    ActiveDistinct(claims, inactive, UNSCOPED);
    forall key | key in raw
      ensures SortBy(raw[key], ClaimRank) == Listing(Image(pairs, key), ClaimRank) && (raw[key] != [] <==> key in Firsts(pairs))
    {
      ImageDistinct(pairs, key, ClaimRank);
      SortByListing(raw[key], Image(pairs, key), ClaimRank);
      ImageOutside(pairs, key);
      assert raw[key] != [] ==> raw[key][0] in Elements(raw[key]);
    }
    hide ActivePairs;
    assert Tidy(raw).Keys == Listings(pairs, ClaimRank).Keys;
  }
}
