/** What the cached materialization of `Memory` means, as predicates on values: the cached state,
    the history of deltas, and the stored checkpoint, each against the store's append order. */
module Caching {
  import opened Basics
  import opened Model
  import opened Records
  import opened State
  import opened Affected
  import opened AbsorbAll
  import opened Refold
  import opened Incremental
  import opened Deltas
  import opened Paging
  import opened Checkpoint
  import opened Store

  const CHECKPOINT_VERSION: Name := "4"
  const HISTORY_LIMIT := 1024
  const CHECKPOINT_INTERVAL_OPS := 100

  ghost function Upto(order: seq<Op>, cursor: nat): set<Op>
    requires cursor <= |order|
  {
    Elements(order[..cursor])
  }

  /** The state holds everything up to the cursor, and possibly later operations as well. */
  ghost predicate HoldsAtLeast(state: MemoryState, cursor: nat, order: seq<Op>, rules: Registry, seen: set<Op>) {
    cursor <= |order| && Upto(order, cursor) <= seen <= Elements(order) && Reached(state, seen, rules)
  }

  /** The state is exactly that of the operations up to the cursor. */
  ghost predicate AtRest(state: MemoryState, cursor: nat, order: seq<Op>, ends: seq<nat>, rules: Registry) {
    cursor <= |order| && IsBoundary(ends, cursor) && Reached(state, Upto(order, cursor), rules)
  }

  ghost function StateAt(order: seq<Op>, cursor: nat, rules: Registry): MemoryState
    requires cursor <= |order|
  {
    StateOf(Upto(order, cursor), rules, UNSCOPED)
  }

  /** Where a cache was last built: the position its cursor then had, and the operations its state
      then held. A rebuild that raced other writers, and a checkpoint saved by one, hold more than
      the operations up to that position. */
  datatype Origin = Origin(at: nat, held: set<Op>)

  ghost predicate OriginSound(origin: Origin, order: seq<Op>) {
    origin.at <= |order| && Upto(order, origin.at) <= origin.held <= Elements(order) && CollisionFree(origin.held)
  }

  /** The state that what is remembered from a position on was folded from. */
  ghost function BaseAt(origin: Origin, order: seq<Op>, at: nat, rules: Registry): MemoryState
    requires at <= |order|
  {
    if at == origin.at then StateOf(origin.held, rules, UNSCOPED) else StateAt(order, at, rules)
  }

  /** The delta names every change between the state folded from at one position and the state at
      another. */
  ghost predicate SpanSound(d: Delta, from: nat, until: nat, origin: Origin, order: seq<Op>, rules: Registry) {
    from <= until <= |order| && DeltaCovers(d, BaseAt(origin, order, from, rules), StateAt(order, until, rules), rules)
  }

  /** Records that were held already leave nothing to name. */
  ghost predicate Quiet(d: Delta, origin: Origin, order: seq<Op>) {
    d.cursorBefore == origin.at <= d.cursorAfter <= |order| ==>
      (AllRedelivered(order[origin.at..d.cursorAfter], origin.held) ==> d.Silent())
  }

  ghost predicate StepSound(d: Delta, origin: Origin, order: seq<Op>, rules: Registry) {
    SpanSound(d, d.cursorBefore, d.cursorAfter, origin, order, rules) && Quiet(d, origin, order)
  }

  /** Deltas follow each other without gaps and end at the cursor. */
  ghost predicate Chained(history: seq<Delta>, cursor: nat) {
    && (forall i :: 0 <= i < |history| ==> history[i].cursorBefore < history[i].cursorAfter <= cursor && history[i].processed != []
                                           && !history[i].fullRebuild)
    && (forall i :: 0 < i < |history| ==> history[i - 1].cursorAfter == history[i].cursorBefore)
    && (history != [] ==> history[|history| - 1].cursorAfter == cursor)
  }

  /** Every remembered step starts no earlier than the cache was built, and names every change. */
  ghost predicate HistorySound(history: seq<Delta>, origin: Origin, cursor: nat, order: seq<Op>, rules: Registry) {
    && origin.at <= cursor <= |order| && OriginSound(origin, order) && Chained(history, cursor)
    && forall i :: 0 <= i < |history| ==> origin.at <= history[i].cursorBefore && StepSound(history[i], origin, order, rules)
  }

  /** A stored checkpoint is of the operations it was written for, reaching at least its cursor,
      under the rules then in use. */
  ghost predicate CheckpointSound(c: Option<SavedCheckpoint>, written: Written, order: seq<Op>, ends: seq<nat>) {
    c.Some? && c.value.version == CHECKPOINT_VERSION ==>
      IsBoundary(ends, c.value.cursor) && OriginSound(Origin(c.value.cursor, written.ops), order)
      && c.value.payload == MemoryStateToCheckpoint(StateOf(written.ops, written.rules, UNSCOPED))
  }

  // ---------------------------------------------------------------- later appends change nothing

  ghost predicate Later(order: seq<Op>, ends: seq<nat>, order': seq<Op>, ends': seq<nat>) {
    order <= order' && ends <= ends'
  }

  lemma UptoLater(order: seq<Op>, order': seq<Op>, cursor: nat)
    requires order <= order' && cursor <= |order|
    ensures Upto(order', cursor) == Upto(order, cursor) && Elements(order) <= Elements(order')
  {
    assert order'[..cursor] == order[..cursor];
  }

  lemma BoundaryLater(ends: seq<nat>, ends': seq<nat>, c: nat)
    requires ends <= ends' && IsBoundary(ends, c)
    ensures IsBoundary(ends', c)
  {
    if c != 0 {
      var i :| 0 <= i < |ends| && ends[i] == c;
      assert ends'[i] == c;
    }
  }

  lemma AtRestLater(state: MemoryState, cursor: nat, order: seq<Op>, ends: seq<nat>, order': seq<Op>, ends': seq<nat>, rules: Registry)
    requires AtRest(state, cursor, order, ends, rules) && Later(order, ends, order', ends')
    ensures AtRest(state, cursor, order', ends', rules)
  {
    hide Reached;
    UptoLater(order, order', cursor);
    BoundaryLater(ends, ends', cursor);
  }

  lemma OriginLater(origin: Origin, order: seq<Op>, order': seq<Op>)
    requires OriginSound(origin, order) && order <= order'
    ensures OriginSound(origin, order')
  {
    hide CollisionFree;
    UptoLater(order, order', origin.at);
  }

  lemma StepLater(d: Delta, origin: Origin, order: seq<Op>, order': seq<Op>, rules: Registry)
    requires StepSound(d, origin, order, rules) && order <= order'
    ensures StepSound(d, origin, order', rules)
  {
    hide DeltaCovers;
    hide StateOf;
    UptoLater(order, order', d.cursorBefore);
    UptoLater(order, order', d.cursorAfter);
    if origin.at <= d.cursorAfter {
      assert order'[origin.at..d.cursorAfter] == order[origin.at..d.cursorAfter];
    }
  }

  lemma HistoryLater(history: seq<Delta>, origin: Origin, cursor: nat, order: seq<Op>, order': seq<Op>, rules: Registry)
    requires HistorySound(history, origin, cursor, order, rules) && order <= order'
    ensures HistorySound(history, origin, cursor, order', rules)
  {
    OriginLater(origin, order, order');
    hide StepSound;
    hide OriginSound;
    forall i | 0 <= i < |history| ensures StepSound(history[i], origin, order', rules) {
      StepLater(history[i], origin, order, order', rules);
    }
  }

  lemma CheckpointLater(c: Option<SavedCheckpoint>, written: Written, order: seq<Op>, ends: seq<nat>, order': seq<Op>, ends': seq<nat>)
    requires CheckpointSound(c, written, order, ends) && Later(order, ends, order', ends')
    ensures CheckpointSound(c, written, order', ends')
  {
    hide MemoryStateToCheckpoint;
    hide StateOf;
    hide OriginSound;
    if c.Some? && c.value.version == CHECKPOINT_VERSION {
      BoundaryLater(ends, ends', c.value.cursor);
      OriginLater(Origin(c.value.cursor, written.ops), order, order');
    }
  }

  // ---------------------------------------------------------------- one catch-up

  /** Applying the rest of the order brings any such state up to date. */
  method CatchUp(state: MemoryState, cursor: nat, ops: seq<Op>, rules: Registry, ghost order: seq<Op>, ghost seen: set<Op>)
    returns (r: Result<(MemoryState, Delta)>)
    requires HoldsAtLeast(state, cursor, order, rules, seen) && ops == order[cursor..] && UniqueOps(Elements(order))
    ensures r.Ok? <==> CollisionFree(Elements(order))
    ensures r.Ok? ==> Reached(r.value.0, Elements(order), rules)
    ensures r.Ok? ==> DeltaCovers(r.value.1, state, r.value.0, rules) && r.value.1.processed == OpIds(ops)
                      && !r.value.1.fullRebuild
    ensures r.Ok? && AllRedelivered(ops, seen) ==> r.value.1.Silent()
  {
    assert order == order[..cursor] + ops;
    ElementsConcat(order[..cursor], ops);
    assert seen + Elements(ops) == Elements(order);
    hide StateOf;
    hide DeltaCovers;
    hide CollisionFree;
    r := ApplyOperationsIncrementally(state, ops, rules, seen);
  }

  /** `deque(maxlen=1024).append` */
  function Remember(history: seq<Delta>, d: Delta): seq<Delta> {
    (if |history| >= HISTORY_LIMIT then history[|history| - HISTORY_LIMIT + 1..] else history) + [d]
  }

  lemma Remembered(history: seq<Delta>, d: Delta, origin: Origin, order: seq<Op>, rules: Registry)
    requires HistorySound(history, origin, d.cursorBefore, order, rules)
    requires d.cursorBefore < d.cursorAfter == |order| && d.processed != [] && !d.fullRebuild
    requires StepSound(d, origin, order, rules)
    ensures HistorySound(Remember(history, d), origin, d.cursorAfter, order, rules)
  {
    hide StepSound;
    hide OriginSound;
    var kept := if |history| >= HISTORY_LIMIT then history[|history| - HISTORY_LIMIT + 1..] else history;
    SuffixSound(history, if |history| >= HISTORY_LIMIT then |history| - HISTORY_LIMIT + 1 else 0, origin, d.cursorBefore, order, rules);
    assert history[0..] == history;
    OneMoreStep(kept, d, origin, order, rules);
  }

  lemma SuffixSound(history: seq<Delta>, k: nat, origin: Origin, cursor: nat, order: seq<Op>, rules: Registry)
    requires HistorySound(history, origin, cursor, order, rules) && k <= |history|
    ensures HistorySound(history[k..], origin, cursor, order, rules)
  {
    hide StepSound;
    hide OriginSound;
    var kept := history[k..];
    forall i | 0 <= i < |kept| ensures kept[i] == history[k + i] {}
  }

  lemma OneMoreStep(kept: seq<Delta>, d: Delta, origin: Origin, order: seq<Op>, rules: Registry)
    requires HistorySound(kept, origin, d.cursorBefore, order, rules)
    requires d.cursorBefore < d.cursorAfter == |order| && d.processed != [] && !d.fullRebuild
    requires StepSound(d, origin, order, rules)
    ensures HistorySound(kept + [d], origin, d.cursorAfter, order, rules)
  {
    hide StepSound;
    hide OriginSound;
    var all := kept + [d];
    forall i | 0 <= i < |all| ensures all[i] == (if i < |kept| then kept[i] else d) {}
  }

  lemma ReachedIs(s: MemoryState, ops: set<Op>, rules: Registry)
    requires Reached(s, ops, rules)
    ensures s == StateOf(ops, rules, UNSCOPED)
  {
    hide StateOf;
  }

  lemma Recursored(d: Delta, s: MemoryState, t: MemoryState, rules: Registry, before: nat, after: nat)
    requires DeltaCovers(d, s, t, rules)
    ensures DeltaCovers(d.(cursorBefore := before, cursorAfter := after), s, t, rules)
  {
    hide FindingsIn;
    hide ResolutionsOn;
    hide Covered;
  }

  /** One catch-up, as a remembered step. */
  lemma StepOfCatchUp(state: MemoryState, after: MemoryState, d: Delta, origin: Origin, cursor: nat, order: seq<Op>, rules: Registry)
    requires cursor <= |order| && state == BaseAt(origin, order, cursor, rules) && Reached(after, Elements(order), rules)
    requires DeltaCovers(d, state, after, rules) && d.cursorBefore == cursor && d.cursorAfter == |order| && Quiet(d, origin, order)
    ensures StepSound(d, origin, order, rules)
  {
    hide Reached;
    hide DeltaCovers;
    hide StateOf;
    assert order[..|order|] == order;
    ReachedIs(after, Elements(order), rules);
  }

  // ---------------------------------------------------------------- combining remembered steps

  /** Some remembered step starts at this position. */
  ghost predicate StepFrom(history: seq<Delta>, since: nat) {
    exists k: nat :: k < |history| && history[k].cursorBefore == since
  }

  /** The step just remembered is never the one dropped. */
  lemma NewestStep(history: seq<Delta>, d: Delta)
    ensures StepFrom(Remember(history, d), d.cursorBefore)
  {
    var after := Remember(history, d);
    assert after[|after| - 1] == d;
  }

  ghost function RememberAll(history: seq<Delta>, steps: seq<Delta>): seq<Delta> {
    if steps == [] then history else Remember(RememberAll(history, steps[..|steps| - 1]), steps[|steps| - 1])
  }

  ghost function Last1024(steps: seq<Delta>): seq<Delta> { if |steps| <= 1024 then steps else steps[|steps| - 1024..] }

  lemma RememberOne(all: seq<Delta>, d: Delta)
    ensures Remember(Last1024(all), d) == Last1024(all + [d])
  {
  }

  /** What is remembered is the last 1024 steps, in order. */
  lemma {:induction false} RemembersLast(history: seq<Delta>, steps: seq<Delta>)
    requires |history| <= 1024
    ensures RememberAll(history, steps) == Last1024(history + steps)
  {
    if steps == [] {
      assert history + steps == history;
    } else {
      var front, last := steps[..|steps| - 1], steps[|steps| - 1];
      assert history + steps == (history + front) + [last];
      RemembersLast(history, front);
      hide Last1024;
      hide Remember;
      RememberOne(history + front, last);
    }
  }

  lemma KeptOrDropped(all: seq<Delta>, at: nat, cursor: nat)
    requires Chained(all, cursor) && at < |all|
    ensures StepFrom(Last1024(all), all[at].cursorBefore) <==> |all| - at <= 1024
  {
    var kept := Last1024(all);
    var skipped := |all| - |kept|;
    assert forall k :: 0 <= k < |kept| ==> kept[k] == all[skipped + k];
    if |all| - at <= 1024 {
      assert kept[at - skipped] == all[at];
    } else {
      forall k: nat | k < |kept| ensures kept[k].cursorBefore != all[at].cursorBefore {
        StepsIncrease(all, cursor, at, skipped + k);
        assert all[at].cursorBefore < all[at].cursorAfter;
      }
    }
  }

  /** A step stays remembered as long as fewer than 1024 came after it, and no longer. */
  lemma StepStays(history: seq<Delta>, steps: seq<Delta>, at: nat, cursor: nat)
    requires |history| <= 1024 && Chained(history + steps, cursor) && at < |history + steps|
    ensures StepFrom(RememberAll(history, steps), (history + steps)[at].cursorBefore) <==> |history + steps| - at - 1 < 1024
  {
    hide Chained;
    hide StepFrom;
    hide RememberAll;
    hide Last1024;
    RemembersLast(history, steps);
    KeptOrDropped(history + steps, at, cursor);
  }

  lemma {:induction false} StepsIncrease(history: seq<Delta>, current: nat, i: nat, j: nat)
    requires Chained(history, current) && i < j < |history|
    ensures history[i].cursorAfter <= history[j].cursorBefore
  {
    if i < j - 1 { StepsIncrease(history, current, i, j - 1); }
  }

  lemma NotRemembered(history: seq<Delta>, current: nat, since: nat, i: nat)
    requires Chained(history, current) && i < |history|
    requires forall k :: 0 <= k < i ==> history[k].cursorAfter <= since
    requires history[i].cursorAfter > since && history[i].cursorBefore != since
    ensures !StepFrom(history, since)
  {
    forall k: nat | k < |history| ensures history[k].cursorBefore != since {
      if i < k { StepsIncrease(history, current, i, k); }
    }
  }

  /** The remembered steps from `since` to the cursor, if they are all still there. */
  method DeltasSince(history: seq<Delta>, since: nat, current: nat) returns (deltas: Option<seq<Delta>>)
    requires Chained(history, current)
    ensures deltas.Some? ==> exists k: nat :: k < |history| && deltas.value == history[k..] && history[k].cursorBefore == since
    ensures deltas.Some? <==> StepFrom(history, since)
  {
    var found: seq<Delta>, expected := [], since;
    ghost var first: nat := 0;
    for i := 0 to |history|
      invariant first <= i && found == history[first..i]
      invariant first < i ==> history[first].cursorBefore == since && expected == history[i - 1].cursorAfter && expected > since
      invariant first == i ==> expected == since
      invariant forall k :: 0 <= k < first ==> history[k].cursorAfter <= since
    {
      var d := history[i];
      if d.cursorAfter <= since {
        first := i + 1;
        assert history[i + 1..i + 1] == history[i..i];
        continue;
      }
      if d.cursorBefore != expected {
        NotRemembered(history, current, since, i);
        return None;
      }
      assert history[first..i] + [d] == history[first..i + 1];
      found, expected := found + [d], d.cursorAfter;
    }
    if found == [] || expected != current { return None; }
    assert history[..|history|] == history;
    deltas := Some(found);
  }

  lemma HeldWellFiled(ops: set<Op>, rules: Registry)
    requires CollisionFree(ops)
    ensures WellFiled(StateOf(ops, rules, UNSCOPED).records)
  {
    RecordsWellFiled(ops);
    hide CollisionFree;
    hide RecordsOf;
    hide WellFiled;
    StateRecords(ops, rules);
  }

  lemma PrefixWellFiled(order: seq<Op>, at: nat, rules: Registry)
    requires at <= |order| && CollisionFree(Elements(order))
    ensures WellFiled(StateAt(order, at, rules).records)
  {
    assert Upto(order, at) <= Elements(order);
    CollisionFreeSubset(Upto(order, at), Elements(order));
    hide CollisionFree;
    hide StateOf;
    hide WellFiled;
    HeldWellFiled(Upto(order, at), rules);
  }

  lemma StateRecords(ops: set<Op>, rules: Registry)
    ensures StateOf(ops, rules, UNSCOPED).records == RecordsOf(ops)
  {
    hide RecordsOf;
  }

  ghost predicate CombinedSpan(history: seq<Delta>, k: nat, j: nat, origin: Origin, order: seq<Op>, rules: Registry)
    requires k < j <= |history|
  {
    var d := CombineAll(history[k..j]);
    d.cursorBefore == history[k].cursorBefore && d.cursorAfter == history[j - 1].cursorAfter
    && SpanSound(d, d.cursorBefore, d.cursorAfter, origin, order, rules)
  }

  /** The remembered steps from one remembered position on, combined, name every change since. */
  lemma {:induction false} CombinedSound(history: seq<Delta>, origin: Origin, cursor: nat, order: seq<Op>, rules: Registry, k: nat, j: nat)
    requires k < j <= |history|
    requires HistorySound(history, origin, cursor, order, rules) && CollisionFree(Elements(order))
    ensures CombinedSpan(history, k, j, origin, order, rules)
    decreases j
  {
    hide SpanSound;
    hide CollisionFree;
    hide OriginSound;
    assert StepSound(history[j - 1], origin, order, rules);
    if j == k + 1 {
      assert history[k..j] == [history[k]];
      FullSpan(history[k], origin, order, rules);
    } else {
      CombinedSound(history, origin, cursor, order, rules, k, j - 1);
      StepsIncrease(history, cursor, k, j - 1);
      assert history[k..j][..j - 1 - k] == history[k..j - 1];
      assert OriginSound(origin, order);
      CombineSpans(CombineAll(history[k..j - 1]), history[j - 1], origin, order, rules,
                   history[k].cursorBefore, history[j - 1].cursorBefore, history[j - 1].cursorAfter);
    }
  }

  lemma FullSpan(d: Delta, origin: Origin, order: seq<Op>, rules: Registry)
    requires StepSound(d, origin, order, rules)
    ensures SpanSound(d.(fullRebuild := false), d.cursorBefore, d.cursorAfter, origin, order, rules)
  {
    hide StateOf;
    hide FindingsIn;
    hide ResolutionsOn;
    hide Covered;
  }

  lemma CombineSpans(d: Delta, e: Delta, origin: Origin, order: seq<Op>, rules: Registry, a: nat, b: nat, c: nat)
    requires SpanSound(d, a, b, origin, order, rules) && SpanSound(e, b, c, origin, order, rules) && origin.at < b
    requires CollisionFree(Elements(order)) && OriginSound(origin, order)
    ensures SpanSound(Combine(d, e), a, c, origin, order, rules)
  {
    hide DeltaCovers;
    hide StateOf;
    hide CollisionFree;
    hide WellFiled;
    HeldWellFiled(origin.held, rules);
    PrefixWellFiled(order, a, rules);
    PrefixWellFiled(order, b, rules);
    PrefixWellFiled(order, c, rules);
    CoversCombine(d, e, BaseAt(origin, order, a, rules), StateAt(order, b, rules), StateAt(order, c, rules), rules);
  }
}
