/** A change of rules that nobody is told about: neither a reader of deltas, whose position counts
    operations only, nor a new memory, whose token says nothing of the rules. */
module UnseenRules {
  import opened Basics
  import opened Model
  import opened Records
  import opened State
  import opened AbsorbAll
  import opened Checkpoint
  import opened Registries
  import opened Store
  import opened Caching
  import opened Memories
  import opened Projection
  import opened Limits
  import opened Readers

  lemma RecordLost(s: MemoryState, t: MemoryState, c: ConflictSet, namespace: Name, was: Shown, now: Shown)
    requires c.id in s.findings.byId && s.findings.byId[c.id] == c && InNamespace(c, namespace)
    requires c.id in t.findings.byId ==> t.findings.byId[c.id].key != c.key
    requires IsProjection(was, s, namespace) && IsProjection(now, t, namespace)
    ensures was != now
  {
    var p := ConflictProjection(c.id);
    assert AgreesAt(was, s, namespace, p) && AgreesAt(now, t, namespace, p);
    hide IsProjection;
    hide StatusOr;
    assert p in was && was[p].content.finding.key == c.key;
  }

  /** A finding that a rule removes was in the projection, and its record is there no longer. */
  lemma FindingLost(log: set<Op>, a: Registry, b: Registry, x: Claim, y: Claim, was: Shown, now: Shown)
    requires CollisionFree(log) && Clashing(log, a, x, y) && b.RuleFor(x.key.predicateName).multiValued
    requires IsProjection(was, StateOf(log, a, UNSCOPED), x.key.namespace)
    requires IsProjection(now, StateOf(log, b, UNSCOPED), x.key.namespace)
    ensures was != now
  {
    var c := ClashIsFiled(log, a, x, y);
    MultiValuedNeverConflicts(log, b, UNSCOPED, x.key);
    hide StateOf;
    hide CollisionFree;
    hide Clashing;
    hide IsProjection;
    assert InNamespace(c, x.key.namespace);
    RecordLost(StateOf(log, a, UNSCOPED), StateOf(log, b, UNSCOPED), c, x.key.namespace, was, now);
  }

  lemma NothingArrived(before: set<Op>, after: set<Op>)
    requires Arrived(before, [], after)
    ensures after == before
  {
    assert before + Elements<Op>([]) == before;
  }

  lemma SameLength(order: seq<Op>, order': seq<Op>)
    requires order <= order' && NoDuplicates(order') && Elements(order') == Elements(order)
    ensures order' == order
  {
    SizeOfElements(order');
    assert forall i, j :: 0 <= i < j < |order| ==> order[i] == order'[i] && order[j] == order'[j];
    SizeOfElements(order);
  }

  /** A rule registered between two reads, with nothing appended: a finding of two incompatible claims
      stood before and is gone, and a reader at the position handed out just before is told of no
      change, so that it still shows the finding. `RuleChangeShowsExactly` says when that happens. */
  method RuleChangeGoesUnseen(m: Memory, x: Claim, y: Claim, rule: Rule) returns (since: nat, before: MemoryState, r: Result<Reading>)
    requires m.Valid() && m.Readable() && CollisionFree(m.store.Contents())
    requires Clashing(m.store.Contents(), m.registry.current, x, y) && rule.multiValued
    modifies m, m.registry, m.store, m.store.log
    ensures m.store.order == old(m.store.order) && since == |m.store.order| && r.Ok?
    ensures before == StateOf(m.store.Contents(), old(m.registry.current), UNSCOPED) && x.key in before.findings.byKey
    ensures x.key !in r.value.state.findings.byKey && !r.value.delta.fullRebuild && r.value.delta.Silent()
    ensures LeftBehind(r.value, before, x.key.namespace)
  {
    hide Memory.Valid;
    hide Memory.Readable;
    hide CollisionFree;
    hide StateOf;
    hide Clashing;
    hide ExactFrom;
    hide ProjectsDelta;
    hide IsProjection;
    hide BaseAt;
    hide SpanSound;
    hide Memory.UpToDate;
    ghost var order, contents, rules := m.store.order, m.store.Contents(), m.registry.current;
    StoreParts(m);
    var first := m.MaterializeWithDelta(None, []);
    NothingArrived(contents, m.store.Contents());
    StoreParts(m);
    SameLength(order, m.store.order);
    since, before := |m.store.order|, first.value.0;
    FirstRead(m);
    m.RegisterRule(x.key.predicateName, rule);
    r := ReadSince(m, since, x.key.namespace, []);
    NothingArrived(contents, m.store.Contents());
    StoreParts(m);
    SameLength(order, m.store.order);
    NoneLeft(m.store.order, m.origin.held);
    hide AllRedelivered;
    SilentChangesNothing(r.value, x.key.namespace);
    var c := ClashIsFiled(contents, rules, x, y);
    MultiValuedNeverConflicts(contents, m.registry.current, UNSCOPED, x.key);
    forall was: Shown, now: Shown | IsProjection(was, before, x.key.namespace) && IsProjection(now, r.value.state, x.key.namespace)
      ensures Taken(was, r.value) == was && was != now
    {
      FindingLost(contents, rules, m.registry.current, x, y, was, now);
    }
  }

  lemma FirstRead(m: Memory)
    requires m.UpToDate()
    ensures m.state.Some?
  {
    hide Memory.Valid;
  }

  lemma NoneLeft(order: seq<Op>, held: set<Op>)
    ensures AllRedelivered(order[|order|..], held)
  {
  }

  // ---------------------------------------------------------------- a token that outlives its rules

  /** One memory saves a checkpoint under a token, another is given the same token and a registry with
      one rule more. The checkpoint is read back with a finding that no longer stands, so what is read
      back is not the state of the log. `RestoreCoherent` says when that happens. */
  method StaleTokenRestores(store: InMemoryStore, token: Name, x: Claim, y: Claim, rule: Rule)
    returns (second: Memory, restored: Option<(nat, MemoryState)>)
    requires store.Valid() && store.checkpoint.None? && CollisionFree(store.Contents())
    requires Clashing(store.Contents(), Registry(map[]), x, y) && rule.multiValued
    modifies store, store.log
    ensures second.Valid() && second.HasCheckpoint() && !second.Readable() && second.store == store && restored.Some?
    ensures store.Contents() == old(store.Contents()) && store.written == Written(store.Contents(), Registry(map[]))
    ensures x.key in restored.value.1.findings.byKey
    ensures x.key !in StateOf(store.Contents(), second.registry.current, UNSCOPED).findings.byKey
  {
    hide Memory.Valid;
    hide Memory.Built;
    hide CollisionFree;
    hide StateOf;
    hide Clashing;
    hide SameCheckpoint;
    hide MemoryStateToCheckpoint;
    ghost var contents := store.Contents();
    var rules := new PredicateRegistry();
    var first := new Memory(store, "first", rules, false, Some(token));
    var ok := first.Rebuild([]);
    NothingArrived(contents, store.Contents());
    SavedParts(first);
    var more := new PredicateRegistry();
    more.Register(x.key.predicateName, rule);
    second := new Memory(store, "second", more, false, Some(token));
    restored := second.ReadCheckpoint();
    var c := ClashIsFiled(contents, Registry(map[]), x, y);
    MultiValuedNeverConflicts(contents, more.current, UNSCOPED, x.key);
  }

  lemma SavedParts(m: Memory)
    requires m.Built(m.store.Contents()) && m.SavedNow(m.store.Contents()) && m.token.Some?
    ensures m.store.Valid() && CheckpointSound(m.store.checkpoint, m.store.written, m.store.order, m.store.ends)
    ensures m.store.checkpoint.Some? && m.store.checkpoint.value.version == CHECKPOINT_VERSION
            && m.store.checkpoint.value.token == m.token.value && m.store.written == Written(m.store.Contents(), m.registry.current)
  {
    hide HoldsAtLeast;
    hide HistorySound;
    hide CheckpointSound;
    hide CollisionFree;
    hide MemoryStateToCheckpoint;
  }
}
