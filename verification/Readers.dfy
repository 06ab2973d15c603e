/** Readers of materialization deltas: what taking one leaves them with, and the two ways they can be
    left behind. */
module Readers {
  import opened Basics
  import opened Model
  import opened Records
  import opened State
  import opened AbsorbAll
  import opened Incremental
  import opened Compaction
  import opened Caching
  import opened Memories
  import opened Projection
  import opened Exactness
  import opened Service
  import Limits

  type Shown = map<ProjectionId, RetrievalRecord>

  /** What one read gives: the state, the delta, and its projection in one namespace. */
  datatype Reading = Reading(state: MemoryState, delta: Delta, upserts: Shown, deletes: set<ProjectionId>)

  function Taken(was: Shown, x: Reading): Shown { (was - x.deletes) + x.upserts }

  /** Taking the changes leaves exactly the projection now if and only if, outside what the changes
      name, the reader held the projection of `base`. */
  ghost predicate ExactFrom(x: Reading, base: MemoryState, namespace: Name) {
    forall was: Shown, folded: Shown, now: Shown :: IsProjection(folded, base, namespace) && IsProjection(now, x.state, namespace) ==>
      (Taken(was, x) == now <==> AgreeOutside(was, folded, x.deletes + x.upserts.Keys))
  }

  /** Whoever held the projection of `base` holds the projection now. */
  lemma HolderExact(x: Reading, base: MemoryState, namespace: Name, was: Shown, now: Shown)
    requires ExactFrom(x, base, namespace) && IsProjection(was, base, namespace) && IsProjection(now, x.state, namespace)
    ensures Taken(was, x) == now
  {
    hide IsProjection;
    assert AgreeOutside(was, was, x.deletes + x.upserts.Keys);
  }

  /** Whoever held the projection at a position holds the projection now, unless the cache was built
      there with more than the operations up to it: after a restore, too, of a checkpoint that was
      saved with nothing more. */
  lemma SettledReaderExact(x: Reading, origin: Origin, order: seq<Op>, since: nat, rules: Registry, namespace: Name, was: Shown, now: Shown)
    requires since <= |order| && ExactFrom(x, BaseAt(origin, order, since, rules), namespace)
    requires since == origin.at ==> origin.held == Caching.Upto(order, since)
    requires IsProjection(was, StateAt(order, since, rules), namespace) && IsProjection(now, x.state, namespace)
    ensures Taken(was, x) == now
  {
    hide IsProjection;
    hide ExactFrom;
    hide StateOf;
    HolderExact(x, BaseAt(origin, order, since, rules), namespace, was, now);
  }

  method ProjectRead(state: MemoryState, d: Delta, namespace: Name, ghost base: MemoryState, ghost registry: Registry)
    returns (x: Reading)
    requires Tabled(state, registry) && (!d.fullRebuild ==> Tabled(base, registry) && DeltaCovers(d, base, state, registry))
    ensures x.state == state && x.delta == d
    ensures d.fullRebuild ==> IsProjection(x.upserts, state, namespace) && x.deletes == {}
    ensures !d.fullRebuild ==> ProjectsDelta(x.upserts, x.deletes, state, d, namespace) && ExactFrom(x, base, namespace)
  {
    hide Tabled;
    hide DeltaCovers;
    hide DirectTables;
    hide ProjectsDelta;
    hide IsProjection;
    hide ExactFrom;
    if d.fullRebuild {
      var all := ProjectState(state, namespace);
      x := Reading(state, d, all, {});
    } else {
      TabledDirect(state, registry);
      var upserts, deletes := ProjectStateDelta(state, namespace, d, FindingsIn(state, registry));
      x := Reading(state, d, upserts, deletes);
      ChangesExact(x, base, registry, namespace);
    }
  }

  lemma ChangesExact(x: Reading, base: MemoryState, registry: Registry, namespace: Name)
    requires Tabled(x.state, registry) && Tabled(base, registry) && DeltaCovers(x.delta, base, x.state, registry)
    requires ProjectsDelta(x.upserts, x.deletes, x.state, x.delta, namespace)
    ensures ExactFrom(x, base, namespace)
  {
    hide Tabled;
    hide DeltaCovers;
    hide ProjectsDelta;
    hide IsProjection;
    forall was: Shown, folded: Shown, now: Shown | IsProjection(folded, base, namespace) && IsProjection(now, x.state, namespace)
      ensures Taken(was, x) == now <==> AgreeOutside(was, folded, x.deletes + x.upserts.Keys)
    {
      ExactForReader(base, x.state, x.delta, registry, namespace, was, folded, x.upserts, x.deletes, now);
    }
  }

  /** `materialize_with_delta` and `project_state_delta` together. Unless a full rebuild is reported,
      the changes are exact for whoever held the projection of the state that what is remembered from
      the position on was folded from, and for nobody who differed from it outside what they name.
      That state is the one at the position, except where the cache was built with more. */
  method ReadSince(m: Memory, since: nat, namespace: Name, arrivals: seq<Op>) returns (r: Result<Reading>)
    requires m.Valid() && m.Readable()
    modifies m`token, m`state, m`cursor, m`materializedRegistry, m`materializedRevision, m`history, m`sinceCheckpoint,
             m`cachedRules, m`origin, m.store`order, m.store`ends, m.store`checkpoint, m.store`written, m.store.log
    ensures m.Valid() && m.Readable()
    ensures r.Ok? <==> CollisionFree(m.store.Contents())
    ensures r.Ok? ==> r.value.state == StateOf(m.store.Contents(), m.registry.current, UNSCOPED)
                      && (r.value.delta.fullRebuild <==> since != |m.store.order| && !StepFrom(m.history, since))
    ensures r.Ok? && r.value.delta.fullRebuild ==> IsProjection(r.value.upserts, r.value.state, namespace) && r.value.deletes == {}
    ensures r.Ok? && !r.value.delta.fullRebuild ==>
              m.origin.at <= since <= |m.store.order|
              && ProjectsDelta(r.value.upserts, r.value.deletes, r.value.state, r.value.delta, namespace)
              && ExactFrom(r.value, BaseAt(m.origin, m.store.order, since, m.registry.current), namespace)
    ensures r.Ok? && since == m.origin.at <= |m.store.order| && |m.history| <= 1 ==>
              (AllRedelivered(m.store.order[since..], m.origin.held) ==> r.value.delta.Silent())
    ensures r.Ok? && old(m.MustBuild()) ==> m.Fresh(|old(m.store.order)|, old(m.store.Contents()), arrivals)
    ensures Later(old(m.store.order), old(m.store.ends), m.store.order, m.store.ends)
    ensures Arrived(old(m.store.Contents()), arrivals, m.store.Contents())
  {
    hide Memory.Valid;
    hide Memory.Readable;
    hide Memory.UpToDate;
    hide Memory.Fresh;
    hide CollisionFree;
    hide StateOf;
    hide BaseAt;
    hide SpanSound;
    hide ExactFrom;
    hide ProjectsDelta;
    hide Tabled;
    hide DeltaCovers;
    hide AllRedelivered;
    hide Arrived;
    var read := m.MaterializeWithDelta(Some(since), arrivals);
    if read.ValueError? { return ValueError; }
    var state, d := read.value.0, read.value.1;
    UpToDateCurrent(m);
    WholeState(m.origin, m.store.order, m.store.Contents(), m.registry.current, state);
    ghost var base := if since <= |m.store.order| then BaseAt(m.origin, m.store.order, since, m.registry.current) else state;
    if !d.fullRebuild {
      SpanTabled(d, since, m.origin, m.store.order, m.registry.current);
    }
    var x := ProjectRead(state, d, namespace, base, m.registry.current);
    r := Ok(x);
  }

  // ---------------------------------------------------------------- an append during a rebuild

  lemma SilentChangesNothing(x: Reading, namespace: Name)
    requires x.delta.Silent() && ProjectsDelta(x.upserts, x.deletes, x.state, x.delta, namespace)
    ensures x.upserts == map[] && x.deletes == {} && forall was :: Taken(was, x) == was
  {
    hide ProjectedAt;
    assert forall p :: !Touched(x.state, x.delta, p) && !Gone(x.state, x.delta, namespace, p);
    assert x.upserts.Keys == {};
    forall was ensures Taken(was, x) == was {
      assert was - x.deletes == was;
    }
  }

  lemma SuffixDistinct(order: seq<Op>, rest: seq<Op>)
    requires NoDuplicates(order + rest)
    ensures NoDuplicates(rest) && forall j :: 0 <= j < |rest| ==> rest[j] !in Elements(order)
  {
    var all := order + rest;
    forall i, j | 0 <= i < j < |rest| ensures rest[i] != rest[j] { assert all[|order| + i] != all[|order| + j]; }
    forall i, j | 0 <= i < |order| && 0 <= j < |rest| ensures order[i] != rest[j] { assert all[i] != all[|order| + j]; }
  }

  lemma {:induction false} SizeOfElements<T>(s: seq<T>)
    requires NoDuplicates(s)
    ensures |Elements(s)| == |s|
  {
    if s != [] {
      var k := |s| - 1;
      SizeOfElements(s[..k]);
      PrefixStep(s, k);
      assert s[..k + 1] == s;
    }
  }

  lemma OneAppended(order: seq<Op>, order': seq<Op>, op: Op)
    requires order <= order' && NoDuplicates(order') && Elements(order') == Elements(order) + {op} && op !in Elements(order)
    ensures order' == order + [op]
  {
    var rest := order'[|order|..];
    assert order' == order + rest;
    SuffixDistinct(order, rest);
    ElementsConcat(order, rest);
    assert Elements(rest) == {op};
    SizeOfElements(rest);
    assert rest[0] in Elements(rest);
    assert rest == [op];
  }

  lemma UnknownClaimHidden(log: set<Op>, id: Id, namespace: Name, registry: Registry, was: Shown)
    requires CollisionFree(log) && id !in RecordsOf(log).claims
    requires IsProjection(was, StateOf(log, registry, UNSCOPED), namespace)
    ensures ClaimProjection(id) !in was
  {
    Limits.StateTabled(log, registry);
    assert AgreesAt(was, StateOf(log, registry, UNSCOPED), namespace, ClaimProjection(id));
    hide StateOf;
    hide CollisionFree;
    hide InactiveIds;
    hide RecordsOf;
    hide ConflictsOfClaim;
    hide IsProjection;
  }

  lemma LiveShown(s: MemoryState, id: Id, namespace: Name, now: Shown)
    requires IsLiveClaim(s, id, namespace) && IsProjection(now, s, namespace)
    ensures ClaimProjection(id) in now
  {
    assert AgreesAt(now, s, namespace, ClaimProjection(id));
    hide IsProjection;
    hide ConflictsOfClaim;
  }

  lemma LiveClaimShown(log: set<Op>, id: Id, registry: Registry, now: Shown)
    requires CollisionFree(log) && IsLive(log, registry, id)
    requires IsProjection(now, StateOf(log, registry, UNSCOPED), RecordsOf(log).claims[id].key.namespace)
    ensures ClaimProjection(id) in now
  {
    hide StateOf;
    hide CollisionFree;
    hide InactiveIds;
    hide RecordsOf;
    hide IsProjection;
    Limits.StateTabled(log, registry);
    LiveShown(StateOf(log, registry, UNSCOPED), id, RecordsOf(log).claims[id].key.namespace, now);
  }

  lemma NewClaimFiled(log: set<Op>, op: Op)
    requires op.ClaimAdded? && CollisionFree(log + {op})
    ensures CollisionFree(log) && op.claim.id in RecordsOf(log + {op}).claims && RecordsOf(log + {op}).claims[op.claim.id] == op.claim
  {
    CollisionFreeSubset(log, log + {op});
    assert op.claim in ClaimsIn(log + {op});
    ByIdEntry(ClaimsIn(log + {op}), ClaimId, op.claim.id);
  }

  /** A claim that is new and not retracted is in the projection of the log with it, not without. */
  lemma NewClaimShows(log: set<Op>, op: Op, registry: Registry, was: Shown, now: Shown)
    requires op.ClaimAdded? && CollisionFree(log + {op}) && op.claim.id !in RecordsOf(log).claims
    requires IsLive(log + {op}, registry, op.claim.id)
    requires IsProjection(was, StateOf(log, registry, UNSCOPED), op.claim.key.namespace)
    requires IsProjection(now, StateOf(log + {op}, registry, UNSCOPED), op.claim.key.namespace)
    ensures ClaimProjection(op.claim.id) !in was && ClaimProjection(op.claim.id) in now
  {
    NewClaimFiled(log, op);
    hide StateOf;
    hide CollisionFree;
    hide RecordsOf;
    hide IsLive;
    hide IsProjection;
    UnknownClaimHidden(log, op.claim.id, op.claim.key.namespace, registry, was);
    LiveClaimShown(log + {op}, op.claim.id, registry, now);
  }

  /** Whoever held the projection before holds it still, and it is no longer the projection. */
  ghost predicate LeftBehind(x: Reading, before: MemoryState, namespace: Name) {
    forall was: Shown, now: Shown :: IsProjection(was, before, namespace) && IsProjection(now, x.state, namespace) ==>
      Taken(was, x) == was && was != now
  }

  /** A cache is built while a claim lands, between the two reads of the rebuild. A reader standing at
      the end of the log as it was gets a delta that is no full rebuild and names nothing, although the
      claim is now in the projection of its namespace. */
  method RebuildHidesArrival(m: Memory, op: Op) returns (since: nat, r: Result<Reading>)
    requires m.Valid() && m.Readable() && m.MustBuild() && op.ClaimAdded?
    requires UniqueOps(m.store.Contents() + {op}) && CollisionFree(m.store.Contents() + {op})
    requires op.claim.id !in RecordsOf(m.store.Contents()).claims
    requires IsLive(m.store.Contents() + {op}, m.registry.current, op.claim.id)
    modifies m`token, m`state, m`cursor, m`materializedRegistry, m`materializedRevision, m`history, m`sinceCheckpoint,
             m`cachedRules, m`origin, m.store`order, m.store`ends, m.store`checkpoint, m.store`written, m.store.log
    ensures r.Ok? && since == |old(m.store.order)| && m.store.order == old(m.store.order) + [op]
    ensures !r.value.delta.fullRebuild && r.value.delta.Silent()
    ensures LeftBehind(r.value, StateAt(old(m.store.order), since, m.registry.current), op.claim.key.namespace)
  {
    hide Memory.Valid;
    hide Memory.Readable;
    hide CollisionFree;
    hide StateOf;
    hide RecordsOf;
    hide IsLive;
    hide ExactFrom;
    hide ProjectsDelta;
    hide IsProjection;
    hide BaseAt;
    ghost var order, contents, rules := m.store.order, m.store.Contents(), m.registry.current;
    StoreParts(m);
    NewOp(contents, op);
    since := |m.store.order|;
    assert contents + Elements([op]) == contents + {op};
    CollisionFreeSubset(contents, contents + {op});
    r := ReadSince(m, since, op.claim.key.namespace, [op]);
    assert Committed(contents, [op], m.store.Contents());
    StoreParts(m);
    OneAppended(order, m.store.order, op);
    Redelivering(order, op, m.store.Contents());
    hide AllRedelivered;
    SilentChangesNothing(r.value, op.claim.key.namespace);
    assert order[..since] == order;
    forall was: Shown, now: Shown | IsProjection(was, StateAt(order, since, rules), op.claim.key.namespace)
                      && IsProjection(now, r.value.state, op.claim.key.namespace)
      ensures Taken(was, r.value) == was && was != now
    {
      NewClaimShows(contents, op, rules, was, now);
    }
  }

  lemma StoreParts(m: Memory)
    requires m.Valid()
    ensures NoDuplicates(m.store.order) && Elements(m.store.order) == m.store.Contents()
  {
    m.StoreOfValid();
    hide Memory.Valid;
  }

  lemma NewOp(contents: set<Op>, op: Op)
    requires op.ClaimAdded? && op.claim.id !in RecordsOf(contents).claims && CollisionFree(contents + {op})
    ensures op !in contents
  {
    CollisionFreeSubset(contents, contents + {op});
    if op in contents {
      assert op.claim in ClaimsIn(contents);
      ByIdEntry(ClaimsIn(contents), ClaimId, op.claim.id);
    }
  }

  lemma Redelivering(order: seq<Op>, op: Op, held: set<Op>)
    requires op in held && op.ClaimAdded?
    ensures AllRedelivered((order + [op])[|order|..], held)
  {
    assert (order + [op])[|order|..] == [op];
  }
}
