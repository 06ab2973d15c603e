/** The replica methods of `Memory`: exporting a stream, applying a delta, and pulling from a peer.
    Each is shown to be one of the steps of the transition system in `Sync`. */
module ReplicaSync {
  import opened Basics
  import opened Model
  import opened Records
  import opened State
  import opened OpLogs
  import opened Paging
  import opened Replica
  import Checkpoint
  import opened Store
  import opened Caching
  import opened Memories
  import opened Sync

  /** The digest of an operation's payload: injective, so the payload itself. */
  datatype Digest = DigestOf(op: Op)

  datatype ReplicaDelta = ReplicaDelta(sender: Name, before: nat, after: nat, ops: seq<Op>, sizes: seq<int>)

  datatype ReplicaManifest = ReplicaManifest(sender: Name, before: nat, after: nat, entries: seq<(Id, Digest)>)

  /** The constructor's checks. */
  ghost predicate WellFormed(d: ReplicaDelta) {
    && d.before <= d.after && PositiveSizes(d.sizes) && Sum(d.sizes) == |d.ops|
    && (d.before == d.after ==> d.ops == [])
  }

  function EntriesOf(ops: seq<Op>): seq<(Id, Digest)> {
    seq(|ops|, i requires 0 <= i < |ops| => (ops[i].opId, DigestOf(ops[i])))
  }

  /** A manifest of the page a store holds after a cursor. */
  ghost predicate Describes(m: ReplicaManifest, sender: Name, order: seq<Op>, ends: seq<nat>, limit: Option<nat>) {
    && m.sender == sender && m.before <= m.after <= |order|
    && IsBoundary(ends, m.before) && IsPage(ends, |order|, m.before, limit, m.after)
    && m.entries == EntriesOf(order[m.before..m.after])
  }

  // ---------------------------------------------------------------- exporting

  /** `_read_replica_store_delta` */
  method ReadReplicaStoreDelta(m: Memory, after: nat, maxOps: Option<nat>) returns (r: Result<StoreDelta>)
    requires m.store.Valid()
    ensures r.Ok? <==> IsBoundary(m.store.ends, after) && maxOps != Some(0)
    ensures r.Ok? ==> Reads(m.store.order, m.store.ends, after, maxOps, r.value)
  {
    hide Reads;
    hide IsBoundary;
    if maxOps == Some(0) { return ValueError; }
    r := m.store.ReadAfter(after, maxOps);
  }

  /** `export_replica_delta` */
  method ExportReplicaDelta(m: Memory, after: nat, maxOps: Option<nat>) returns (r: Result<ReplicaDelta>)
    requires m.store.Valid()
    ensures r.Ok? <==> IsBoundary(m.store.ends, after) && maxOps != Some(0)
    ensures r.Ok? ==> WellFormed(r.value) && r.value.sender == m.replicaId && r.value.before == after
                      && IsPage(m.store.ends, |m.store.order|, after, maxOps, r.value.after)
                      && r.value.ops == m.store.order[after..r.value.after]
  {
    var read := ReadReplicaStoreDelta(m, after, maxOps);
    if read.ValueError? { return ValueError; }
    PageSizesCover(m.store.ends, |m.store.order|, after, read.value.cursor, read.value.sizes);
    r := Ok(ReplicaDelta(m.replicaId, after, read.value.cursor, read.value.ops, read.value.sizes));
  }

  /** `export_replica_manifest` */
  method ExportReplicaManifest(m: Memory, after: nat, maxOps: Option<nat>) returns (r: Result<ReplicaManifest>)
    requires m.store.Valid()
    ensures r.Ok? <==> IsBoundary(m.store.ends, after) && maxOps != Some(0)
    ensures r.Ok? ==> r.value.before == after && Describes(r.value, m.replicaId, m.store.order, m.store.ends, maxOps)
  {
    var read := ReadReplicaStoreDelta(m, after, maxOps);
    if read.ValueError? { return ValueError; }
    r := Ok(ReplicaManifest(m.replicaId, after, read.value.cursor, EntriesOf(read.value.ops)));
  }

  // ---------------------------------------------------------------- the payload of a manifest

  function Wanted(ops: seq<Op>, ids: set<Id>): seq<Op> {
    if ops == [] then []
    else Wanted(ops[..|ops| - 1], ids) + if ops[|ops| - 1].opId in ids then [ops[|ops| - 1]] else []
  }

  lemma {:induction false} WantedMembers(ops: seq<Op>, ids: set<Id>)
    ensures forall op :: op in Wanted(ops, ids) <==> op in ops && op.opId in ids
  {
    if ops != [] { WantedMembers(ops[..|ops| - 1], ids); }
  }

  lemma {:induction false} SumAppend(sizes: seq<int>, n: int)
    ensures Sum(sizes + [n]) == Sum(sizes) + n
  {
    assert (sizes + [n])[..|sizes|] == sizes;
  }

  /** The loop over batches: each keeps its wanted operations, and empty ones are dropped. */
  method SelectBatches(batches: seq<seq<Op>>, ids: set<Id>) returns (ops: seq<Op>, sizes: seq<int>)
    ensures PositiveSizes(sizes) && Sum(sizes) == |ops|
    ensures forall op :: op in ops <==> op.opId in ids && exists i :: 0 <= i < |batches| && op in batches[i]
  {
    ops, sizes := [], [];
    for i := 0 to |batches|
      invariant PositiveSizes(sizes) && Sum(sizes) == |ops|
      invariant forall op :: op in ops <==> op.opId in ids && exists j :: 0 <= j < i && op in batches[j]
    {
      var selected := Wanted(batches[i], ids);
      WantedMembers(batches[i], ids);
      if selected != [] {
        SumAppend(sizes, |selected|);
        ops, sizes := ops + selected, sizes + [|selected|];
      }
    }
  }

  lemma {:induction false} FlattenMembers(bs: seq<seq<Op>>)
    ensures forall op :: op in Flatten(bs) <==> exists i :: 0 <= i < |bs| && op in bs[i]
  {
    if bs != [] { FlattenMembers(bs[..|bs| - 1]); }
  }

  /** The manifest's page is still there: the program's check at the second read cannot fail. */
  lemma PageStillThere(m: ReplicaManifest, sender: Name, order: seq<Op>, ends: seq<nat>, limit: Option<nat>,
                       order': seq<Op>, ends': seq<nat>, again: nat)
    requires Describes(m, sender, order, ends, limit) && m.entries != []
    requires Batched(ends, |order|) && Batched(ends', |order'|) && order <= order' && ends <= ends'
    ensures IsBoundary(ends', m.before)
    ensures IsPage(ends', |order'|, m.before, Some(|m.entries|), again) ==>
              again == m.after && order'[m.before..again] == order[m.before..m.after]
  {
    ReadAgain(ends, |order|, ends', |order'|, m.before, limit, m.after, again);
    BoundaryLater(ends, ends', m.before);
    assert |m.entries| == m.after - m.before;
  }

  /** `_export_manifest_delta`: the operations asked for, batch by batch. Between the manifest and
      this read the sender may have committed more. */
  method ExportManifestDelta(m: Memory, manifest: ReplicaManifest, ids: set<Id>,
                             ghost order: seq<Op>, ghost ends: seq<nat>, ghost limit: Option<nat>)
    returns (r: Result<ReplicaDelta>)
    requires m.store.Valid() && Batched(ends, |order|)
    requires Describes(manifest, m.replicaId, order, ends, limit) && Later(order, ends, m.store.order, m.store.ends)
    ensures r.Ok? && WellFormed(r.value)
    ensures r.value.sender == m.replicaId && r.value.before == manifest.before && r.value.after == manifest.after
    ensures forall op :: op in r.value.ops <==> op in order[manifest.before..manifest.after] && op.opId in ids
  {
    if manifest.sender != m.replicaId { return ValueError; }
    if manifest.entries == [] {
      assert order[manifest.before..manifest.after] == [];
      return Ok(ReplicaDelta(m.replicaId, manifest.before, manifest.after, [], []));
    }
    forall again { PageStillThere(manifest, m.replicaId, order, ends, limit, m.store.order, m.store.ends, again); }
    var read := ReadReplicaStoreDelta(m, manifest.before, Some(|manifest.entries|));
    if read.ValueError? { return ValueError; }
    if read.value.cursor != manifest.after || EntriesOf(read.value.ops) != manifest.entries { return ValueError; }
    PageSizesCover(m.store.ends, |m.store.order|, manifest.before, read.value.cursor, read.value.sizes);
    BatchesFlatten(read.value.ops, read.value.sizes);
    FlattenMembers(Batches(read.value.ops, read.value.sizes));
    var ops, sizes := SelectBatches(Batches(read.value.ops, read.value.sizes), ids);
    r := Ok(ReplicaDelta(m.replicaId, manifest.before, manifest.after, ops, sizes));
  }

  // ---------------------------------------------------------------- applying

  lemma BatchInside(before: set<Op>, batches: seq<seq<Op>>, i: nat)
    requires i < |batches|
    ensures Elements(Flatten(batches[..i + 1])) == Elements(Flatten(batches[..i])) + Elements(batches[i])
    ensures before + Elements(Flatten(batches[..i + 1])) <= before + Elements(Flatten(batches))
  {
    assert batches[..i + 1][..i] == batches[..i];
    ElementsConcat(Flatten(batches[..i]), batches[i]);
    FlattenGrows(batches, i + 1);
  }

  lemma {:induction false} FlattenGrows(batches: seq<seq<Op>>, i: nat)
    requires i <= |batches|
    ensures Elements(Flatten(batches[..i])) <= Elements(Flatten(batches))
    decreases |batches| - i
  {
    if i < |batches| {
      assert batches[..i + 1][..i] == batches[..i];
      ElementsConcat(Flatten(batches[..i]), batches[i]);
      FlattenGrows(batches, i + 1);
    } else {
      assert batches[..i] == batches;
    }
  }

  /** `for batch in delta.batches`: whole batches, until one collides. */
  method AppendBatches(m: Memory, batches: seq<seq<Op>>) returns (ok: bool)
    requires m.Valid()
    modifies m.store`order, m.store`ends, m.store.log
    ensures m.Valid() && Stays(old(m.Seen()), m.Seen())
    ensures ok <==> UniqueOps(old(m.store.Contents()) + Elements(Flatten(batches)))
    ensures old(m.store.Contents()) <= m.store.Contents() <= old(m.store.Contents()) + Elements(Flatten(batches))
    ensures ok ==> m.store.Contents() == old(m.store.Contents()) + Elements(Flatten(batches))
  {
    hide Memory.Valid;
    ghost var before := m.store.Contents();
    m.StoreOfValid();
    KeyedValues(m.store.log.ops);
    for i := 0 to |batches|
      invariant m.Valid() && UniqueOps(m.store.Contents()) && Stays(old(m.Seen()), m.Seen())
      invariant m.store.Contents() == before + Elements(Flatten(batches[..i]))
    {
      BatchInside(before, batches, i);
      var added := m.CommitBatch(batches[i]);
      if added.ValueError? {
        NotUniqueMore(before + Elements(Flatten(batches[..i])) + Elements(batches[i]), before + Elements(Flatten(batches)));
        return false;
      }
      m.StoreOfValid();
      KeyedValues(m.store.log.ops);
    }
    assert batches[..|batches|] == batches;
    ok := true;
  }

  lemma NotUniqueMore(small: set<Op>, large: set<Op>)
    requires small <= large && !UniqueOps(small)
    ensures !UniqueOps(large)
  {
  }

  datatype Report = Report(peer: Name, before: nat, after: nat, transferred: seq<Op>)

  /** The writes of `apply_replica_delta`, and the materialization that follows them. */
  method WriteDelta(m: Memory, d: ReplicaDelta, arrivals: seq<Op>) returns (ok: bool)
    requires m.Valid() && m.Readable() && WellFormed(d)
    modifies m`token, m`state, m`cursor, m`materializedRegistry, m`materializedRevision, m`history, m`sinceCheckpoint,
             m`cachedRules, m`origin, m.store`order, m.store`ends, m.store`checkpoint, m.store`written, m.store.log
    ensures m.Valid() && m.Readable() && Stays(old(m.Seen()), m.Seen())
    ensures old(m.store.Contents()) <= m.store.Contents()
    ensures ok <==> UniqueOps(old(m.store.Contents()) + Elements(d.ops)) && (d.ops != [] ==> CollisionFree(m.store.Contents()))
    ensures ok ==> Elements(d.ops) <= m.store.Contents()
  {
    hide Memory.Valid;
    hide CollisionFree;
    hide StateOf;
    hide Memory.UpToDate;
    hide Memory.Fresh;
    hide UniqueOps;
    hide Checkpoint.SameCheckpoint;
    BatchesFlatten(d.ops, d.sizes);
    ghost var before := m.Seen();
    ok := AppendBatches(m, Batches(d.ops, d.sizes));
    if !ok { return; }
    ghost var mid, contents := m.Seen(), m.store.Contents();
    if d.ops != [] {
      var read := m.MaterializeCanonicalIncrementally(arrivals);
      StaysCompose(before, mid, m.Seen());
      ArrivedGrows(contents, arrivals, m.store.Contents());
      ok := read.Ok?;
    }
  }

  lemma ArrivedGrows(before: set<Op>, arrivals: seq<Op>, after: set<Op>)
    requires Arrived(before, arrivals, after)
    ensures before <= after
  {
  }

  /** `apply_replica_delta`: everything is written and materialized before progress is saved, so a
      failure leaves progress behind, never ahead. */
  method ApplyReplicaDelta(m: Memory, d: ReplicaDelta, arrivals: seq<Op>) returns (r: Result<Report>)
    requires m.Valid() && m.Readable() && WellFormed(d)
    modifies m`token, m`state, m`cursor, m`materializedRegistry, m`materializedRevision, m`history, m`sinceCheckpoint,
             m`cachedRules, m`origin, m.store`order, m.store`ends, m.store`checkpoint, m.store`written, m.store`progress, m.store.log
    ensures m.Valid() && m.Readable() && Stays(old(m.Seen()), m.Seen())
    ensures old(m.store.Contents()) <= m.store.Contents()
    ensures r.Ok? <==> d.sender != m.replicaId && UniqueOps(old(m.store.Contents()) + Elements(d.ops))
                       && (d.ops != [] ==> CollisionFree(m.store.Contents()))
    ensures r.Ok? ==> Elements(d.ops) <= m.store.Contents()
                      && m.store.progress == old(m.store.progress)[d.sender := m.store.ProgressOf(d.sender)]
                      && Advances(old(m.store.ProgressOf(d.sender)), d.before, d.after, m.store.ProgressOf(d.sender))
                      && (d.before < d.after ==> Canonical(m.store.ProgressOf(d.sender)))
                      && (d.before == d.after ==> m.store.ProgressOf(d.sender) == old(m.store.ProgressOf(d.sender)))
    ensures r.ValueError? ==> m.store.progress == old(m.store.progress)
  {
    hide Memory.Valid;
    hide CollisionFree;
    hide UniqueOps;
    hide Checkpoint.SameCheckpoint;
    if d.sender == m.replicaId { return ValueError; }
    m.StoreOfValid();
    var progress := m.store.LoadReplicaProgress(d.sender);
    var ok := WriteDelta(m, d, arrivals);
    if !ok { return ValueError; }
    var updated := AdvanceReplicaProgress(progress, d.before, d.after);
    m.SaveProgress(updated.value);
    r := Ok(Report(d.sender, progress.cursor, updated.value.cursor, d.ops));
  }

  // ---------------------------------------------------------------- pulling

  function EntryIds(entries: seq<(Id, Digest)>): seq<Id> { seq(|entries|, i requires 0 <= i < |entries| => entries[i].0) }

  ghost predicate SplitOne(op: Op, unknown: set<Id>, contents: set<Op>) {
    (op.opId in unknown <==> !HoldsId(contents, op.opId)) && (op.opId !in unknown ==> op in contents)
  }

  /** The page's operations are unknown to the receiver, or held with the same payload. */
  ghost predicate Split(page: seq<Op>, unknown: set<Id>, contents: set<Op>) {
    forall j :: 0 <= j < |page| ==> SplitOne(page[j], unknown, contents)
  }

  /** The loop over manifest entries: collects unknown identifiers, raises on a digest that differs. */
  method CompareManifest(m: Memory, entries: seq<(Id, Digest)>, ghost page: seq<Op>) returns (r: Result<set<Id>>)
    requires m.store.Valid() && entries == EntriesOf(page)
    ensures r.Ok? ==> Split(page, r.value, m.store.Contents())
    ensures r.ValueError? ==> !UniqueOps(m.store.Contents() + Elements(page))
  {
    var ids := EntryIds(entries);
    var found := m.store.FindOps(ids);
    var unknown: set<Id> := {};
    for i := 0 to |entries|
      invariant forall j :: 0 <= j < i && ids[j] in found ==> page[j] in m.store.Contents()
      invariant forall id :: id in unknown ==> id !in found
      invariant forall j :: 0 <= j < i && ids[j] !in found ==> ids[j] in unknown
    {
      if ids[i] !in found {
        unknown := unknown + {ids[i]};
      } else if DigestOf(found[ids[i]]) != entries[i].1 {
        assert found[ids[i]] in m.store.Contents() + Elements(page) && page[i] in m.store.Contents() + Elements(page);
        return ValueError;
      }
    }
    forall j | 0 <= j < |page| ensures SplitOne(page[j], unknown, m.store.Contents()) {
      assert ids[j] == page[j].opId;
      assert ids[j] in found <==> HoldsId(m.store.Contents(), ids[j]);
    }
    r := Ok(unknown);
  }

  lemma SplitCovers(page: seq<Op>, unknown: set<Id>, contents: set<Op>, ops: seq<Op>)
    requires Split(page, unknown, contents)
    requires forall op :: op in ops <==> op in page && op.opId in unknown
    ensures contents + Elements(ops) == contents + Elements(page)
    ensures Elements(ops) == Elements(page) - contents
  {
    forall op ensures op in Elements(ops) <==> op in Elements(page) && op !in contents {
      if op in page {
        var j :| 0 <= j < |page| && page[j] == op;
        assert SplitOne(page[j], unknown, contents);
      }
    }
  }

  /** What a pull that goes through does to the receiver. */
  ghost predicate Pulled(order: seq<Op>, ends: seq<nat>, maxOps: Option<nat>, contents: set<Op>, p: Progress, after: nat,
                         contents': set<Op>, p': Progress)
  {
    && p.cursor <= after <= |order| && IsPage(ends, |order|, p.cursor, maxOps, after)
    && contents + Elements(order[p.cursor..after]) <= contents'
    && Advances(p, p.cursor, after, p')
    && (if p.cursor < after then Canonical(p') else p' == p)
  }

  /** Whether a pull can go through: a cursor on a batch end, a positive limit, no collision. */
  ghost predicate CanPull(order: seq<Op>, ends: seq<nat>, p: Progress, maxOps: Option<nat>, contents: set<Op>) {
    IsBoundary(ends, p.cursor) && maxOps != Some(0) && UniqueOps(contents + Elements(order))
  }

  /** What a pull carries: the page from the cursor, without what the receiver already holds. */
  ghost predicate Carries(d: ReplicaDelta, order: seq<Op>, ends: seq<nat>, p: Progress, maxOps: Option<nat>, contents: set<Op>) {
    && WellFormed(d) && d.sender == p.peer && d.before == p.cursor && d.after <= |order|
    && IsPage(ends, |order|, p.cursor, maxOps, d.after)
    && Elements(d.ops) == Elements(order[p.cursor..d.after]) - contents
  }

  /** The exchange of `sync_from`: a manifest, then only the payloads the receiver lacks; `meanwhile`
      is what the sender commits between the two reads. */
  method PullPayload(m: Memory, peer: Memory, p: Progress, maxOps: Option<nat>, meanwhile: seq<Op>)
    returns (r: Result<ReplicaDelta>)
    requires m.Valid() && peer.Valid() && m != peer && m.store != peer.store && m.store.log != peer.store.log
    requires p.peer == peer.replicaId
    modifies peer.store`order, peer.store`ends, peer.store.log
    ensures m.Valid() && peer.Valid() && Later(old(peer.store.order), old(peer.store.ends), peer.store.order, peer.store.ends)
    ensures r.Ok? ==> Carries(r.value, old(peer.store.order), old(peer.store.ends), p, maxOps, m.store.Contents())
    ensures r.ValueError? ==> !CanPull(old(peer.store.order), old(peer.store.ends), p, maxOps, m.store.Contents())
  {
    hide Memory.Valid;
    m.StoreOfValid();
    peer.StoreOfValid();
    ghost var order, ends, contents := peer.store.order, peer.store.ends, m.store.Contents();
    hide Carries;
    hide CanPull;
    hide Asked;
    var asked := AskManifest(m, peer, p, maxOps);
    if asked.ValueError? { return ValueError; }
    var manifest, unknown := asked.value.0, asked.value.1;
    AskedParts(asked.value, peer.replicaId, order, ends, p, maxOps, contents);
    var _ := peer.CommitBatch(meanwhile);
    peer.StoreOfValid();
    r := ExportManifestDelta(peer, manifest, unknown, order, ends, maxOps);
    CarriesPage(r.value, asked.value, order, ends, p, maxOps, contents);
  }

  /** The manifest read from the sender, and the identifiers in it the receiver lacks. */
  ghost predicate Asked(asked: (ReplicaManifest, set<Id>), sender: Name, order: seq<Op>, ends: seq<nat>, p: Progress,
                        maxOps: Option<nat>, contents: set<Op>)
  {
    && Describes(asked.0, sender, order, ends, maxOps) && asked.0.before == p.cursor
    && Split(order[p.cursor..asked.0.after], asked.1, contents)
  }

  /** The first half of the exchange, before the sender may write again. */
  method AskManifest(m: Memory, peer: Memory, p: Progress, maxOps: Option<nat>) returns (r: Result<(ReplicaManifest, set<Id>)>)
    requires m.store.Valid() && peer.store.Valid()
    ensures r.Ok? ==> Asked(r.value, peer.replicaId, peer.store.order, peer.store.ends, p, maxOps, m.store.Contents())
    ensures r.ValueError? ==> !CanPull(peer.store.order, peer.store.ends, p, maxOps, m.store.Contents())
  {
    ghost var order, ends, contents := peer.store.order, peer.store.ends, m.store.Contents();
    hide CanPull;
    hide Split;
    hide UniqueOps;
    var manifest := ExportReplicaManifest(peer, p.cursor, maxOps);
    if manifest.ValueError? {
      NoPage(order, ends, p, maxOps, contents);
      return ValueError;
    }
    ghost var page := order[p.cursor..manifest.value.after];
    var unknown := CompareManifest(m, manifest.value.entries, page);
    if unknown.ValueError? {
      PageCollides(order, ends, p, maxOps, contents, manifest.value.after);
      return ValueError;
    }
    r := Ok((manifest.value, unknown.value));
  }

  lemma AskedParts(asked: (ReplicaManifest, set<Id>), sender: Name, order: seq<Op>, ends: seq<nat>, p: Progress,
                   maxOps: Option<nat>, contents: set<Op>)
    requires Asked(asked, sender, order, ends, p, maxOps, contents)
    ensures Describes(asked.0, sender, order, ends, maxOps)
  {
  }

  lemma NoPage(order: seq<Op>, ends: seq<nat>, p: Progress, maxOps: Option<nat>, contents: set<Op>)
    requires !(IsBoundary(ends, p.cursor) && maxOps != Some(0))
    ensures !CanPull(order, ends, p, maxOps, contents)
  {
  }

  lemma PageCollides(order: seq<Op>, ends: seq<nat>, p: Progress, maxOps: Option<nat>, contents: set<Op>, after: nat)
    requires p.cursor <= after <= |order| && !UniqueOps(contents + Elements(order[p.cursor..after]))
    ensures !CanPull(order, ends, p, maxOps, contents)
  {
    PageInOrder(order, p.cursor, after);
    NotUniqueMore(contents + Elements(order[p.cursor..after]), contents + Elements(order));
  }

  lemma CarriesPage(d: ReplicaDelta, asked: (ReplicaManifest, set<Id>), order: seq<Op>, ends: seq<nat>, p: Progress,
                    maxOps: Option<nat>, contents: set<Op>)
    requires Asked(asked, p.peer, order, ends, p, maxOps, contents) && WellFormed(d)
    requires d.sender == p.peer && d.before == asked.0.before && d.after == asked.0.after
    requires forall op :: op in d.ops <==> op in order[asked.0.before..asked.0.after] && op.opId in asked.1
    ensures Carries(d, order, ends, p, maxOps, contents)
  {
    hide Split;
    SplitCovers(order[p.cursor..asked.0.after], asked.1, contents, d.ops);
  }

  /** `sync_from`: `arrivals` is what others write here during a rebuild. When nothing collides the
      pull goes through; whenever it goes through, the whole page is held and counted as received. */
  method SyncFrom(m: Memory, peer: Memory, maxOps: Option<nat>, meanwhile: seq<Op>, arrivals: seq<Op>)
    returns (r: Result<Report>, ghost after: nat)
    requires m.Valid() && m.Readable() && peer.Valid() && m != peer && m.store != peer.store && m.store.log != peer.store.log
    modifies m`token, m`state, m`cursor, m`materializedRegistry, m`materializedRevision, m`history, m`sinceCheckpoint,
             m`cachedRules, m`origin, m.store`order, m.store`ends, m.store`checkpoint, m.store`written, m.store`progress, m.store.log,
             peer.store`order, peer.store`ends, peer.store.log
    ensures m.Valid() && peer.Valid() && Later(old(peer.store.order), old(peer.store.ends), peer.store.order, peer.store.ends)
    ensures m.Readable() && Stays(old(m.Seen()), m.Seen())
    ensures old(m.store.Contents()) <= m.store.Contents()
    ensures r.ValueError? ==> m.store.progress == old(m.store.progress)
    ensures r.Ok? ==>
              Pulled(old(peer.store.order), old(peer.store.ends), maxOps, old(m.store.Contents()),
                     old(m.store.ProgressOf(peer.replicaId)), after, m.store.Contents(), m.store.ProgressOf(peer.replicaId))
    ensures r.ValueError? ==>
              peer.replicaId == m.replicaId || !CollisionFree(m.store.Contents())
              || !CanPull(old(peer.store.order), old(peer.store.ends), old(m.store.ProgressOf(peer.replicaId)), maxOps,
                          old(m.store.Contents()))
  {
    hide Memory.Valid;
    hide CollisionFree;
    hide Checkpoint.SameCheckpoint;
    after := 0;
    if peer.replicaId == m.replicaId { return ValueError, 0; }
    m.StoreOfValid();
    ghost var order, contents := peer.store.order, m.store.Contents();
    var progress := m.store.LoadReplicaProgress(peer.replicaId);
    var delta := PullPayload(m, peer, progress, maxOps, meanwhile);
    if delta.ValueError? { return ValueError, 0; }
    after := delta.value.after;
    PageInOrder(order, progress.cursor, after);
    r := ApplyReplicaDelta(m, delta.value, arrivals);
    if r.ValueError? { NotCarried(contents, delta.value.ops, order, after, progress.cursor); }
  }

  lemma NotCarried(contents: set<Op>, ops: seq<Op>, order: seq<Op>, after: nat, cursor: nat)
    requires cursor <= after <= |order| && Elements(ops) == Elements(order[cursor..after]) - contents
    ensures UniqueOps(contents + Elements(order)) ==> UniqueOps(contents + Elements(ops))
  {
    PageInOrder(order, cursor, after);
  }

  lemma PageInOrder(order: seq<Op>, a: nat, b: nat)
    requires a <= b <= |order|
    ensures Elements(order[a..b]) <= Elements(order)
  {
  }

  // ---------------------------------------------------------------- the methods are the system's steps

  /** The world the transition system sees, when the receiver's progress and log are these. */
  lemma SyncFromIsSync(w: World, limit: Option<nat>, after: nat, contents': set<Op>, p': Progress)
    requires Inv(w) && Pulled(w.order, w.ends, limit, w.contents, w.progress, after, contents', p')
    ensures exists synced: World ::
              Syncs(w, synced, limit) && synced.progress == p' && Writes(synced, synced.(contents := contents'))
  {
    var page := Elements(w.order[w.progress.cursor..after]);
    var x := Wire(w.progress.cursor, after, page - w.contents);
    var mid := w.(wires := w.wires + {x});
    assert Pulls(w, mid, limit, after);
    var synced := mid.(contents := mid.contents + x.ops, progress := p');
    assert Delivers(mid, synced, x);
    assert Syncs(w, synced, limit);
    assert synced.contents <= contents';
  }

  /** What a delta leaves in the receiver when its application goes through, late or repeated. */
  lemma ApplyIsDelivery(w: World, d: ReplicaDelta, contents': set<Op>, p': Progress)
    requires Inv(w) && Wire(d.before, d.after, Elements(d.ops)) in w.wires
    requires w.contents + Elements(d.ops) <= contents'
    requires Advances(w.progress, d.before, d.after, p') && (if d.before < d.after then Canonical(p') else p' == w.progress)
    ensures Inv(w.(contents := contents', progress := p'))
  {
    var x := Wire(d.before, d.after, Elements(d.ops));
    var delivered := w.(contents := w.contents + x.ops, progress := p');
    assert Delivers(w, delivered, x);
    DeliverKeeps(w, delivered, x);
    WriteKeeps(delivered, delivered.(contents := contents'));
    assert delivered.(contents := contents') == w.(contents := contents', progress := p');
  }
}
