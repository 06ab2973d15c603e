/** One sender and one receiver as a transition system: batch commits, exports that may arrive
    late, twice or never, pulls, deliveries, and writes that fail before progress is saved. */
module Sync {
  import opened Basics
  import opened Model
  import opened Paging
  import opened Replica

  /** A delta in flight: the positions it is for, and the operations it carries. */
  datatype Wire = Wire(before: nat, after: nat, ops: set<Op>)

  datatype World = World(
    order: seq<Op>, ends: seq<nat>, contents: set<Op>, progress: Progress, wires: set<Wire>)

  // ---------------------------------------------------------------- what must hold

  /** Each sender position the receiver counts as received holds an operation the receiver has. */
  ghost predicate SafeProgress(p: Progress, order: seq<Op>, contents: set<Op>) {
    forall n: nat :: Received(p, n) ==> n < |order| && order[n] in contents
  }

  /** Each position the delta is for is carried by it, or was already held by the receiver. */
  ghost predicate CoversPositions(before: nat, after: nat, ops: set<Op>, order: seq<Op>, contents: set<Op>) {
    before <= after <= |order| && forall n: nat :: before <= n < after ==> order[n] in ops + contents
  }

  ghost predicate OnBoundaries(p: Progress, ends: seq<nat>) {
    && IsBoundary(ends, p.cursor)
    && forall i :: 0 <= i < |p.pending| ==> IsBoundary(ends, p.pending[i].from) && IsBoundary(ends, p.pending[i].until)
  }

  ghost predicate WireSound(x: Wire, w: World) {
    && CoversPositions(x.before, x.after, x.ops, w.order, w.contents)
    && IsBoundary(w.ends, x.before) && IsBoundary(w.ends, x.after)
  }

  ghost predicate Inv(w: World) {
    && Batched(w.ends, |w.order|)
    && SafeProgress(w.progress, w.order, w.contents)
    && Canonical(w.progress) && OnBoundaries(w.progress, w.ends)
    && forall x :: x in w.wires ==> WireSound(x, w)
  }

  // ---------------------------------------------------------------- steps

  /** The sender commits batches. */
  ghost predicate Commits(w: World, w': World) {
    && w.order <= w'.order && w.ends <= w'.ends && Batched(w'.ends, |w'.order|)
    && w' == w.(order := w'.order, ends := w'.ends)
  }

  /** The receiver's log grows without progress: local writes, other peers, or a delta whose
      application failed after some of its batches. */
  ghost predicate Writes(w: World, w': World) {
    w.contents <= w'.contents && w' == w.(contents := w'.contents)
  }

  /** The sender exports a page from any batch boundary. */
  ghost predicate Exports(w: World, w': World, cursor: nat, limit: Option<nat>, after: nat) {
    && IsBoundary(w.ends, cursor) && IsPage(w.ends, |w.order|, cursor, limit, after)
    && w' == w.(wires := w.wires + {Wire(cursor, after, Elements(w.order[cursor..after]))})
  }

  /** The exchange of `sync_from`: a page from the receiver's cursor, without the operations the
      receiver already holds with the same payload. */
  ghost predicate Pulls(w: World, w': World, limit: Option<nat>, after: nat) {
    && IsBoundary(w.ends, w.progress.cursor) && IsPage(w.ends, |w.order|, w.progress.cursor, limit, after)
    && w' == w.(wires := w.wires + {Wire(w.progress.cursor, after, Elements(w.order[w.progress.cursor..after]) - w.contents)})
  }

  /** A delta in flight is applied and progress is saved; it may arrive again later. */
  ghost predicate Delivers(w: World, w': World, x: Wire) {
    && x in w.wires
    && Advances(w.progress, x.before, x.after, w'.progress)
    && (if x.before < x.after then Canonical(w'.progress) else w'.progress == w.progress)
    && w' == w.(contents := w.contents + x.ops, progress := w'.progress)
  }

  /** `reset_replica_progress` */
  ghost predicate Resets(w: World, w': World) {
    w' == w.(progress := Progress(w.progress.peer, 0, []))
  }

  ghost predicate Next(w: World, w': World) {
    || Commits(w, w') || Writes(w, w') || Resets(w, w')
    || (exists cursor: nat, limit: Option<nat>, after: nat :: Exports(w, w', cursor, limit, after))
    || (exists limit: Option<nat>, after: nat :: Pulls(w, w', limit, after))
    || (exists x :: Delivers(w, w', x))
  }

  // ---------------------------------------------------------------- each step keeps the invariant

  lemma BoundariesLater(p: Progress, ends: seq<nat>, ends': seq<nat>)
    requires ends <= ends'
    ensures OnBoundaries(p, ends) ==> OnBoundaries(p, ends')
    ensures forall c: nat :: IsBoundary(ends, c) ==> IsBoundary(ends', c)
  {
    forall c: nat | IsBoundary(ends, c) ensures IsBoundary(ends', c) {
      if c != 0 {
        var i :| 0 <= i < |ends| && ends[i] == c;
        assert ends'[i] == c;
      }
    }
  }

  lemma CommitKeeps(w: World, w': World)
    requires Inv(w) && Commits(w, w')
    ensures Inv(w')
  {
    BoundariesLater(w.progress, w.ends, w'.ends);
    forall x | x in w'.wires ensures WireSound(x, w') {
      assert WireSound(x, w);
    }
  }

  lemma WriteKeeps(w: World, w': World)
    requires Inv(w) && Writes(w, w')
    ensures Inv(w')
  {
    forall x | x in w'.wires ensures WireSound(x, w') {
      assert WireSound(x, w);
    }
  }

  lemma PageWire(w: World, cursor: nat, limit: Option<nat>, after: nat)
    requires Inv(w) && IsBoundary(w.ends, cursor) && IsPage(w.ends, |w.order|, cursor, limit, after)
    ensures WireSound(Wire(cursor, after, Elements(w.order[cursor..after])), w)
    ensures WireSound(Wire(cursor, after, Elements(w.order[cursor..after]) - w.contents), w)
  {
    var page := w.order[cursor..after];
    forall n: nat | cursor <= n < after ensures w.order[n] in Elements(page) {
      assert page[n - cursor] == w.order[n];
    }
  }

  lemma WireAdded(w: World, w': World, x: Wire)
    requires Inv(w) && w' == w.(wires := w.wires + {x}) && WireSound(x, w)
    ensures Inv(w')
  {
    forall y | y in w'.wires ensures WireSound(y, w') {
      assert WireSound(y, w);
    }
  }

  /** A position where received meets not received is an end of some range, hence a batch end. */
  lemma EdgeIsBoundary(p: Progress, ends: seq<nat>, before: nat, after: nat, n: nat)
    requires OnBoundaries(p, ends) && IsBoundary(ends, before) && IsBoundary(ends, after) && n > 0
    requires (Received(p, n - 1) || before <= n - 1 < after) != (Received(p, n) || before <= n < after)
    ensures IsBoundary(ends, n)
  {
    if Covers(p.pending, n) {
      var i :| 0 <= i < |p.pending| && InSpan(p.pending[i], n);
      assert InSpan(p.pending[i], n - 1) || n == p.pending[i].from;
    }
    if Covers(p.pending, n - 1) {
      var i :| 0 <= i < |p.pending| && InSpan(p.pending[i], n - 1);
      assert InSpan(p.pending[i], n) || n == p.pending[i].until;
    }
  }

  /** Progress saved after a delta again lies on batch ends only. */
  lemma AdvanceOnBoundaries(p: Progress, q: Progress, ends: seq<nat>, before: nat, after: nat)
    requires OnBoundaries(p, ends) && IsBoundary(ends, before) && IsBoundary(ends, after)
    requires Advances(p, before, after, q) && Canonical(q)
    ensures OnBoundaries(q, ends)
  {
    CursorIsLeast(q);
    if q.cursor > 0 { EdgeIsBoundary(p, ends, before, after, q.cursor); }
    forall i | 0 <= i < |q.pending| ensures IsBoundary(ends, q.pending[i].from) && IsBoundary(ends, q.pending[i].until) {
      RangeEdges(q, i);
      EdgeIsBoundary(p, ends, before, after, q.pending[i].from);
      EdgeIsBoundary(p, ends, before, after, q.pending[i].until);
    }
  }

  lemma RangeEdges(q: Progress, i: nat)
    requires Canonical(q) && i < |q.pending|
    ensures q.pending[i].from > 0
    ensures !Received(q, q.pending[i].from - 1) && Received(q, q.pending[i].from)
    ensures Received(q, q.pending[i].until - 1) && !Received(q, q.pending[i].until)
  {
    var s := q.pending[i];
    assert InSpan(s, s.from) && InSpan(s, s.until - 1);
  }

  lemma DeliverKeeps(w: World, w': World, x: Wire)
    requires Inv(w) && Delivers(w, w', x)
    ensures Inv(w')
  {
    assert WireSound(x, w);
    if x.before < x.after {
      AdvanceOnBoundaries(w.progress, w'.progress, w.ends, x.before, x.after);
    }
    forall y | y in w'.wires ensures WireSound(y, w') {
      assert WireSound(y, w);
    }
  }

  lemma StepKeeps(w: World, w': World)
    requires Inv(w) && Next(w, w')
    ensures Inv(w')
  {
    if Commits(w, w') {
      CommitKeeps(w, w');
    } else if Writes(w, w') {
      WriteKeeps(w, w');
    } else if Resets(w, w') {
      forall x | x in w'.wires ensures WireSound(x, w') { assert WireSound(x, w); }
    } else if exists cursor: nat, limit: Option<nat>, after: nat :: Exports(w, w', cursor, limit, after) {
      var cursor: nat, limit: Option<nat>, after: nat :| Exports(w, w', cursor, limit, after);
      PageWire(w, cursor, limit, after);
      WireAdded(w, w', Wire(cursor, after, Elements(w.order[cursor..after])));
    } else if exists limit: Option<nat>, after: nat :: Pulls(w, w', limit, after) {
      var limit: Option<nat>, after: nat :| Pulls(w, w', limit, after);
      PageWire(w, w.progress.cursor, limit, after);
      WireAdded(w, w', Wire(w.progress.cursor, after, Elements(w.order[w.progress.cursor..after]) - w.contents));
    } else {
      var x :| Delivers(w, w', x);
      DeliverKeeps(w, w', x);
    }
  }

  // ---------------------------------------------------------------- whole runs

  ghost predicate Behavior(ws: seq<World>) {
    && ws != [] && Inv(ws[0])
    && forall i :: 0 < i < |ws| ==> Next(ws[i - 1], ws[i])
  }

  /** A receiver that has recorded nothing yet, beside any sender and any log of its own. */
  lemma FreshReceiver(order: seq<Op>, ends: seq<nat>, contents: set<Op>, peer: Name)
    requires Batched(ends, |order|)
    ensures Inv(World(order, ends, contents, Progress(peer, 0, []), {}))
  {
  }

  /** Safety over every run: whatever arrives, however late or often, each position counted as
      received holds an operation the receiver has, with the same payload, and progress always
      stands on batch ends. */
  lemma {:induction false} RunsAreSafe(ws: seq<World>)
    requires Behavior(ws)
    ensures forall i :: 0 <= i < |ws| ==> Inv(ws[i])
  {
    if |ws| > 1 {
      RunsAreSafe(ws[..|ws| - 1]);
      var k := |ws| - 1;
      assert ws[..k][k - 1] == ws[k - 1];
      StepKeeps(ws[k - 1], ws[k]);
      forall i | 0 <= i < |ws| ensures Inv(ws[i]) {
        if i < k { assert ws[..k][i] == ws[i]; }
      }
    }
  }

  // ---------------------------------------------------------------- convergence

  /** One whole `sync_from`: a pull, and the delivery of what was pulled. */
  ghost predicate Syncs(w: World, w': World, limit: Option<nat>) {
    exists mid: World, after: nat ::
      Pulls(w, mid, limit, after)
      && Delivers(mid, w', Wire(w.progress.cursor, after, Elements(w.order[w.progress.cursor..after]) - w.contents))
  }

  function Remaining(w: World): int { |w.order| - w.progress.cursor }

  /** With the sender stopped, a sync moves the cursor strictly closer to the end, if it is not there. */
  lemma SyncAdvances(w: World, w': World, limit: Option<nat>)
    requires Inv(w) && Syncs(w, w', limit) && limit != Some(0)
    ensures Inv(w') && w'.order == w.order && w'.ends == w.ends
    ensures 0 <= Remaining(w') <= Remaining(w) && (Remaining(w) > 0 ==> Remaining(w') < Remaining(w))
  {
    var mid: World, after: nat :| Pulls(w, mid, limit, after)
      && Delivers(mid, w', Wire(w.progress.cursor, after, Elements(w.order[w.progress.cursor..after]) - w.contents));
    StepKeeps(w, mid);
    StepKeeps(mid, w');
    PageBounds(w.ends, |w.order|, w.progress.cursor, limit, after, 0);
    CursorIsLeast(w'.progress);
    CursorIsLeast(w.progress);
    if w.progress.cursor < after {
      assert forall n: nat :: n < after ==> Received(w'.progress, n);
    }
    assert !Received(w'.progress, |w.order|);
  }

  /** One sync after another, with any writes on the receiver's side after each. */
  ghost predicate SyncRun(ws: seq<World>, limits: seq<Option<nat>>) {
    && |ws| == |limits| + 1
    && forall i :: 0 <= i < |limits| ==> SyncAt(ws, limits, i)
  }

  ghost predicate SyncAt(ws: seq<World>, limits: seq<Option<nat>>, i: nat)
    requires |ws| == |limits| + 1 && i < |limits|
  {
    limits[i] != Some(0) && exists synced: World :: Syncs(ws[i], synced, limits[i]) && Writes(synced, ws[i + 1])
  }

  /** After at most as many syncs as there are operations left, whatever the page sizes and whatever
      else the receiver writes meanwhile, the receiver holds everything the sender has. */
  lemma {:induction false} SyncsConverge(ws: seq<World>, limits: seq<Option<nat>>)
    requires SyncRun(ws, limits) && Inv(ws[0]) && |limits| >= Remaining(ws[0])
    ensures Remaining(ws[|limits|]) == 0
    ensures Elements(ws[0].order) <= ws[|limits|].contents
    decreases |limits|
  {
    CursorWithin(ws[0]);
    if limits == [] {
      EverythingHeld(ws[0]);
    } else {
      assert SyncAt(ws, limits, 0);
      var synced: World :| Syncs(ws[0], synced, limits[0]) && Writes(synced, ws[1]);
      SyncAdvances(ws[0], synced, limits[0]);
      WriteKeeps(synced, ws[1]);
      var later, rest := ws[1..], limits[1..];
      forall i | 0 <= i < |rest| ensures SyncAt(later, rest, i) { assert SyncAt(ws, limits, i + 1); }
      SyncsConverge(later, rest);
    }
  }

  lemma CursorWithin(w: World)
    requires Inv(w)
    ensures Remaining(w) >= 0
  {
    CursorIsLeast(w.progress);
    assert !Received(w.progress, |w.order|);
  }

  lemma EverythingHeld(w: World)
    requires Inv(w) && Remaining(w) == 0
    ensures Elements(w.order) <= w.contents
  {
    CursorIsLeast(w.progress);
    forall op | op in w.order ensures op in w.contents {
      var n :| 0 <= n < |w.order| && w.order[n] == op;
      assert Received(w.progress, n);
    }
  }
}
