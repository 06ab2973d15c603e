/** Receive progress for one peer's stream: a cursor and the received ranges beyond it. */
module Replica {
  import opened Basics
  import opened Model

  datatype Range = Range(from: nat, until: nat)

  /** The constructor refuses ranges that are empty or backwards. */
  type Span = r: Range | r.from < r.until witness Range(0, 1)

  datatype Progress = Progress(peer: Name, cursor: nat, pending: seq<Span>)

  function SpanRank(s: Span): Rank { Rank(s.from, s.until, 0) }

  ghost predicate InSpan(s: Span, n: nat) { s.from <= n < s.until }

  ghost predicate Covers(spans: seq<Span>, n: nat) { exists i :: 0 <= i < |spans| && InSpan(spans[i], n) }

  /** A position of the peer's stream has been received. */
  ghost predicate Received(p: Progress, n: nat) { n < p.cursor || Covers(p.pending, n) }

  ghost predicate Separated(spans: seq<Span>) {
    forall i, j :: 0 <= i < j < |spans| ==> spans[i].until < spans[j].from
  }

  /** Ranges lie strictly beyond the cursor and strictly apart. */
  ghost predicate Canonical(p: Progress) {
    Separated(p.pending) && forall i :: 0 <= i < |p.pending| ==> p.cursor < p.pending[i].from
  }

  // ---------------------------------------------------------------- what a canonical progress denotes

  lemma CursorIsLeast(p: Progress)
    requires Canonical(p)
    ensures !Received(p, p.cursor)
    ensures forall n: nat :: n < p.cursor ==> Received(p, n)
  {
  }

  /** The first range starts at the first received position beyond the cursor, and ends at the
      first position after that which is not received. */
  lemma FirstRange(p: Progress, q: Progress)
    requires Separated(p.pending) && Separated(q.pending)
    requires forall n: nat :: Covers(p.pending, n) <==> Covers(q.pending, n)
    requires p.pending != []
    ensures q.pending != [] && p.pending[0] == q.pending[0]
  {
    var a := p.pending[0];
    assert InSpan(a, a.from);
    assert Covers(q.pending, a.from);
    var b := q.pending[0];
    assert InSpan(b, b.from);
    assert Covers(p.pending, b.from);
    assert a.from == b.from;
    assert !Covers(p.pending, a.until);
    assert !Covers(q.pending, b.until);
    assert InSpan(b, a.until) <==> a.until < b.until;
    assert InSpan(a, b.until) <==> b.until < a.until;
  }

  lemma CoversTail(spans: seq<Span>, n: nat)
    requires Separated(spans) && spans != []
    ensures Covers(spans[1..], n) <==> Covers(spans, n) && !InSpan(spans[0], n)
  {
    if Covers(spans[1..], n) {
      var i :| 0 <= i < |spans[1..]| && InSpan(spans[1..][i], n);
      assert InSpan(spans[i + 1], n);
    }
    if Covers(spans, n) && !InSpan(spans[0], n) {
      var i :| 0 <= i < |spans| && InSpan(spans[i], n);
      assert InSpan(spans[1..][i - 1], n);
    }
  }

  /** Strictly separated ranges are determined by the positions they cover. */
  lemma {:induction false} SpansUnique(a: seq<Span>, b: seq<Span>)
    requires Separated(a) && Separated(b)
    requires forall n: nat :: Covers(a, n) <==> Covers(b, n)
    ensures a == b
  {
    if a != [] {
      FirstRange(Progress("", 0, a), Progress("", 0, b));
      forall n: nat ensures Covers(a[1..], n) <==> Covers(b[1..], n) {
        CoversTail(a, n);
        CoversTail(b, n);
      }
      SpansUnique(a[1..], b[1..]);
      assert a == [a[0]] + a[1..] && b == [b[0]] + b[1..];
    } else if b != [] {
      FirstRange(Progress("", 0, b), Progress("", 0, a));
    }
  }

  /** One set of received positions, one canonical progress. */
  lemma CanonicalUnique(p: Progress, q: Progress)
    requires Canonical(p) && Canonical(q) && p.peer == q.peer
    requires forall n: nat :: Received(p, n) <==> Received(q, n)
    ensures p == q
  {
    CursorIsLeast(p);
    CursorIsLeast(q);
    assert Received(p, p.cursor) <==> Received(q, p.cursor);
    assert Received(p, q.cursor) <==> Received(q, q.cursor);
    assert p.cursor == q.cursor;
    forall n: nat ensures Covers(p.pending, n) <==> Covers(q.pending, n) {
      assert Received(p, n) <==> Received(q, n);
    }
    SpansUnique(p.pending, q.pending);
  }

  // ---------------------------------------------------------------- advancing

  /** Receiving `[before, after)` adds exactly those positions. */
  ghost predicate Advances(p: Progress, before: nat, after: nat, q: Progress) {
    && q.peer == p.peer
    && forall n: nat :: Received(q, n) <==> Received(p, n) || before <= n < after
  }

  /** The loop joining ranges that overlap or touch, over ranges sorted by start. */
  method JoinRanges(spans: seq<Span>) returns (merged: seq<Span>)
    requires Sorted(spans, SpanRank)
    ensures Separated(merged)
    ensures forall n: nat :: Covers(merged, n) <==> Covers(spans, n)
  {
    merged := [];
    for i := 0 to |spans|
      invariant Separated(merged)
      invariant merged != [] ==> i > 0 && merged[|merged| - 1].from <= spans[i - 1].from
      invariant forall n: nat :: Covers(merged, n) <==> Covers(spans[..i], n)
    {
      assert i > 0 ==> !Below(SpanRank(spans[i]), SpanRank(spans[i - 1]));
      CoversNext(spans, i);
      if merged != [] && spans[i].from <= merged[|merged| - 1].until {
        var last := merged[|merged| - 1];
        var wider := Range(last.from, Max(last.until, spans[i].until));
        CoversLast(merged, wider, spans[i]);
        merged := merged[|merged| - 1 := wider];
      } else {
        CoversAppend(merged, spans[i]);
        merged := merged + [spans[i]];
      }
    }
    assert spans[..|spans|] == spans;
  }

  lemma CoversAppend(spans: seq<Span>, s: Span)
    ensures forall n: nat :: Covers(spans + [s], n) <==> Covers(spans, n) || InSpan(s, n)
  {
    forall n: nat ensures Covers(spans + [s], n) <==> Covers(spans, n) || InSpan(s, n) {
      if Covers(spans, n) {
        var i :| 0 <= i < |spans| && InSpan(spans[i], n);
        assert InSpan((spans + [s])[i], n);
      }
      if InSpan(s, n) { assert InSpan((spans + [s])[|spans|], n); }
    }
  }

  lemma CoversNext(spans: seq<Span>, i: nat)
    requires i < |spans|
    ensures forall n: nat :: Covers(spans[..i + 1], n) <==> Covers(spans[..i], n) || InSpan(spans[i], n)
  {
    assert spans[..i + 1] == spans[..i] + [spans[i]];
    CoversAppend(spans[..i], spans[i]);
  }

  lemma CoversLast(spans: seq<Span>, wider: Span, s: Span)
    requires spans != []
    requires var last := spans[|spans| - 1];
             wider.from == last.from && last.from <= s.from <= last.until && wider.until == Max(last.until, s.until)
    ensures forall n: nat :: Covers(spans[|spans| - 1 := wider], n) <==> Covers(spans, n) || InSpan(s, n)
  {
    var front, last := spans[..|spans| - 1], spans[|spans| - 1];
    assert spans == front + [last];
    assert spans[|spans| - 1 := wider] == front + [wider];
    CoversAppend(front, last);
    CoversAppend(front, wider);
  }

  /** The loop absorbing ranges the cursor has reached. */
  method AbsorbRanges(start: nat, merged: seq<Span>) returns (cursor: nat, pending: seq<Span>)
    requires Separated(merged)
    ensures cursor >= start && Separated(pending)
    ensures forall i :: 0 <= i < |pending| ==> cursor < pending[i].from
    ensures forall n: nat :: n < cursor || Covers(pending, n) <==> n < start || Covers(merged, n)
  {
    cursor, pending := start, [];
    for i := 0 to |merged|
      invariant cursor >= start && Separated(pending)
      invariant pending == [] ==> forall j :: i <= j < |merged| ==> i == 0 || merged[i - 1].until < merged[j].from
      invariant forall j, k :: 0 <= j < |pending| && i <= k < |merged| ==> pending[j].until < merged[k].from
      invariant forall j :: 0 <= j < |pending| ==> cursor < pending[j].from
      invariant forall n: nat :: n < cursor || Covers(pending, n) <==> n < start || Covers(merged[..i], n)
    {
      CoversNext(merged, i);
      if merged[i].from <= cursor {
        cursor := Max(cursor, merged[i].until);
      } else if merged[i].until > cursor {
        CoversAppend(pending, merged[i]);
        pending := pending + [merged[i]];
      }
    }
    assert merged[..|merged|] == merged;
  }

  lemma SortKeepsCover(spans: seq<Span>)
    ensures Sorted(SortBy(spans, SpanRank), SpanRank)
    ensures forall n: nat :: Covers(SortBy(spans, SpanRank), n) <==> Covers(spans, n)
  {
    var sorted := SortBy(spans, SpanRank);
    SortByProperties(spans, SpanRank);
    SameMultisetSameElements(spans, sorted);
    forall n: nat ensures Covers(sorted, n) <==> Covers(spans, n) {
      SameCover(spans, sorted, n);
      SameCover(sorted, spans, n);
    }
  }

  lemma SameCover(a: seq<Span>, b: seq<Span>, n: nat)
    requires Elements(a) == Elements(b)
    ensures Covers(a, n) ==> Covers(b, n)
  {
    if Covers(a, n) {
      var i :| 0 <= i < |a| && InSpan(a[i], n);
      assert a[i] in Elements(b);
      var j :| 0 <= j < |b| && b[j] == a[i];
      assert InSpan(b[j], n);
    }
  }

  /** `advance_replica_progress`: the progress of the union of everything received, in canonical
      form; an empty range changes nothing, a backwards one raises. */
  method AdvanceReplicaProgress(p: Progress, before: int, after: int) returns (r: Result<Progress>)
    ensures r.Ok? <==> 0 <= before <= after
    ensures r.Ok? && before == after ==> r.value == p
    ensures r.Ok? && before < after ==> Canonical(r.value)
    ensures r.Ok? ==> Advances(p, before, after, r.value) && p.cursor <= r.value.cursor
  {
    if before < 0 || after < before { return ValueError; }
    if before == after { return Ok(p); }
    var received: Span := Range(before, after);
    var ranges := p.pending + [received];
    CoversAppend(p.pending, received);
    SortKeepsCover(ranges);
    var merged := JoinRanges(SortBy(ranges, SpanRank));
    var cursor, pending := AbsorbRanges(p.cursor, merged);
    r := Ok(Progress(p.peer, cursor, pending));
  }

  // ---------------------------------------------------------------- whole runs

  ghost predicate RunStep(states: seq<Progress>, ranges: seq<Span>, i: nat)
    requires |states| == |ranges| + 1 && i < |ranges|
  {
    Canonical(states[i + 1]) && Advances(states[i], ranges[i].from, ranges[i].until, states[i + 1])
  }

  /** A run of updates: each state advances the one before it by one received range. */
  ghost predicate Run(states: seq<Progress>, ranges: seq<Span>) {
    && |states| == |ranges| + 1
    && Canonical(states[0])
    && forall i :: 0 <= i < |ranges| ==> RunStep(states, ranges, i)
  }

  lemma {:induction false} RunReceives(states: seq<Progress>, ranges: seq<Span>)
    requires Run(states, ranges)
    ensures states[|ranges|].peer == states[0].peer && Canonical(states[|ranges|])
    ensures forall n: nat :: Received(states[|ranges|], n) <==> Received(states[0], n) || Covers(ranges, n)
  {
    if ranges != [] {
      var k := |ranges| - 1;
      assert RunStep(states, ranges, k);
      var earlier, before := states[..|states| - 1], ranges[..k];
      forall i | 0 <= i < k ensures RunStep(earlier, before, i) { assert RunStep(states, ranges, i); }
      RunReceives(earlier, before);
      CoversNext(ranges, k);
      assert ranges[..k + 1] == ranges;
      assert Advances(states[k], ranges[k].from, ranges[k].until, states[k + 1]);
    }
  }

  /** The final progress does not depend on the order in which deltas arrive or on repetitions. */
  lemma OrderIndependent(a: seq<Progress>, b: seq<Progress>, r: seq<Span>, s: seq<Span>)
    requires Run(a, r) && Run(b, s) && a[0] == b[0]
    requires forall n: nat :: Covers(r, n) <==> Covers(s, n)
    ensures a[|r|] == b[|s|]
  {
    RunReceives(a, r);
    RunReceives(b, s);
    CanonicalUnique(a[|r|], b[|s|]);
  }

  /** Nothing received is forgotten, and the cursor never moves back. */
  lemma NeverMovesBack(states: seq<Progress>, ranges: seq<Span>)
    requires Run(states, ranges)
    ensures forall n: nat :: Received(states[0], n) ==> Received(states[|ranges|], n)
    ensures states[0].cursor <= states[|ranges|].cursor
  {
    RunReceives(states, ranges);
    var p, q := states[0], states[|ranges|];
    CursorIsLeast(q);
    assert Received(p, q.cursor) ==> Received(q, q.cursor);
  }
}
