/** Batch-structured append order and soft-limited pages over it. */
module Paging {
  import opened Basics
  import opened Model

  /** The ends of committed batches: increasing positions, the last one at the end of the order. */
  ghost predicate Batched(ends: seq<nat>, n: nat) {
    && (forall i, j :: 0 <= i < j < |ends| ==> ends[i] < ends[j])
    && (forall i :: 0 <= i < |ends| ==> 0 < ends[i] <= n)
    && (if ends == [] then n == 0 else ends[|ends| - 1] == n)
  }

  ghost predicate IsBoundary(ends: seq<nat>, c: nat) { c == 0 || exists i :: 0 <= i < |ends| && ends[i] == c }

  /** A page from `cursor` stops at a batch end: at the first one where the limit is met, or at the
      end of the order. */
  ghost predicate IsPage(ends: seq<nat>, n: nat, cursor: nat, limit: Option<nat>, after: nat) {
    && IsBoundary(ends, after) && cursor <= after <= n
    && (after < n ==> Full(cursor, limit, after))
    && forall i :: 0 <= i < |ends| && cursor < ends[i] < after ==> !Full(cursor, limit, ends[i])
  }

  ghost predicate Full(cursor: nat, limit: Option<nat>, at: nat) { limit.Some? && at - cursor >= limit.value }

  lemma EarlierNotFull(ends: seq<nat>, n: nat, cursor: nat, limit: Option<nat>, earlier: nat, after: nat)
    requires IsPage(ends, n, cursor, limit, after) && IsBoundary(ends, earlier)
    ensures cursor < earlier < after ==> !Full(cursor, limit, earlier)
  {
    if earlier != 0 {
      var i :| 0 <= i < |ends| && ends[i] == earlier;
    }
  }

  lemma PageUnique(ends: seq<nat>, n: nat, cursor: nat, limit: Option<nat>, a: nat, b: nat)
    requires limit != Some(0)
    requires IsPage(ends, n, cursor, limit, a) && IsPage(ends, n, cursor, limit, b)
    ensures a == b
  {
    EarlierNotFull(ends, n, cursor, limit, a, b);
    EarlierNotFull(ends, n, cursor, limit, b, a);
  }

  /** A page makes progress unless nothing is left, and without its last batch is under the limit. */
  lemma PageBounds(ends: seq<nat>, n: nat, cursor: nat, limit: Option<nat>, after: nat, earlier: nat)
    requires Batched(ends, n) && limit != Some(0) && IsPage(ends, n, cursor, limit, after)
    ensures cursor < n ==> cursor < after
    ensures limit.Some? && IsBoundary(ends, earlier) && cursor <= earlier < after ==> earlier - cursor < limit.value
  {
    if IsBoundary(ends, earlier) { EarlierNotFull(ends, n, cursor, limit, earlier, after); }
  }

  /** One order extends another: later batches only. */
  ghost predicate Extends(small: seq<nat>, large: seq<nat>) { small <= large }

  /** Reading a page again with the page's own length as the limit gives the same page, even after
      more batches were appended. */
  lemma ReadAgain(ends: seq<nat>, n: nat, more: seq<nat>, m: nat, cursor: nat, limit: Option<nat>, after: nat, again: nat)
    requires Batched(ends, n) && Batched(more, m) && Extends(ends, more)
    requires IsPage(ends, n, cursor, limit, after) && cursor < after
    ensures IsPage(more, m, cursor, Some(after - cursor), after)
    ensures IsPage(more, m, cursor, Some(after - cursor), again) ==> again == after
  {
    assert n <= m;
    var i :| 0 <= i < |ends| && ends[i] == after;
    assert more[i] == after;
    if IsPage(more, m, cursor, Some(after - cursor), again) {
      PageUnique(more, m, cursor, Some(after - cursor), after, again);
    }
  }

  // ---------------------------------------------------------------- batch sizes

  /** The batch ends in `(cursor, after]` are `ends[a..b]`. */
  ghost predicate EndsInPage(ends: seq<nat>, cursor: nat, after: nat, a: nat, b: nat) {
    && a <= b <= |ends|
    && (a > 0 ==> ends[a - 1] <= cursor)
    && (a < b ==> cursor < ends[a] && ends[b - 1] == after)
    && (a == b ==> cursor == after)
  }

  /** A page's batch sizes: the distances between the cursor and the batch ends inside the page. */
  ghost predicate SizesOfPage(ends: seq<nat>, cursor: nat, after: nat, sizes: seq<int>) {
    exists a: nat, b: nat :: EndsInPage(ends, cursor, after, a, b) && sizes == Gaps(cursor, ends[a..b])
  }

  ghost function Gaps(start: nat, ends: seq<nat>): seq<int> {
    if ends == [] then []
    else Gaps(start, ends[..|ends| - 1]) + [ends[|ends| - 1] - LastOr(start, ends[..|ends| - 1])]
  }

  ghost function LastOr(start: nat, ends: seq<nat>): nat { if ends == [] then start else ends[|ends| - 1] }

  function Sum(s: seq<int>): int { if s == [] then 0 else Sum(s[..|s| - 1]) + s[|s| - 1] }

  /** Gaps between increasing ends are positive and add up to the distance covered. */
  lemma {:induction false} GapsCover(start: nat, ends: seq<nat>)
    requires forall i, j :: 0 <= i < j < |ends| ==> ends[i] < ends[j]
    requires forall i :: 0 <= i < |ends| ==> start < ends[i]
    ensures Sum(Gaps(start, ends)) == LastOr(start, ends) - start
    ensures |Gaps(start, ends)| == |ends|
    ensures forall i :: 0 <= i < |ends| ==> Gaps(start, ends)[i] > 0
  {
    if ends != [] {
      var k := |ends| - 1;
      GapsCover(start, ends[..k]);
      assert Gaps(start, ends)[..k] == Gaps(start, ends[..k]);
    }
  }

  lemma PageSizesCover(ends: seq<nat>, n: nat, cursor: nat, after: nat, sizes: seq<int>)
    requires Batched(ends, n) && SizesOfPage(ends, cursor, after, sizes)
    ensures Sum(sizes) == after - cursor && PositiveSizes(sizes)
  {
    var a: nat, b: nat :| EndsInPage(ends, cursor, after, a, b) && sizes == Gaps(cursor, ends[a..b]);
    var es := ends[a..b];
    hide Gaps;
    hide Sum;
    forall i | 0 <= i < |es| ensures cursor < es[i] {
      assert es[i] == ends[a + i] && ends[a] <= ends[a + i];
    }
    forall i, j | 0 <= i < j < |es| ensures es[i] < es[j] {
      assert es[i] == ends[a + i] && es[j] == ends[a + j];
    }
    GapsCover(cursor, es);
  }

  // ---------------------------------------------------------------- cutting into batches

  /** `batches`: consecutive slices of the given sizes. */
  function Batches(ops: seq<Op>, sizes: seq<int>): seq<seq<Op>>
    decreases |sizes|
  {
    if sizes == [] || Sum(sizes) > |ops| || sizes[|sizes| - 1] < 0 || Sum(sizes) < sizes[|sizes| - 1] then []
    else
      var from := Sum(sizes) - sizes[|sizes| - 1];
      Batches(ops[..from], sizes[..|sizes| - 1]) + [ops[from..Sum(sizes)]]
  }

  function Flatten(bs: seq<seq<Op>>): seq<Op> {
    if bs == [] then [] else Flatten(bs[..|bs| - 1]) + bs[|bs| - 1]
  }

  ghost predicate PositiveSizes(sizes: seq<int>) { forall i :: 0 <= i < |sizes| ==> sizes[i] > 0 }

  lemma {:induction false} SumPositive(sizes: seq<int>)
    requires PositiveSizes(sizes)
    ensures Sum(sizes) >= 0 && (sizes != [] ==> Sum(sizes) > 0)
  {
    if sizes != [] { SumPositive(sizes[..|sizes| - 1]); }
  }

  /** Cutting loses nothing and reorders nothing. */
  lemma {:induction false} BatchesFlatten(ops: seq<Op>, sizes: seq<int>)
    requires PositiveSizes(sizes) && Sum(sizes) == |ops|
    ensures Flatten(Batches(ops, sizes)) == ops
    ensures |Batches(ops, sizes)| == |sizes|
    ensures forall i :: 0 <= i < |sizes| ==> |Batches(ops, sizes)[i]| == sizes[i]
  {
    if sizes != [] {
      SumPositive(sizes[..|sizes| - 1]);
      var from := Sum(sizes) - sizes[|sizes| - 1];
      BatchesFlatten(ops[..from], sizes[..|sizes| - 1]);
      assert ops == ops[..from] + ops[from..Sum(sizes)];
    }
  }

  // ---------------------------------------------------------------- following pages

  /** Cursors visited by following pages: each is the end of a page that starts at the one before. */
  ghost predicate Follows(ends: seq<nat>, n: nat, cursors: seq<nat>, limits: seq<Option<nat>>) {
    && |cursors| == |limits| + 1
    && forall i :: 0 <= i < |limits| ==> PageAt(ends, n, cursors, limits, i)
  }

  ghost predicate PageAt(ends: seq<nat>, n: nat, cursors: seq<nat>, limits: seq<Option<nat>>, i: nat)
    requires |cursors| == |limits| + 1 && i < |limits|
  {
    limits[i] != Some(0) && IsPage(ends, n, cursors[i], limits[i], cursors[i + 1])
  }

  function PageOps(order: seq<Op>, cursors: seq<nat>): seq<Op> {
    if |cursors| < 2 then []
    else
      var a, b := cursors[|cursors| - 2], cursors[|cursors| - 1];
      PageOps(order, cursors[..|cursors| - 1]) + if a <= b <= |order| then order[a..b] else []
  }

  /** Following pages from 0 under any limits delivers the order itself, batch by batch. */
  lemma {:induction false} PagesConcatenate(order: seq<Op>, ends: seq<nat>, cursors: seq<nat>, limits: seq<Option<nat>>)
    requires Batched(ends, |order|) && Follows(ends, |order|, cursors, limits) && cursors[0] == 0
    ensures cursors[|limits|] <= |order| && IsBoundary(ends, cursors[|limits|])
    ensures PageOps(order, cursors) == order[..cursors[|limits|]]
  {
    if limits != [] {
      var k := |limits| - 1;
      var front, before := cursors[..|cursors| - 1], limits[..k];
      assert PageAt(ends, |order|, cursors, limits, k);
      forall i | 0 <= i < k ensures PageAt(ends, |order|, front, before, i) {
        assert PageAt(ends, |order|, cursors, limits, i);
      }
      PagesConcatenate(order, ends, front, before);
      assert order[..cursors[k]] + order[cursors[k]..cursors[k + 1]] == order[..cursors[k + 1]];
    }
  }
}
