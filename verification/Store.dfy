/** The in-memory operation store: a log, the order of appends cut into committed batches, receive
    progress per peer, and one checkpoint. */
module Store {
  import opened Basics
  import opened Model
  import opened Records
  import opened OpLogs
  import opened Paging
  import opened Replica
  import opened Checkpoint

  datatype SavedCheckpoint = SavedCheckpoint(version: Name, token: Name, cursor: nat, payload: Payload)

  /** What a checkpoint was written for: the operations and the rules of the state saved. */
  datatype Written = Written(ops: set<Op>, rules: Registry)

  datatype StoreDelta = StoreDelta(cursor: nat, ops: seq<Op>, sizes: seq<int>)

  /** `[op for op, was_added in zip(ops, results) if was_added]` */
  function Selected(ops: seq<Op>, flags: seq<bool>): seq<Op> {
    if ops == [] || |flags| != |ops| then []
    else Selected(ops[..|ops| - 1], flags[..|ops| - 1]) + if flags[|ops| - 1] then [ops[|ops| - 1]] else []
  }

  lemma FlagsOfFront(ops: seq<Op>, flags: seq<bool>, before: set<Op>)
    requires ops != [] && NewFlags(flags, before, ops)
    ensures var k := |ops| - 1;
            NewFlags(flags[..k], before, ops[..k]) && (flags[k] <==> ops[k] !in before + Elements(ops[..k]))
            && Elements(ops) == Elements(ops[..k]) + {ops[k]}
  {
    var k := |ops| - 1;
    forall j | 0 <= j < k ensures flags[..k][j] <==> ops[..k][j] !in before + Elements(ops[..k][..j]) {
      assert ops[..k][..j] == ops[..j];
    }
    assert ops == ops[..k] + [ops[k]];
  }

  lemma SelectLast(ops: seq<Op>, flags: seq<bool>)
    requires ops != [] && |flags| == |ops|
    ensures var k := |ops| - 1;
            Selected(ops, flags) == Selected(ops[..k], flags[..k]) + (if flags[k] then [ops[k]] else [])
            && Elements(Selected(ops, flags)) == Elements(Selected(ops[..k], flags[..k])) + if flags[k] then {ops[k]} else {}
  {
    var k := |ops| - 1;
    var front := Selected(ops[..k], flags[..k]);
    ElementsConcat(front, if flags[k] then [ops[k]] else []);
    OneElement(ops[k]);
    hide Elements;
  }

  lemma OneElement<T>(x: T)
    ensures Elements([x]) == {x} && Elements<T>([]) == {}
  {
  }

  lemma AppendDistinct<T>(front: seq<T>, x: T)
    requires NoDuplicates(front) && x !in Elements(front)
    ensures NoDuplicates(front + [x])
  {
    forall i | 0 <= i < |front| ensures front[i] != x { assert front[i] in Elements(front); }
  }

  lemma {:induction false} SelectedNew(ops: seq<Op>, flags: seq<bool>, before: set<Op>)
    requires NewFlags(flags, before, ops)
    ensures Elements(Selected(ops, flags)) == Elements(ops) - before
    ensures NoDuplicates(Selected(ops, flags))
  {
    if ops != [] {
      var k := |ops| - 1;
      FlagsOfFront(ops, flags, before);
      SelectedNew(ops[..k], flags[..k], before);
      SelectLast(ops, flags);
      hide NewFlags;
      hide Selected;
      hide NoDuplicates;
      if flags[k] { AppendDistinct(Selected(ops[..k], flags[..k]), ops[k]); }
    }
  }

  /** The order lists the log once, cut into batches. */
  ghost predicate Ordered(order: seq<Op>, ends: seq<nat>, contents: set<Op>) {
    NoDuplicates(order) && Elements(order) == contents && Batched(ends, |order|)
  }

  lemma AppendBatch(order: seq<Op>, ends: seq<nat>, contents: set<Op>, added: seq<Op>)
    requires Ordered(order, ends, contents) && added != [] && NoDuplicates(added) && Elements(added) !! contents
    ensures Ordered(order + added, ends + [|order| + |added|], contents + Elements(added))
  {
    ElementsConcat(order, added);
    forall i, j | 0 <= i < |order| && 0 <= j < |added| ensures order[i] != added[j] {
      assert order[i] in Elements(order) && added[j] in Elements(added);
    }
    var all := order + added;
    forall i, j | 0 <= i < j < |all| ensures all[i] != all[j] {
      if j < |order| {
        assert order[i] != order[j];
      } else if i < |order| {
        assert order[i] != added[j - |order|];
      } else {
        assert added[i - |order|] != added[j - |order|];
      }
    }
  }

  /** What `read_after` returns for a valid cursor and limit. */
  ghost predicate Reads(order: seq<Op>, ends: seq<nat>, cursor: nat, limit: Option<nat>, d: StoreDelta) {
    && IsPage(ends, |order|, cursor, limit, d.cursor)
    && d.ops == order[cursor..d.cursor]
    && SizesOfPage(ends, cursor, d.cursor, d.sizes)
  }

  class InMemoryStore {
    const log: OpLog
    var order: seq<Op>
    var ends: seq<nat>
    var progress: map<Name, Progress>
    var checkpoint: Option<SavedCheckpoint>
    ghost var written: Written

    ghost predicate Valid() reads this, log {
      log.Valid() && Ordered(order, ends, log.Contents())
      && forall peer :: peer in progress ==> progress[peer].peer == peer
    }

    ghost function Contents(): set<Op> reads this, log { log.Contents() }

    constructor ()
      ensures Valid() && fresh(log) && Contents() == {} && order == [] && ends == [] && progress == map[] && checkpoint == None
    {
      log := new OpLog();
      order, ends, progress, checkpoint := [], [], map[], None;
      written := Written({}, Registry(map[]));
    }

    /** `append`: a batch of one. */
    method AppendOp(op: Op) returns (added: Result<bool>)
      requires Valid()
      modifies this`order, this`ends, log
      ensures Valid()
      ensures added.Ok? <==> UniqueOps(old(Contents()) + {op})
      ensures added.Ok? ==> (added.value <==> op !in old(Contents()))
      ensures Contents() == if added.Ok? then old(Contents()) + {op} else old(Contents())
      ensures order == old(order) + if added == Ok(true) then [op] else []
      ensures ends == old(ends) + if added == Ok(true) then [|order|] else []
    {
      added := log.Add(op);
      if added == Ok(true) {
        AppendBatch(order, ends, old(Contents()), [op]);
        order := order + [op];
        ends := ends + [|order|];
      } else {
        assert old(Contents()) + {op} == old(Contents()) || added.ValueError?;
      }
    }

    /** `append_many`: the new operations become one batch, or nothing at all is stored. */
    method AppendMany(ops: seq<Op>) returns (added: Result<seq<bool>>)
      requires Valid()
      modifies this`order, this`ends, log
      ensures Valid()
      ensures added.Ok? <==> UniqueOps(old(Contents()) + Elements(ops))
      ensures added.Ok? ==> NewFlags(added.value, old(Contents()), ops)
      ensures Contents() == if added.Ok? then old(Contents()) + Elements(ops) else old(Contents())
      ensures added.Ok? ==> order == old(order) + Selected(ops, added.value)
                            && ends == old(ends) + if Selected(ops, added.value) != [] then [|order|] else []
      ensures added.ValueError? ==> order == old(order) && ends == old(ends)
    {
      hide UniqueOps;
      added := log.AddMany(ops);
      hide Selected;
      if added.Ok? {
        var news := Selected(ops, added.value);
        SelectedNew(ops, added.value, old(Contents()));
        assert old(Contents()) + Elements(news) == old(Contents()) + Elements(ops);
        if news != [] {
          AppendBatch(order, ends, old(Contents()), news);
        }
        order := order + news;
        if news != [] {
          ends := ends + [|order|];
        }
      }
    }

    /** `find_ops` */
    method FindOps(ids: seq<Id>) returns (found: map<Id, Op>)
      requires Valid()
      ensures forall id :: id in found ==> id in ids && found[id] in Contents() && found[id].opId == id
      ensures forall i :: 0 <= i < |ids| ==> (ids[i] in found <==> HoldsId(Contents(), ids[i]))
    {
      found := map[];
      for i := 0 to |ids|
        invariant forall id :: id in found ==> id in ids && found[id] in Contents() && found[id].opId == id
        invariant forall j :: 0 <= j < i ==> (ids[j] in found <==> HoldsId(Contents(), ids[j]))
      {
        var op := log.Get(ids[i]);
        if op.Some? { found := found[ids[i] := op.value]; }
      }
    }

    /** `read_after`: one page of whole batches; the cursor must be a batch boundary. */
    method ReadAfter(cursor: nat, limit: Option<nat>) returns (r: Result<StoreDelta>)
      requires Valid()
      ensures r.Ok? <==> IsBoundary(ends, cursor) && limit != Some(0)
      ensures r.Ok? ==> Reads(order, ends, cursor, limit, r.value)
    {
      if cursor > |order| || limit == Some(0) { return ValueError; }
      var page := PageAfter(ends, |order|, cursor, limit);
      if page.ValueError? { return ValueError; }
      r := Ok(StoreDelta(page.value.0, order[cursor..page.value.0], page.value.1));
    }

    method LoadReplicaProgress(peer: Name) returns (p: Progress)
      requires Valid()
      ensures p == ProgressOf(peer) && p.peer == peer
    {
      p := if peer in progress then progress[peer] else Progress(peer, 0, []);
    }

    function ProgressOf(peer: Name): Progress reads this {
      if peer in progress then progress[peer] else Progress(peer, 0, [])
    }

    method SaveReplicaProgress(p: Progress)
      requires Valid()
      modifies this`progress
      ensures Valid() && progress == old(progress)[p.peer := p]
    {
      progress := progress[p.peer := p];
    }

    method ResetReplicaProgress(peer: Name)
      requires Valid()
      modifies this`progress
      ensures Valid() && progress == old(progress) - {peer}
    {
      progress := progress - {peer};
    }

    method SaveMaterializationCheckpoint(c: SavedCheckpoint, ghost w: Written)
      modifies this`checkpoint, this`written
      ensures checkpoint == Some(c) && written == w
    {
      checkpoint, written := Some(c), w;
    }
  }

  /** Part way through the loop over batch ends: `ends[first..i]` are inside the page. */
  ghost predicate Scanning(ends: seq<nat>, cursor: nat, limit: Option<nat>, first: nat, i: nat, previous: nat, after: nat, sizes: seq<int>)
    requires i <= |ends|
  {
    && previous == LastOr(0, ends[..i]) && first <= i
    && (forall j :: 0 <= j < first ==> ends[j] <= cursor)
    && (if first < i then cursor < ends[first] && after == ends[i - 1] && IsBoundary(ends, cursor)
        else after == cursor && previous <= cursor)
    && sizes == Gaps(cursor, ends[first..i])
    && (forall j :: first <= j < i ==> !Full(cursor, limit, ends[j]))
  }

  lemma ScanSkips(ends: seq<nat>, cursor: nat, limit: Option<nat>, first: nat, i: nat, previous: nat, after: nat, sizes: seq<int>)
    requires i < |ends| && Scanning(ends, cursor, limit, first, i, previous, after, sizes) && ends[i] <= cursor
    requires forall a, b :: 0 <= a < b < |ends| ==> ends[a] < ends[b]
    ensures Scanning(ends, cursor, limit, i + 1, i + 1, ends[i], after, sizes)
  {
    assert first == i;
    assert ends[..i + 1][i] == ends[i];
    assert ends[i + 1..i + 1] == ends[first..i];
  }

  lemma ScanTakes(ends: seq<nat>, n: nat, cursor: nat, limit: Option<nat>, first: nat, i: nat, previous: nat, after: nat, sizes: seq<int>)
    requires Batched(ends, n) && i < |ends| && Scanning(ends, cursor, limit, first, i, previous, after, sizes)
    requires cursor < ends[i] && !(previous < cursor)
    ensures Gaps(cursor, ends[first..i + 1]) == sizes + [ends[i] - previous]
    ensures Sum(sizes + [ends[i] - previous]) == ends[i] - cursor
    ensures IsBoundary(ends, cursor) && cursor < ends[first]
    ensures LastOr(0, ends[..i + 1]) == ends[i]
  {
    CursorAtBoundary(ends, cursor, limit, first, i, previous, after, sizes);
    GapsNext(ends, cursor, first, i, previous);
    SumOfGaps(ends, cursor, first, i + 1, sizes + [ends[i] - previous], n);
    assert ends[..i + 1][i] == ends[i];
  }

  lemma ScanStops(ends: seq<nat>, n: nat, cursor: nat, limit: Option<nat>, first: nat, i: nat, sizes: seq<int>)
    requires Batched(ends, n) && cursor <= n && first <= i < |ends| && cursor < ends[first] && Full(cursor, limit, ends[i])
    requires sizes == Gaps(cursor, ends[first..i + 1]) && forall j :: 0 <= j < first ==> ends[j] <= cursor
    requires forall j :: first <= j < i ==> !Full(cursor, limit, ends[j])
    ensures IsPage(ends, n, cursor, limit, ends[i]) && SizesOfPage(ends, cursor, ends[i], sizes)
  {
    assert EndsInPage(ends, cursor, ends[i], first, i + 1);
    forall j | 0 <= j < |ends| && cursor < ends[j] < ends[i] ensures !Full(cursor, limit, ends[j]) {
      assert j < i;
    }
  }

  datatype Scan = Refuse | Stop | Continue

  /** The body of the loop of `read_after`. */
  method ScanEnd(ends: seq<nat>, ghost n: nat, cursor: nat, limit: Option<nat>, ghost first: nat, i: nat, previous: nat,
                 after: nat, sizes: seq<int>)
    returns (scan: Scan, ghost first': nat, after': nat, sizes': seq<int>)
    requires Batched(ends, n) && cursor <= n && i < |ends|
    requires Scanning(ends, cursor, limit, first, i, previous, after, sizes)
    ensures scan.Refuse? ==> !IsBoundary(ends, cursor)
    ensures scan.Stop? ==> IsBoundary(ends, cursor) && IsPage(ends, n, cursor, limit, after') && SizesOfPage(ends, cursor, after', sizes')
    ensures scan.Continue? ==> Scanning(ends, cursor, limit, first', i + 1, ends[i], after', sizes')
  {
    first', after', sizes' := first, after, sizes;
    var end := ends[i];
    if previous < cursor < end {
      NotBoundary(ends, cursor, i);
      return Refuse, first', after', sizes';
    }
    if end <= cursor {
      ScanSkips(ends, cursor, limit, first, i, previous, after, sizes);
      return Continue, i + 1, after', sizes';
    }
    ScanTakes(ends, n, cursor, limit, first, i, previous, after, sizes);
    hide Gaps;
    hide Sum;
    hide IsPage;
    hide SizesOfPage;
    sizes', after' := sizes + [end - previous], end;
    if limit.Some? && Sum(sizes') >= limit.value {
      ScanStops(ends, n, cursor, limit, first, i, sizes');
      return Stop, first', after', sizes';
    }
    scan := Continue;
  }

  lemma CursorAtBoundary(ends: seq<nat>, cursor: nat, limit: Option<nat>, first: nat, i: nat, previous: nat, after: nat, sizes: seq<int>)
    requires i < |ends| && Scanning(ends, cursor, limit, first, i, previous, after, sizes)
    requires !(previous < cursor) && cursor < ends[i]
    ensures IsBoundary(ends, cursor) && (first == i ==> previous == cursor)
  {
    if first == i && i > 0 { assert ends[..i][i - 1] == ends[i - 1]; }
  }

  method PageAfter(ends: seq<nat>, n: nat, cursor: nat, limit: Option<nat>) returns (r: Result<(nat, seq<int>)>)
    requires Batched(ends, n) && cursor <= n && limit != Some(0)
    ensures r.Ok? <==> IsBoundary(ends, cursor)
    ensures r.Ok? ==> IsPage(ends, n, cursor, limit, r.value.0) && SizesOfPage(ends, cursor, r.value.0, r.value.1)
  {
    var previous, after, sizes: seq<int> := 0, cursor, [];
    ghost var first := 0;
    for i := 0 to |ends|
      invariant Scanning(ends, cursor, limit, first, i, previous, after, sizes)
    {
      var scan;
      scan, first, after, sizes := ScanEnd(ends, n, cursor, limit, first, i, previous, after, sizes);
      if scan.Refuse? { return ValueError; }
      if scan.Stop? { return Ok((after, sizes)); }
      previous := ends[i];
    }
    ScannedAll(ends, n, cursor, limit, first, previous, after, sizes);
    r := Ok((after, sizes));
  }

  lemma ScannedAll(ends: seq<nat>, n: nat, cursor: nat, limit: Option<nat>, first: nat, previous: nat, after: nat, sizes: seq<int>)
    requires Batched(ends, n) && cursor <= n
    requires Scanning(ends, cursor, limit, first, |ends|, previous, after, sizes)
    ensures IsBoundary(ends, cursor) && IsPage(ends, n, cursor, limit, after) && SizesOfPage(ends, cursor, after, sizes)
  {
    assert ends[..|ends|] == ends;
    assert EndsInPage(ends, cursor, after, first, |ends|);
  }

  lemma NotBoundary(ends: seq<nat>, cursor: nat, i: nat)
    requires forall a, b :: 0 <= a < b < |ends| ==> ends[a] < ends[b]
    requires i < |ends| && LastOr(0, ends[..i]) < cursor < ends[i]
    ensures !IsBoundary(ends, cursor)
  {
    if i > 0 { assert ends[..i][i - 1] == ends[i - 1]; }
    forall j | 0 <= j < |ends| ensures ends[j] != cursor {}
  }

  lemma GapsNext(ends: seq<nat>, cursor: nat, first: nat, i: nat, previous: nat)
    requires first <= i < |ends| && previous == LastOr(0, ends[..i])
    requires first == i ==> previous == cursor
    ensures Gaps(cursor, ends[first..i + 1]) == Gaps(cursor, ends[first..i]) + [ends[i] - previous]
  {
    var es := ends[first..i + 1];
    assert es[..|es| - 1] == ends[first..i];
    if first < i { assert ends[first..i][i - first - 1] == ends[i - 1] == ends[..i][i - 1]; }
  }

  lemma SumOfGaps(ends: seq<nat>, cursor: nat, first: nat, i: nat, sizes: seq<int>, n: nat)
    requires Batched(ends, n) && first < i <= |ends| && cursor < ends[first] && sizes == Gaps(cursor, ends[first..i])
    ensures Sum(sizes) == ends[i - 1] - cursor
  {
    var es := ends[first..i];
    hide Gaps;
    hide Sum;
    forall k | 0 <= k < |es| ensures cursor < es[k] {
      assert es[k] == ends[first + k] && ends[first] <= ends[first + k];
    }
    forall k, j | 0 <= k < j < |es| ensures es[k] < es[j] {
      assert es[k] == ends[first + k] && es[j] == ends[first + j];
    }
    GapsCover(cursor, es);
  }
}
