/** The set-like operation log keyed by immutable operation identifier. */
module OpLogs {
  import opened Basics
  import opened Model
  import opened Records

  ghost predicate Keyed(m: map<Id, Op>) { forall id :: id in m ==> m[id].opId == id }

  ghost predicate HoldsId(ops: set<Op>, id: Id) { exists op :: op in ops && op.opId == id }

  lemma KeyedValues(m: map<Id, Op>)
    requires Keyed(m)
    ensures UniqueOps(m.Values)
    ensures forall op :: op in m.Values <==> op.opId in m && m[op.opId] == op
    ensures forall id :: id in m <==> HoldsId(m.Values, id)
  {
    forall op ensures op in m.Values <==> op.opId in m && m[op.opId] == op {
      if op in m.Values { var id :| id in m && m[id] == op; }
    }
    forall id ensures id in m <==> HoldsId(m.Values, id) {
      if id in m { assert m[id] in m.Values; }
    }
  }

  /** Adding one operation: nothing to do, refused, or stored. */
  lemma KeyedAdd(m: map<Id, Op>, op: Op)
    requires Keyed(m)
    ensures op.opId !in m ==> Keyed(m[op.opId := op]) && m[op.opId := op].Values == m.Values + {op}
                              && UniqueOps(m.Values + {op}) && op !in m.Values
    ensures op.opId in m && m[op.opId] == op ==> m.Values + {op} == m.Values
    ensures op.opId in m && m[op.opId] != op ==> !UniqueOps(m.Values + {op})
  {
    KeyedValues(m);
    if op.opId !in m {
      var m' := m[op.opId := op];
      KeyedValues(m');
      assert m'.Values == m.Values + {op};
    } else if m[op.opId] != op {
      assert m[op.opId] in m.Values + {op} && op in m.Values + {op};
    }
  }

  lemma UniqueSubset(small: set<Op>, large: set<Op>)
    requires small <= large && UniqueOps(large)
    ensures UniqueOps(small)
  {
  }

  /** Which operations of a batch are new, given those before them. */
  ghost predicate NewFlags(added: seq<bool>, before: set<Op>, ops: seq<Op>) {
    |added| == |ops| && forall i :: 0 <= i < |ops| ==> (added[i] <==> ops[i] !in before + Elements(ops[..i]))
  }

  /** Part way through `add_many`: what is pending joins the log only at the end. */
  ghost predicate Staged(base: map<Id, Op>, pending: map<Id, Op>, results: seq<bool>, batch: seq<Op>, i: nat)
    requires i <= |batch|
  {
    && Keyed(base) && Keyed(pending) && pending.Keys !! base.Keys
    && (base + pending).Values == base.Values + Elements(batch[..i])
    && NewFlags(results, base.Values, batch[..i])
  }

  lemma NothingStaged(base: map<Id, Op>, batch: seq<Op>)
    requires Keyed(base)
    ensures Staged(base, map[], [], batch, 0)
  {
    assert base + map[] == base;
  }

  lemma AllStaged(base: map<Id, Op>, pending: map<Id, Op>, results: seq<bool>, batch: seq<Op>)
    requires Staged(base, pending, results, batch, |batch|)
    ensures Keyed(base + pending) && (base + pending).Values == base.Values + Elements(batch)
    ensures UniqueOps(base.Values + Elements(batch)) && NewFlags(results, base.Values, batch)
  {
    assert batch[..|batch|] == batch;
    KeyedValues(base + pending);
  }

  lemma CollidingBatch(before: set<Op>, batch: seq<Op>, i: nat)
    requires i < |batch| && !UniqueOps(before + Elements(batch[..i]) + {batch[i]})
    ensures !UniqueOps(before + Elements(batch))
  {
    PrefixStep(batch, i);
    assert before + Elements(batch[..i]) + {batch[i]} <= before + Elements(batch);
    if UniqueOps(before + Elements(batch)) {
      UniqueSubset(before + Elements(batch[..i]) + {batch[i]}, before + Elements(batch));
    }
  }

  lemma PendingOne(base: map<Id, Op>, pending: map<Id, Op>, op: Op)
    requires Keyed(base) && Keyed(pending) && pending.Keys !! base.Keys
    requires op.opId !in base && op.opId !in pending
    ensures Keyed(pending[op.opId := op]) && pending[op.opId := op].Keys !! base.Keys
    ensures (base + pending[op.opId := op]).Values == (base + pending).Values + {op}
    ensures op !in (base + pending).Values
  {
    KeyedAdd(base + pending, op);
    assert (base + pending)[op.opId := op] == base + pending[op.opId := op];
  }

  lemma StagedNew(base: map<Id, Op>, pending: map<Id, Op>, results: seq<bool>, batch: seq<Op>, i: nat)
    requires i < |batch| && Staged(base, pending, results, batch, i)
    requires batch[i].opId !in base && batch[i].opId !in pending
    ensures Staged(base, pending[batch[i].opId := batch[i]], results + [true], batch, i + 1)
  {
    PendingOne(base, pending, batch[i]);
    hide Keyed;
    hide NewFlags;
    PrefixStep(batch, i);
    FlagsNext(results, base.Values, batch, i, true);
  }

  lemma StagedOld(base: map<Id, Op>, pending: map<Id, Op>, results: seq<bool>, batch: seq<Op>, i: nat)
    requires i < |batch| && Staged(base, pending, results, batch, i)
    requires batch[i].opId in base + pending
    ensures (base + pending)[batch[i].opId] == batch[i] ==> Staged(base, pending, results + [false], batch, i + 1)
    ensures (base + pending)[batch[i].opId] != batch[i] ==> !UniqueOps(base.Values + Elements(batch))
  {
    var op, all := batch[i], base + pending;
    PrefixStep(batch, i);
    KeyedAdd(all, op);
    KeyedValues(all);
    if all[op.opId] == op {
      assert base.Values + Elements(batch[..i + 1]) == base.Values + Elements(batch[..i]);
      FlagsNext(results, base.Values, batch, i, false);
    } else {
      CollidingBatch(base.Values, batch, i);
    }
  }

  /** The body of the loop of `add_many`. */
  method StageNext(base: map<Id, Op>, pending: map<Id, Op>, results: seq<bool>, batch: seq<Op>, i: nat)
    returns (r: Result<(map<Id, Op>, seq<bool>)>)
    requires i < |batch| && Staged(base, pending, results, batch, i)
    ensures r.Ok? ==> Staged(base, r.value.0, r.value.1, batch, i + 1)
    ensures r.ValueError? ==> !UniqueOps(base.Values + Elements(batch))
  {
    var op := batch[i];
    assert pending.Keys !! base.Keys;
    hide Staged;
    if op.opId in pending || op.opId in base {
      StagedOld(base, pending, results, batch, i);
      var existing := if op.opId in pending then pending[op.opId] else base[op.opId];
      if existing != op { return ValueError; }
      return Ok((pending, results + [false]));
    }
    StagedNew(base, pending, results, batch, i);
    r := Ok((pending[op.opId := op], results + [true]));
  }

  lemma ListedById(m: map<Id, Op>, ids: seq<Id>, s: seq<Op>)
    requires Keyed(m) && StrictlySorted(ids, IdRank) && Elements(ids) == m.Keys
    requires |s| == |ids| && forall i :: 0 <= i < |ids| ==> ids[i] in m && s[i] == m[ids[i]]
    ensures NoDuplicates(s) && Elements(s) == m.Values && StrictlySorted(s, OpRank)
  {
    KeyedValues(m);
    forall op ensures op in Elements(s) <==> op in m.Values {
      if op in s {
        var i :| 0 <= i < |s| && s[i] == op;
        assert m[ids[i]] in m.Values;
      }
      if op in m.Values {
        assert op.opId in Elements(ids);
        var i :| 0 <= i < |ids| && ids[i] == op.opId;
        assert s[i] == op;
      }
    }
    forall i, j | 0 <= i < j < |s| ensures Below(OpRank(s[i]), OpRank(s[j])) && s[i] != s[j] {
      assert Below(IdRank(ids[i]), IdRank(ids[j]));
    }
  }

  class OpLog {
    var ops: map<Id, Op>

    ghost predicate Valid() reads this { Keyed(ops) }

    ghost function Contents(): set<Op> reads this { ops.Values }

    constructor ()
      ensures Valid() && Contents() == {}
    {
      ops := map[];
    }

    /** `add` */
    method Add(op: Op) returns (added: Result<bool>)
      requires Valid()
      modifies this
      ensures Valid()
      ensures added.Ok? <==> UniqueOps(old(Contents()) + {op})
      ensures Contents() == if added.Ok? then old(Contents()) + {op} else old(Contents())
      ensures added.Ok? ==> (added.value <==> op !in old(Contents()))
    {
      KeyedAdd(ops, op);
      KeyedValues(ops);
      if op.opId !in ops {
        ops := ops[op.opId := op];
        return Ok(true);
      }
      if ops[op.opId] != op { return ValueError; }
      added := Ok(false);
    }

    /** `add_many`: all of the operations or, when any collides, none of them. */
    method AddMany(batch: seq<Op>) returns (added: Result<seq<bool>>)
      requires Valid()
      modifies this
      ensures Valid()
      ensures added.Ok? <==> UniqueOps(old(Contents()) + Elements(batch))
      ensures Contents() == if added.Ok? then old(Contents()) + Elements(batch) else old(Contents())
      ensures added.Ok? ==> NewFlags(added.value, old(Contents()), batch)
    {
      var pending: map<Id, Op>, results: seq<bool> := map[], [];
      NothingStaged(ops, batch);
      hide Staged;
      for i := 0 to |batch|
        invariant ops == old(ops) && Staged(ops, pending, results, batch, i)
      {
        var next := StageNext(ops, pending, results, batch, i);
        if next.ValueError? { return ValueError; }
        pending, results := next.value.0, next.value.1;
      }
      AllStaged(ops, pending, results, batch);
      ops := ops + pending;
      added := Ok(results);
    }

    /** `get` */
    method Get(id: Id) returns (op: Option<Op>)
      requires Valid()
      ensures op.Some? ==> op.value in Contents() && op.value.opId == id
      ensures op.None? <==> !HoldsId(Contents(), id)
    {
      KeyedValues(ops);
      op := if id in ops then Some(ops[id]) else None;
    }

    /** `iter_ops`: the operations in identifier order. */
    method IterOps() returns (s: seq<Op>)
      requires Valid()
      ensures NoDuplicates(s) && Elements(s) == Contents() && UniqueOps(Elements(s))
      ensures StrictlySorted(s, OpRank)
      ensures forall i, j :: 0 <= i < j < |s| ==> s[i].opId.n < s[j].opId.n
    {
      KeyedValues(ops);
      var m, ids := ops, SortedIds(ops.Keys);
      SortedIdsIncrease(m.Keys);
      forall i | 0 <= i < |ids| ensures ids[i] in m { assert ids[i] in Elements(ids); }
      s := seq(|ids|, i requires 0 <= i < |ids| => m[ids[i]]);
      ListedById(m, ids, s);
      forall i, j | 0 <= i < j < |s| ensures s[i].opId.n < s[j].opId.n { assert Below(OpRank(s[i]), OpRank(s[j])); }
    }

    /** `copy` */
    method Copy() returns (log: OpLog)
      requires Valid()
      ensures fresh(log) && log.Valid() && log.Contents() == Contents()
    {
      log := new OpLog();
      var s := IterOps();
      for i := 0 to |s|
        invariant fresh(log) && log.Valid() && log.Contents() == Elements(s[..i])
        invariant Valid() && Contents() == old(Contents())
      {
        PrefixStep(s, i);
        UniqueSubset(Elements(s[..i]) + {s[i]}, Elements(s));
        var _ := log.Add(s[i]);
      }
      assert s[..|s|] == s;
    }
  }

  function OpRank(op: Op): Rank { Rank(op.opId.n, 0, 0) }

  lemma FlagsNext(added: seq<bool>, before: set<Op>, ops: seq<Op>, i: nat, flag: bool)
    requires i < |ops| && NewFlags(added, before, ops[..i])
    requires flag <==> ops[i] !in before + Elements(ops[..i])
    ensures NewFlags(added + [flag], before, ops[..i + 1])
  {
    forall j | 0 <= j < i + 1 ensures (added + [flag])[j] <==> ops[..i + 1][j] !in before + Elements(ops[..i + 1][..j]) {
      assert ops[..i + 1][..j] == ops[..j];
      if j < i { assert ops[..i][..j] == ops[..j]; }
    }
  }
}
