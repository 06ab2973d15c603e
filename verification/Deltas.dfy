/** Deltas of consecutive steps, combined. */
module Deltas {
  import opened Model
  import opened Records
  import opened State
  import opened Affected
  import opened Refresh
  import opened Offmarks
  import opened Refold
  import opened Incremental

  /** `_combine_materialization_deltas`, for two deltas. */
  function Combine(d: Delta, e: Delta): Delta {
    Delta(d.processed + e.processed, d.keys + e.keys, d.namespaces + e.namespaces, d.claims + e.claims,
          d.previous + e.previous, d.current + e.current, d.refs + e.refs, d.resolutions + e.resolutions,
          d.cursorBefore, e.cursorAfter, false, d.comparisons + e.comparisons)
  }

  /** `_combine_materialization_deltas`: unions, and the outermost cursors. */
  function CombineAll(ds: seq<Delta>): Delta
    requires ds != []
  {
    if |ds| == 1 then ds[0].(fullRebuild := false) else Combine(CombineAll(ds[..|ds| - 1]), ds[|ds| - 1])
  }

  lemma KeptOffMarks(s: MemoryState, t: MemoryState, registry: Registry, marks: Marks, c: ConflictSet)
    requires WellFiled(s.records) && WellFiled(t.records) && Covered(BaseOfState(s), BaseOfState(t), marks)
    ensures c.key !in marks.keys ==> (c in FindingsIn(s, registry) <==> c in FindingsIn(t, registry))
  {
    FindingsEnd(BaseOfState(s), BaseOfState(t), marks, registry);
  }

  /** A finding on a key either step marks was, before or after that step, on a key it marks. */
  lemma AmongBoth(s: set<ConflictSet>, t: set<ConflictSet>, u: set<ConflictSet>, m: set<ClaimKey>, n: set<ClaimKey>)
    requires forall c: ConflictSet :: c.key !in m ==> (c in s <==> c in t)
    requires forall c: ConflictSet :: c.key !in n ==> (c in t <==> c in u)
    ensures IdsAmong(s, m + n) + IdsAmong(u, m + n) <= IdsAmong(s, m) + IdsAmong(t, m) + IdsAmong(t, n) + IdsAmong(u, n)
    ensures RefsAmong(s, m + n) + RefsAmong(u, m + n) <= RefsAmong(s, m) + RefsAmong(t, m) + RefsAmong(t, n) + RefsAmong(u, n)
    ensures CandidatesAmong(s, m + n) + CandidatesAmong(u, m + n)
            <= CandidatesAmong(s, m) + CandidatesAmong(t, m) + CandidatesAmong(t, n) + CandidatesAmong(u, n)
  {
    AmongSplit(s, t, m, n);
    AmongSplit(u, t, n, m);
    assert m + n == n + m;
  }

  lemma AmongSplit(s: set<ConflictSet>, t: set<ConflictSet>, m: set<ClaimKey>, n: set<ClaimKey>)
    requires forall c: ConflictSet :: c.key !in m ==> (c in s <==> c in t)
    ensures IdsAmong(s, m + n) <= IdsAmong(s, m) + IdsAmong(t, n)
    ensures RefsAmong(s, m + n) <= RefsAmong(s, m) + RefsAmong(t, n)
    ensures CandidatesAmong(s, m + n) <= CandidatesAmong(s, m) + CandidatesAmong(t, n)
  {
  }

  lemma ResolutionsOnBoth(t: Records, u: Records, m: set<ConflictRef>, n: set<ConflictRef>)
    requires RefsCovered(t, u, n)
    ensures ResolutionsOn(u.resolutions, m + n) <= ResolutionsOn(t.resolutions, m) + ResolutionsOn(u.resolutions, n)
  {
    forall id | id in u.resolutions && u.resolutions[id].conflictRef in m && u.resolutions[id].conflictRef !in n
      ensures id in t.resolutions && t.resolutions[id] == u.resolutions[id]
    {
      assert SameResolution(t, u, id);
    }
  }

  lemma FindingsBoth(d: Delta, e: Delta, s: MemoryState, t: MemoryState, u: MemoryState, registry: Registry)
    requires WellFiled(s.records) && WellFiled(t.records) && WellFiled(u.records)
    requires Covered(BaseOfState(s), BaseOfState(t), d.Marked()) && Covered(BaseOfState(t), BaseOfState(u), e.Marked())
    ensures var a, b, c := FindingsIn(s, registry), FindingsIn(t, registry), FindingsIn(u, registry);
            IdsAmong(a, d.keys + e.keys) + IdsAmong(c, d.keys + e.keys)
            <= IdsAmong(a, d.keys) + IdsAmong(b, d.keys) + IdsAmong(b, e.keys) + IdsAmong(c, e.keys)
            && RefsAmong(a, d.keys + e.keys) + RefsAmong(c, d.keys + e.keys)
               <= RefsAmong(a, d.keys) + RefsAmong(b, d.keys) + RefsAmong(b, e.keys) + RefsAmong(c, e.keys)
            && CandidatesAmong(a, d.keys + e.keys) + CandidatesAmong(c, d.keys + e.keys)
               <= CandidatesAmong(a, d.keys) + CandidatesAmong(b, d.keys) + CandidatesAmong(b, e.keys) + CandidatesAmong(c, e.keys)
  {
    hide Covered;
    hide FindingsIn;
    hide WellFiled;
    hide IdsAmong;
    hide RefsAmong;
    hide CandidatesAmong;
    forall c: ConflictSet
      ensures c.key !in d.keys ==> (c in FindingsIn(s, registry) <==> c in FindingsIn(t, registry))
      ensures c.key !in e.keys ==> (c in FindingsIn(t, registry) <==> c in FindingsIn(u, registry))
    {
      KeptOffMarks(s, t, registry, d.Marked(), c);
      KeptOffMarks(t, u, registry, e.Marked(), c);
    }
    AmongBoth(FindingsIn(s, registry), FindingsIn(t, registry), FindingsIn(u, registry), d.keys, e.keys);
  }

  /** The union of two steps' deltas covers both steps together. */
  lemma CoversCombine(d: Delta, e: Delta, s: MemoryState, t: MemoryState, u: MemoryState, registry: Registry)
    requires WellFiled(s.records) && WellFiled(t.records) && WellFiled(u.records)
    requires DeltaCovers(d, s, t, registry) && DeltaCovers(e, t, u, registry)
    ensures DeltaCovers(Combine(d, e), s, u, registry)
  {
    assert RefsCovered(t.records, u.records, e.refs);
    hide Covered;
    hide FindingsIn;
    hide IdsAmong;
    hide RefsAmong;
    hide CandidatesAmong;
    hide ResolutionsOn;
    hide WellFiled;
    hide RefsCovered;
    CoveredCompose(BaseOfState(s), BaseOfState(t), BaseOfState(u), d.Marked(), e.Marked());
    ResolutionsOnBoth(t.records, u.records, d.refs, e.refs);
    FindingsBoth(d, e, s, t, u, registry);
    var a, b, c := FindingsIn(s, registry), FindingsIn(t, registry), FindingsIn(u, registry);
    var f := Combine(d, e);
    assert f.Marked() == Join(d.Marked(), e.Marked());
    hide Combine;
    hide Join;
    FourBelow(IdsAmong(a, d.keys + e.keys) + IdsAmong(c, d.keys + e.keys), IdsAmong(a, d.keys), IdsAmong(b, d.keys),
              IdsAmong(b, e.keys), IdsAmong(c, e.keys), d.previous + d.current, e.previous + e.current);
    FourBelow(RefsAmong(a, d.keys + e.keys) + RefsAmong(c, d.keys + e.keys), RefsAmong(a, d.keys), RefsAmong(b, d.keys),
              RefsAmong(b, e.keys), RefsAmong(c, e.keys), d.refs, e.refs);
    FourBelow(CandidatesAmong(a, d.keys + e.keys) + CandidatesAmong(c, d.keys + e.keys), CandidatesAmong(a, d.keys),
              CandidatesAmong(b, d.keys), CandidatesAmong(b, e.keys), CandidatesAmong(c, e.keys), d.claims, e.claims);
    CombinedFields(d, e);
  }

  lemma FourBelow<T>(x: set<T>, a: set<T>, b: set<T>, c: set<T>, e: set<T>, p: set<T>, q: set<T>)
    requires x <= a + b + c + e && a + b <= p && c + e <= q
    ensures x <= p + q
  {
  }

  lemma CombinedFields(d: Delta, e: Delta)
    ensures var f := Combine(d, e);
            f.keys == d.keys + e.keys && f.previous + f.current == (d.previous + d.current) + (e.previous + e.current)
            && f.refs == d.refs + e.refs && f.claims == d.claims + e.claims && f.resolutions == d.resolutions + e.resolutions
  {
  }
}
