/** Context and validity: when two claims can apply together, and when a whole finding can. */
module Applicability {
  import opened Basics
  import opened Model

  datatype Bounds = Bounds(from: Option<Time>, until: Option<Time>)

  function ValidityBounds(v: Option<Validity>): Bounds {
    match v
    case None => Bounds(None, None)
    case Some(interval) => Bounds(interval.from, interval.until)
  }

  predicate ContextsOverlap(left: Context, right: Context) {
    forall k :: k in left.Keys && k in right.Keys ==> left[k] == right[k]
  }

  predicate BoundsOverlap(left: Bounds, right: Bounds) {
    if left.from.Some? && left.until.Some? && left.from.value == left.until.value then false
    else if right.from.Some? && right.until.Some? && right.from.value == right.until.value then false
    else if left.until.Some? && right.from.Some? && left.until.value <= right.from.value then false
    else if right.until.Some? && left.from.Some? && right.until.value <= left.from.value then false
    else true
  }

  predicate ValidityOverlaps(left: Option<Validity>, right: Option<Validity>) {
    BoundsOverlap(ValidityBounds(left), ValidityBounds(right))
  }

  predicate Contains(b: Bounds, t: Time) {
    (b.from.Some? ==> b.from.value <= t) && (b.until.Some? ==> t < b.until.value)
  }

  /** `claim_applies`: a context dimension the claim does not name is unconstrained. */
  predicate ClaimApplies(claim: Claim, validAt: Option<Time>, context: Option<Context>) {
    if context.Some? && exists k :: k in context.value && k in claim.context && claim.context[k] != context.value[k]
    then false
    else if validAt.None? then true
    else Contains(ValidityBounds(claim.validity), validAt.value)
  }

  /** One instant and one context, naming every dimension the claim names, at which it applies. */
  ghost predicate AppliesAt(claim: Claim, t: Time, context: Context) {
    claim.context.Keys <= context.Keys && ClaimApplies(claim, Some(t), Some(context))
  }

  lemma AppliesAtMeaning(claim: Claim, t: Time, context: Context)
    ensures AppliesAt(claim, t, context) <==>
              Contains(ValidityBounds(claim.validity), t)
              && forall k :: k in claim.context ==> k in context && context[k] == claim.context[k]
  {
    assert claim.context.Keys <= context.Keys ==>
             forall k :: k in claim.context ==> k in context;
  }

  predicate PairOverlaps(left: Claim, right: Claim) {
    ContextsOverlap(left.context, right.context) && ValidityOverlaps(left.validity, right.validity)
  }

  // ---------------------------------------------------------------- aggregate applicability

  /** Every candidate agrees with every other on each context dimension both name. */
  ghost predicate ContextsAgree(claims: seq<Claim>) {
    forall i, j :: 0 <= i < |claims| && 0 <= j < |claims| ==>
                     ContextsOverlap(claims[i].context, claims[j].context)
  }

  ghost predicate StartsBelowEnds(claims: seq<Claim>) {
    forall i, j :: 0 <= i < |claims| && 0 <= j < |claims| ==>
                     StartBelowEnd(claims[i], claims[j])
  }

  predicate StartBelowEnd(a: Claim, b: Claim) {
    var s, e := ValidityBounds(a.validity).from, ValidityBounds(b.validity).until;
    s.Some? && e.Some? ==> s.value < e.value
  }

  /** Merges one claim's context into the values seen so far, stopping at a second value. */
  method NoteContext(seen: Context, context: Context) returns (seen': Context, clash: bool)
    ensures clash <==> !ContextsOverlap(seen, context)
    ensures !clash ==> seen' == seen + context
  {
    seen', clash := seen, false;
    var todo := context.Keys;
    while todo != {}
      invariant todo <= context.Keys
      invariant !clash
      invariant forall k :: k in context.Keys - todo && k in seen ==> seen[k] == context[k]
      invariant seen' == seen + (map k | k in context && k !in todo :: context[k])
      decreases |todo|
    {
      var name :| name in todo;
      todo := todo - {name};
      if name in seen' && seen'[name] != context[name] {
        clash := true;
        return;
      }
      seen' := seen'[name := context[name]];
    }
    assert (map k | k in context && k !in todo :: context[k]) == context;
  }

  ghost function MergedContext(claims: seq<Claim>): Context {
    if claims == [] then map[] else MergedContext(claims[..|claims| - 1]) + claims[|claims| - 1].context
  }

  lemma {:induction false} MergedContextCovers(claims: seq<Claim>)
    requires ContextsAgree(claims)
    ensures forall c, k :: c in claims && k in c.context ==>
              k in MergedContext(claims) && MergedContext(claims)[k] == c.context[k]
    ensures forall k :: k in MergedContext(claims) ==> exists c :: c in claims && k in c.context
  {
    if claims != [] {
      var front, last := claims[..|claims| - 1], claims[|claims| - 1];
      MergedContextCovers(front);
      assert claims == front + [last];
      forall c, k | c in claims && k in c.context
        ensures k in MergedContext(claims) && MergedContext(claims)[k] == c.context[k]
      {
        assert ContextsOverlap(c.context, last.context);
      }
    }
  }

  lemma NoClash(claims: seq<Claim>, i: nat)
    requires i < |claims| && ContextsAgree(claims[..i])
    requires ContextsOverlap(MergedContext(claims[..i]), claims[i].context)
    ensures ContextsAgree(claims[..i + 1])
    ensures MergedContext(claims[..i + 1]) == MergedContext(claims[..i]) + claims[i].context
  {
    var front, next := claims[..i], claims[..i + 1];
    MergedContextCovers(front);
    assert next == front + [claims[i]] && next[..i] == front;
    forall j | 0 <= j < i
      ensures ContextsOverlap(next[j].context, next[i].context) && ContextsOverlap(next[i].context, next[j].context)
    {
      assert front[j] in front;
    }
    assert forall j, k :: 0 <= j < i && 0 <= k < i ==> ContextsOverlap(front[j].context, front[k].context);
  }

  lemma Clash(claims: seq<Claim>, i: nat)
    requires i < |claims| && ContextsAgree(claims[..i])
    requires !ContextsOverlap(MergedContext(claims[..i]), claims[i].context)
    ensures !ContextsAgree(claims)
  {
    var seen, front := MergedContext(claims[..i]), claims[..i];
    MergedContextCovers(front);
    var k :| k in seen && k in claims[i].context && seen[k] != claims[i].context[k];
    var c :| c in front && k in c.context;
    var j :| 0 <= j < i && front[j] == c;
    assert !ContextsOverlap(claims[j].context, claims[i].context);
  }

  /** The first loop of `_has_aggregate_applicability`: some context dimension takes two values. */
  method ContextsClash(claims: seq<Claim>) returns (clash: bool)
    ensures clash <==> !ContextsAgree(claims)
  {
    var seen: Context := map[];
    for i := 0 to |claims|
      invariant ContextsAgree(claims[..i])
      invariant seen == MergedContext(claims[..i])
    {
      var seen', clashes := NoteContext(seen, claims[i].context);
      if clashes {
        Clash(claims, i);
        return true;
      }
      NoClash(claims, i);
      seen := seen';
    }
    assert claims[..|claims|] == claims;
    return false;
  }

  /** `_has_aggregate_applicability`: no single instant and context makes every candidate apply. */
  method HasAggregateApplicability(claims: seq<Claim>) returns (aggregate: bool)
    ensures aggregate <==> Aggregate(claims)
  {
    var clash := ContextsClash(claims);
    if clash { return true; }
    var start: Option<Time>, end: Option<Time> := None, None;
    for i := 0 to |claims|
      invariant forall j :: 0 <= j < i && ValidityBounds(claims[j].validity).from.Some? ==>
                  start.Some? && ValidityBounds(claims[j].validity).from.value <= start.value
      invariant start.Some? ==> exists j :: 0 <= j < i && ValidityBounds(claims[j].validity).from == start
      invariant forall j :: 0 <= j < i && ValidityBounds(claims[j].validity).until.Some? ==>
                  end.Some? && end.value <= ValidityBounds(claims[j].validity).until.value
      invariant end.Some? ==> exists j :: 0 <= j < i && ValidityBounds(claims[j].validity).until == end
    {
      var b := ValidityBounds(claims[i].validity);
      if b.from.Some? && (start.None? || start.value < b.from.value) {
        start := b.from;
      }
      if b.until.Some? && (end.None? || b.until.value < end.value) {
        end := b.until;
      }
    }
    aggregate := start.Some? && end.Some? && start.value >= end.value;
    if aggregate {
      var i :| 0 <= i < |claims| && ValidityBounds(claims[i].validity).from == start;
      var j :| 0 <= j < |claims| && ValidityBounds(claims[j].validity).until == end;
      assert !StartBelowEnd(claims[i], claims[j]);
    }
  }

  ghost predicate Aggregate(claims: seq<Claim>) {
    !ContextsAgree(claims) || !StartsBelowEnds(claims)
  }

  // ---------------------------------------------------------------- what the tests mean

  ghost predicate ApplyTogether(claims: seq<Claim>) {
    exists t: Time, context: Context :: AllApplyAt(claims, t, context)
  }

  ghost predicate AllApplyAt(claims: seq<Claim>, t: Time, context: Context) {
    forall i :: 0 <= i < |claims| ==> AppliesAt(claims[i], t, context)
  }

  /** The latest start, or failing one an instant before every end. */
  lemma {:induction false} CommonInstant(claims: seq<Claim>) returns (t: Time)
    requires StartsBelowEnds(claims)
    ensures forall i :: 0 <= i < |claims| ==> Contains(ValidityBounds(claims[i].validity), t)
    ensures (exists i :: 0 <= i < |claims| && ValidityBounds(claims[i].validity).from == Some(t))
            || (forall i :: 0 <= i < |claims| ==> ValidityBounds(claims[i].validity).from.None?)
  {
    t := 0;
    if claims != [] {
      var front, last := claims[..|claims| - 1], claims[|claims| - 1];
      assert claims == front + [last];
      forall i, j | 0 <= i < |front| && 0 <= j < |front| ensures StartBelowEnd(front[i], front[j]) {
        assert StartBelowEnd(claims[i], claims[j]);
      }
      var t' := CommonInstant(front);
      var b := ValidityBounds(last.validity);
      forall i | 0 <= i < |claims| ensures StartBelowEnd(claims[i], last) && StartBelowEnd(last, claims[i]) {
      }
      if forall i :: 0 <= i < |front| ==> ValidityBounds(front[i].validity).from.None? {
        t := if b.from.Some? then b.from.value
             else if b.until.Some? then Min(t', b.until.value - 1) else t';
      } else {
        t := if b.from.Some? then Max(t', b.from.value) else t';
        var k :| 0 <= k < |front| && ValidityBounds(front[k].validity).from == Some(t');
        assert claims[k] == front[k];
        assert claims[|claims| - 1] == last;
      }
      forall i | 0 <= i < |claims| ensures Contains(ValidityBounds(claims[i].validity), t) {
        assert i < |front| ==> claims[i] == front[i] && Contains(ValidityBounds(front[i].validity), t');
      }
    }
  }

  lemma NotAggregateApplies(claims: seq<Claim>)
    requires !Aggregate(claims)
    ensures ApplyTogether(claims)
  {
    var t := CommonInstant(claims);
    var context := MergedContext(claims);
    MergedContextCovers(claims);
    forall i | 0 <= i < |claims| ensures AppliesAt(claims[i], t, context) {
      assert claims[i] in claims;
      AppliesAtMeaning(claims[i], t, context);
    }
    assert AllApplyAt(claims, t, context);
  }

  /** A finding is not marked aggregate exactly when one instant and one context, covering every
      dimension the candidates name, make all of them apply. */
  lemma AggregateMeaning(claims: seq<Claim>)
    ensures Aggregate(claims) <==> !ApplyTogether(claims)
  {
    if !Aggregate(claims) {
      NotAggregateApplies(claims);
    }
    if ApplyTogether(claims) {
      var t, context :| AllApplyAt(claims, t, context);
      forall i, j | 0 <= i < |claims| && 0 <= j < |claims|
        ensures ContextsOverlap(claims[i].context, claims[j].context) && StartBelowEnd(claims[i], claims[j])
      {
        assert AppliesAt(claims[i], t, context) && AppliesAt(claims[j], t, context);
        AppliesAtMeaning(claims[i], t, context);
        AppliesAtMeaning(claims[j], t, context);
      }
    }
  }

  /** Two claims overlap exactly when some instant and some context covering both make both apply. */
  lemma PairOverlapMeaning(left: Claim, right: Claim)
    ensures PairOverlaps(left, right) <==> ApplyTogether([left, right])
    ensures PairOverlaps(left, right) == PairOverlaps(right, left)
  {
    var claims := [left, right];
    AggregateMeaning(claims);
    if !Aggregate(claims) {
      assert ContextsOverlap(claims[0].context, claims[1].context);
      assert StartBelowEnd(claims[0], claims[0]) && StartBelowEnd(claims[0], claims[1]);
      assert StartBelowEnd(claims[1], claims[0]) && StartBelowEnd(claims[1], claims[1]);
    }
  }

  /** One-dimensional Helly: for two or more candidates, pairwise overlap is joint applicability. */
  lemma Helly(claims: seq<Claim>)
    requires |claims| >= 2
    ensures !Aggregate(claims) <==>
              forall i, j :: 0 <= i < j < |claims| ==> PairOverlaps(claims[i], claims[j])
  {
    if forall i, j :: 0 <= i < j < |claims| ==> PairOverlaps(claims[i], claims[j]) {
      forall i, j | 0 <= i < |claims| && 0 <= j < |claims|
        ensures ContextsOverlap(claims[i].context, claims[j].context) && StartBelowEnd(claims[i], claims[j])
      {
        if i < j {
          assert PairOverlaps(claims[i], claims[j]);
        } else if j < i {
          assert PairOverlaps(claims[j], claims[i]);
        } else {
          var other := if i == 0 then 1 else 0;
          assert PairOverlaps(claims[if i < other then i else other], claims[if i < other then other else i]);
        }
      }
    }
    if !Aggregate(claims) {
      forall i, j | 0 <= i < j < |claims| ensures PairOverlaps(claims[i], claims[j]) {
        assert StartBelowEnd(claims[i], claims[i]) && StartBelowEnd(claims[i], claims[j]);
        assert StartBelowEnd(claims[j], claims[i]) && StartBelowEnd(claims[j], claims[j]);
      }
    }
  }
}
