/** Ordering-based resolvers: the vector clock order and the claim each resolver selects. */
module Causal {
  import opened Basics
  import opened Model

  /** What the caller asserts; `concurrent` is `None` when nothing was said about concurrency. */
  datatype ResolutionContext = ResolutionContext(
    timestampsTrusted: bool,
    concurrent: Option<bool>,
    replacementSemantics: bool,
    causalMetadataTrusted: bool)

  datatype Reason =
    | TypeNotAccepted
    | NoReplacementSemantics
    | NotTrusted
    | Concurrent
    | TooFewCandidates
    | MissingMetadata
    | DifferentBranches
    | TimestampTie

  datatype ResolutionResult =
    | SelectedState(selected: Claim)
    | UnresolvedConflict(maximalIds: set<Id>)
    | Abstention(reason: Reason)

  // ---------------------------------------------------------------- vector clocks

  type Clock = map<string, nat>

  predicate IsCounter(value: Json) {
    value.Number? && value.n >= 0.0 && value.n == value.n.Floor as real
  }

  predicate IsClock(value: Json) {
    value.Object? && value.fields != map[]
    && forall replica :: replica in value.fields ==> replica != "" && IsCounter(value.fields[replica])
  }

  function VectorClock(claim: Claim): Option<Clock> {
    if "vector_clock" in claim.provenance && IsClock(claim.provenance["vector_clock"]) then
      var fields := claim.provenance["vector_clock"].fields;
      Some(map replica | replica in fields :: fields[replica].n.Floor)
    else None
  }

  /** A missing entry counts as zero. */
  function At(clock: Clock, replica: string): nat {
    if replica in clock then clock[replica] else 0
  }

  predicate Dominates(left: Clock, right: Clock) {
    var replicas := left.Keys + right.Keys;
    (forall replica :: replica in replicas ==> At(left, replica) >= At(right, replica))
    && exists replica :: replica in replicas && At(left, replica) > At(right, replica)
  }

  /** Dominance is the strict pointwise order on clocks read as functions on every replica name. */
  lemma DominatesPointwise(left: Clock, right: Clock)
    ensures Dominates(left, right) <==>
            (forall replica :: At(left, replica) >= At(right, replica))
            && exists replica :: At(left, replica) != At(right, replica)
  {
    if Dominates(left, right) {
      forall replica ensures At(left, replica) >= At(right, replica) {
        if replica !in left.Keys + right.Keys {
          assert At(left, replica) == At(right, replica) == 0;
        }
      }
    }
    if (forall replica :: At(left, replica) >= At(right, replica))
       && exists replica :: At(left, replica) != At(right, replica) {
      var replica :| At(left, replica) != At(right, replica);
      assert replica in left.Keys + right.Keys && At(left, replica) > At(right, replica);
    }
  }

  lemma DominanceIsStrict(a: Clock, b: Clock)
    ensures Dominates(a, b) ==> !Dominates(b, a)
    ensures !Dominates(a, a)
  {
  }

  lemma DominanceIsTransitive(a: Clock, b: Clock, c: Clock)
    requires Dominates(a, b) && Dominates(b, c)
    ensures Dominates(a, c)
  {
    DominatesPointwise(a, b);
    DominatesPointwise(b, c);
    DominatesPointwise(a, c);
    var replica :| At(a, replica) != At(b, replica);
    assert At(a, replica) > At(b, replica) >= At(c, replica);
  }

  // ---------------------------------------------------------------- maximal elements

  predicate IsMaximal(clocks: seq<Clock>, i: nat)
    requires i < |clocks|
  {
    !exists j :: 0 <= j < |clocks| && j != i && Dominates(clocks[j], clocks[i])
  }

  ghost predicate DominatesOthers(clocks: seq<Clock>, i: nat) {
    i < |clocks| && forall j :: 0 <= j < |clocks| && j != i ==> Dominates(clocks[i], clocks[j])
  }

  /** The positions that no other clock dominates. */
  function Maxima(clocks: seq<Clock>): set<nat> {
    set i: nat | i < |clocks| && IsMaximal(clocks, i)
  }

  /** Climbing from any clock reaches a maximal one: each step up leaves the visited set behind. */
  lemma {:induction false} ClimbToMaximal(clocks: seq<Clock>, start: nat, above: set<nat>) returns (top: nat)
    requires start < |clocks|
    requires forall j: nat :: j < |clocks| && Dominates(clocks[j], clocks[start]) ==> j in above
    ensures top < |clocks| && IsMaximal(clocks, top)
    ensures top == start || Dominates(clocks[top], clocks[start])
    decreases above
  {
    top := start;
    if !IsMaximal(clocks, start) {
      var j: nat :| j < |clocks| && j != start && Dominates(clocks[j], clocks[start]);
      DominanceIsStrict(clocks[j], clocks[j]);
      forall k: nat | k < |clocks| && Dominates(clocks[k], clocks[j]) ensures k in above - {j} {
        DominanceIsTransitive(clocks[k], clocks[j], clocks[start]);
      }
      top := ClimbToMaximal(clocks, j, above - {j});
      if top != j {
        DominanceIsTransitive(clocks[top], clocks[j], clocks[start]);
      }
    }
  }

  function Positions(clocks: seq<Clock>): set<nat> { set k: nat {:trigger clocks[k]} | k < |clocks| }

  /** A single maximal element dominates every other one, and conversely. */
  lemma UniqueMaximalDominates(clocks: seq<Clock>, i: nat)
    ensures Maxima(clocks) == {i} <==> DominatesOthers(clocks, i)
  {
    if Maxima(clocks) == {i} {
      assert i in Maxima(clocks);
      forall j | 0 <= j < |clocks| && j != i ensures Dominates(clocks[i], clocks[j]) {
        var top := ClimbToMaximal(clocks, j, Positions(clocks));
        assert top in Maxima(clocks);
      }
    }
    if DominatesOthers(clocks, i) {
      forall m: nat | m < |clocks| ensures m in Maxima(clocks) <==> m == i {
        DominatedElsewhere(clocks, i, m);
      }
    }
  }

  lemma DominatedElsewhere(clocks: seq<Clock>, i: nat, m: nat)
    requires DominatesOthers(clocks, i) && m < |clocks|
    ensures IsMaximal(clocks, m) <==> m == i
  {
    if m != i {
      assert Dominates(clocks[i], clocks[m]);
    } else {
      forall j | 0 <= j < |clocks| && j != i ensures !Dominates(clocks[j], clocks[i]) {
        DominanceIsStrict(clocks[i], clocks[j]);
      }
    }
  }

  // ---------------------------------------------------------------- the causal resolver

  predicate CausallyAsserted(accepted: set<Name>, conflict: ConflictSet, context: ResolutionContext) {
    conflict.conflictType in accepted && context.replacementSemantics && context.causalMetadataTrusted
    && |conflict.candidates| >= 2
  }

  predicate ClocksValid(candidates: seq<Claim>) {
    forall i :: 0 <= i < |candidates| ==> VectorClock(candidates[i]).Some?
  }

  function ClocksOf(candidates: seq<Claim>): seq<Clock>
    requires ClocksValid(candidates)
  {
    seq(|candidates|, i requires 0 <= i < |candidates| => VectorClock(candidates[i]).value)
  }

  /** The claim at position `i` strictly dominates every other candidate. */
  ghost predicate IsDominant(candidates: seq<Claim>, i: nat)
    requires ClocksValid(candidates)
  {
    i < |candidates|
    && forall j :: 0 <= j < |candidates| && j != i ==>
         Dominates(VectorClock(candidates[i]).value, VectorClock(candidates[j]).value)
  }

  /** No other candidate strictly dominates the one at position `i`. */
  ghost predicate IsUndominated(candidates: seq<Claim>, i: nat)
    requires ClocksValid(candidates) && i < |candidates|
  {
    forall j :: 0 <= j < |candidates| ==>
      !Dominates(VectorClock(candidates[j]).value, VectorClock(candidates[i]).value)
  }

  lemma DominantMeans(candidates: seq<Claim>, i: nat)
    requires ClocksValid(candidates) && i < |candidates|
    ensures IsDominant(candidates, i) <==> DominatesOthers(ClocksOf(candidates), i)
    ensures IsUndominated(candidates, i) <==> IsMaximal(ClocksOf(candidates), i)
  {
    var clocks := ClocksOf(candidates);
    assert forall j :: 0 <= j < |candidates| ==> clocks[j] == VectorClock(candidates[j]).value;
    DominanceIsStrict(clocks[i], clocks[i]);
  }

  ghost function UndominatedIds(candidates: seq<Claim>): set<Id>
    requires ClocksValid(candidates)
  {
    set i | 0 <= i < |candidates| && IsUndominated(candidates, i) :: candidates[i].id
  }

  /** The counter a claim's provenance gives for a replica, zero where it gives none. */
  ghost function Counter(c: Claim, replica: string): real {
    if "vector_clock" in c.provenance && c.provenance["vector_clock"].Object? && replica in c.provenance["vector_clock"].fields
       && c.provenance["vector_clock"].fields[replica].Number?
    then c.provenance["vector_clock"].fields[replica].n else 0.0
  }

  /** No counter is smaller, and some is greater. */
  ghost predicate Ahead(a: Claim, b: Claim) {
    (forall replica :: Counter(a, replica) >= Counter(b, replica)) && exists replica :: Counter(a, replica) > Counter(b, replica)
  }

  ghost predicate AheadOfAll(candidates: seq<Claim>, i: nat) {
    i < |candidates| && forall j :: 0 <= j < |candidates| && j != i ==> Ahead(candidates[i], candidates[j])
  }

  ghost predicate NotBehind(candidates: seq<Claim>, i: nat)
    requires i < |candidates|
  {
    forall j :: 0 <= j < |candidates| ==> !Ahead(candidates[j], candidates[i])
  }

  /** A non-empty clock of whole counters, none negative, for named replicas. */
  ghost predicate Clocked(c: Claim) {
    "vector_clock" in c.provenance && c.provenance["vector_clock"].Object? && c.provenance["vector_clock"].fields != map[]
    && forall replica :: replica in c.provenance["vector_clock"].fields ==>
         var counter := c.provenance["vector_clock"].fields[replica];
         replica != "" && counter.Number? && counter.n >= 0.0 && counter.n.Floor as real == counter.n
  }

  lemma ClockRead(c: Claim)
    ensures VectorClock(c).Some? <==> Clocked(c)
    ensures VectorClock(c).Some? ==> forall replica :: At(VectorClock(c).value, replica) as real == Counter(c, replica)
  {
  }

  lemma AheadExactly(a: Claim, b: Claim)
    requires VectorClock(a).Some? && VectorClock(b).Some?
    ensures Dominates(VectorClock(a).value, VectorClock(b).value) <==> Ahead(a, b)
  {
    ClockRead(a);
    ClockRead(b);
    var l, r := VectorClock(a).value, VectorClock(b).value;
    DominatesPointwise(l, r);
    hide VectorClock;
    hide Dominates;
    hide Counter;
    hide At;
    forall replica ensures (At(l, replica) >= At(r, replica) <==> Counter(a, replica) >= Counter(b, replica))
                           && (At(l, replica) > At(r, replica) <==> Counter(a, replica) > Counter(b, replica)) {
      assert At(l, replica) as real == Counter(a, replica) && At(r, replica) as real == Counter(b, replica);
    }
    if Ahead(a, b) {
      var replica :| Counter(a, replica) > Counter(b, replica);
      assert At(l, replica) != At(r, replica);
    }
    if (forall replica :: At(l, replica) >= At(r, replica)) && exists replica :: At(l, replica) != At(r, replica) {
      var replica :| At(l, replica) != At(r, replica);
      assert Counter(a, replica) > Counter(b, replica);
    }
  }

  lemma SelectionExactly(candidates: seq<Claim>)
    requires ClocksValid(candidates)
    ensures forall i: nat :: IsDominant(candidates, i) <==> AheadOfAll(candidates, i)
    ensures forall i: nat :: i < |candidates| ==> (IsUndominated(candidates, i) <==> NotBehind(candidates, i))
  {
    forall i, j | 0 <= i < |candidates| && 0 <= j < |candidates|
      ensures Dominates(VectorClock(candidates[i]).value, VectorClock(candidates[j]).value) <==> Ahead(candidates[i], candidates[j])
    {
      AheadExactly(candidates[i], candidates[j]);
    }
    hide VectorClock;
    hide Dominates;
    hide Ahead;
  }

  lemma AllClocked(candidates: seq<Claim>)
    ensures ClocksValid(candidates) <==> forall i :: 0 <= i < |candidates| ==> Clocked(candidates[i])
  {
    forall i | 0 <= i < |candidates| ensures VectorClock(candidates[i]).Some? <==> Clocked(candidates[i]) { ClockRead(candidates[i]); }
    hide VectorClock;
    hide Clocked;
  }

  /** What the resolver answers, by the counters in the provenance of the candidates: it selects the
      one candidate ahead of all others, and reports those that none is ahead of when there is none. */
  ghost predicate AnswersCausally(r: ResolutionResult, accepted: set<Name>, conflict: ConflictSet, context: ResolutionContext) {
    var asserted := conflict.conflictType in accepted && context.replacementSemantics && context.causalMetadataTrusted
                    && |conflict.candidates| >= 2 && forall i :: 0 <= i < |conflict.candidates| ==> Clocked(conflict.candidates[i]);
    && (r.Abstention? <==> !asserted)
    && (asserted ==> (r.SelectedState? <==> exists i: nat :: AheadOfAll(conflict.candidates, i)))
    && (asserted ==> forall i: nat :: AheadOfAll(conflict.candidates, i) ==> r.SelectedState? && r.selected == conflict.candidates[i])
    && (r.UnresolvedConflict? ==>
          forall id :: id in r.maximalIds <==>
            exists i :: 0 <= i < |conflict.candidates| && conflict.candidates[i].id == id && NotBehind(conflict.candidates, i))
  }

  /** `CausalResolver.resolve`: it selects a candidate if and only if the caller made the assertions,
      every clock is valid and that candidate's counters are ahead of every other's. */
  method ResolveCausally(accepted: set<Name>, conflict: ConflictSet, context: ResolutionContext)
    returns (r: ResolutionResult)
    ensures AnswersCausally(r, accepted, conflict, context)
  {
    r := ResolveByClocks(accepted, conflict, context);
    Answered(r, accepted, conflict, context);
  }

  lemma Answered(r: ResolutionResult, accepted: set<Name>, conflict: ConflictSet, context: ResolutionContext)
    requires r.Abstention? <==> !(CausallyAsserted(accepted, conflict, context) && ClocksValid(conflict.candidates))
    requires !r.Abstention? ==>
              (r.SelectedState? <==> exists i: nat :: IsDominant(conflict.candidates, i))
              && forall i: nat :: IsDominant(conflict.candidates, i) ==> r.selected == conflict.candidates[i]
    requires r.UnresolvedConflict? ==> r.maximalIds == UndominatedIds(conflict.candidates)
    ensures AnswersCausally(r, accepted, conflict, context)
  {
    AllClocked(conflict.candidates);
    if !r.Abstention? { SelectionExactly(conflict.candidates); }
    hide ClocksValid;
    hide Clocked;
    hide IsDominant;
    hide AheadOfAll;
    hide NotBehind;
    hide IsUndominated;
  }

  /** The same, by the clocks it reads and their dominance. */
  method ResolveByClocks(accepted: set<Name>, conflict: ConflictSet, context: ResolutionContext)
    returns (r: ResolutionResult)
    ensures r.Abstention? <==> !(CausallyAsserted(accepted, conflict, context) && ClocksValid(conflict.candidates))
    ensures !r.Abstention? ==>
              (r.SelectedState? <==> exists i: nat :: IsDominant(conflict.candidates, i))
              && forall i: nat :: IsDominant(conflict.candidates, i) ==> r.selected == conflict.candidates[i]
    ensures r.UnresolvedConflict? ==> r.maximalIds == UndominatedIds(conflict.candidates)
  {
    if conflict.conflictType !in accepted { return Abstention(TypeNotAccepted); }
    if !context.replacementSemantics { return Abstention(NoReplacementSemantics); }
    if !context.causalMetadataTrusted { return Abstention(NotTrusted); }
    var candidates := conflict.candidates;
    if |candidates| < 2 { return Abstention(TooFewCandidates); }

    var clocks: seq<Clock> := [];
    var next := 0;
    while next < |candidates|
      invariant 0 <= next <= |candidates| && |clocks| == next
      invariant forall i :: 0 <= i < next ==> VectorClock(candidates[i]) == Some(clocks[i])
    {
      var clock := VectorClock(candidates[next]);
      if clock.None? { return Abstention(MissingMetadata); }
      clocks := clocks + [clock.value];
      next := next + 1;
    }
    assert clocks == ClocksOf(candidates);

    var maximal := Maxima(clocks);
    DecidesSelection(candidates);
    if |maximal| != 1 {
      r := UnresolvedConflict(set i | i in maximal :: candidates[i].id);
      UndominatedListed(candidates);
    } else {
      var i :| i in maximal;
      r := SelectedState(candidates[i]);
      Singleton(maximal, i);
    }
  }

  lemma Singleton<T>(s: set<T>, x: T)
    requires x in s && |s| == 1
    ensures s == {x}
  {
    assert |s - {x}| == 0;
  }

  lemma DecidesSelection(candidates: seq<Claim>)
    requires ClocksValid(candidates)
    ensures forall i: nat :: IsDominant(candidates, i) <==> Maxima(ClocksOf(candidates)) == {i}
  {
    var clocks := ClocksOf(candidates);
    forall i: nat ensures IsDominant(candidates, i) <==> Maxima(clocks) == {i} {
      UniqueMaximalDominates(clocks, i);
      if i < |candidates| {
        DominantMeans(candidates, i);
      }
    }
  }

  lemma UndominatedListed(candidates: seq<Claim>)
    requires ClocksValid(candidates)
    ensures (set i | i in Maxima(ClocksOf(candidates)) :: candidates[i].id) == UndominatedIds(candidates)
  {
    hide Dominates;
    hide VectorClock;
    forall i: nat | i < |candidates|
      ensures IsUndominated(candidates, i) <==> i in Maxima(ClocksOf(candidates))
    {
      DominantMeans(candidates, i);
    }
  }

  /** The selected claim does not depend on the order in which the candidates are listed. */
  lemma SelectionIgnoresOrder(a: seq<Claim>, b: seq<Claim>, i: nat, j: nat)
    requires Elements(a) == Elements(b) && NoDuplicates(b)
    requires ClocksValid(a) && ClocksValid(b)
    requires IsDominant(a, i) && j < |b| && b[j] == a[i]
    ensures IsDominant(b, j)
  {
    forall k | 0 <= k < |b| && k != j
      ensures Dominates(VectorClock(b[j]).value, VectorClock(b[k]).value)
    {
      assert b[k] in Elements(a);
      var l :| 0 <= l < |a| && a[l] == b[k];
      assert l != i;
    }
  }

  // ---------------------------------------------------------------- latest write wins

  /** How metadata strings are read: a branch identifier that is blank is refused. */
  datatype Reading = Reading(blank: string -> bool, parse: Claim -> Option<Time>)

  predicate HasBranch(reading: Reading, claim: Claim) {
    "branch_id" in claim.provenance && claim.provenance["branch_id"].Text?
    && !reading.blank(claim.provenance["branch_id"].s)
  }

  predicate OrderAsserted(accepted: set<Name>, conflict: ConflictSet, context: ResolutionContext) {
    conflict.conflictType in accepted && context.replacementSemantics && context.timestampsTrusted
    && context.concurrent == Some(false) && |conflict.candidates| >= 2
  }

  function BranchOf(reading: Reading, claim: Claim): Json {
    if HasBranch(reading, claim) then claim.provenance["branch_id"] else Null
  }

  ghost predicate OneBranch(reading: Reading, candidates: seq<Claim>) {
    (forall i :: 0 <= i < |candidates| ==> HasBranch(reading, candidates[i]))
    && forall i, j :: 0 <= i < j < |candidates| ==>
         candidates[i].provenance["branch_id"] == candidates[j].provenance["branch_id"]
  }

  ghost predicate TimesDistinct(reading: Reading, candidates: seq<Claim>) {
    (forall i :: 0 <= i < |candidates| ==> reading.parse(candidates[i]).Some?)
    && forall i, j :: 0 <= i < j < |candidates| ==>
         reading.parse(candidates[i]) != reading.parse(candidates[j])
  }

  /** `LatestWriteWinsResolver.resolve`: it either abstains or selects the one candidate written
      strictly later than every other one. */
  method ResolveLatest(accepted: set<Name>, conflict: ConflictSet, context: ResolutionContext, reading: Reading)
    returns (r: ResolutionResult)
    ensures !r.UnresolvedConflict?
    ensures r.SelectedState? <==>
              OrderAsserted(accepted, conflict, context)
              && OneBranch(reading, conflict.candidates) && TimesDistinct(reading, conflict.candidates)
    ensures r.SelectedState? ==>
              exists i: nat :: IsLatest(reading, conflict.candidates, i) && r.selected == conflict.candidates[i]
  {
    if conflict.conflictType !in accepted { return Abstention(TypeNotAccepted); }
    if !context.replacementSemantics { return Abstention(NoReplacementSemantics); }
    if !context.timestampsTrusted { return Abstention(NotTrusted); }
    if context.concurrent != Some(false) { return Abstention(Concurrent); }
    var candidates := conflict.candidates;
    if |candidates| < 2 { return Abstention(TooFewCandidates); }

    r := SelectLatest(candidates, reading);
  }

  /** The candidate at position `i` is the only one written at its time or later. */
  ghost predicate IsLatest(reading: Reading, candidates: seq<Claim>, i: nat) {
    i < |candidates| && reading.parse(candidates[i]).Some?
    && forall j :: 0 <= j < |candidates| && j != i ==>
         reading.parse(candidates[j]).Some?
         && reading.parse(candidates[j]).value < reading.parse(candidates[i]).value
  }

  method SelectLatest(candidates: seq<Claim>, reading: Reading) returns (r: ResolutionResult)
    requires |candidates| >= 2
    ensures !r.UnresolvedConflict?
    ensures r.SelectedState? <==> OneBranch(reading, candidates) && TimesDistinct(reading, candidates)
    ensures r.SelectedState? ==> exists i: nat :: IsLatest(reading, candidates, i) && r.selected == candidates[i]
  {
    var branches := Branches(candidates, reading);
    if branches.ValueError? { return Abstention(MissingMetadata); }
    if |branches.value| != 1 { return Abstention(DifferentBranches); }
    r := LatestOf(candidates, reading);
  }

  method Branches(candidates: seq<Claim>, reading: Reading) returns (r: Result<set<Json>>)
    requires |candidates| > 0
    ensures r.Ok? <==> forall i :: 0 <= i < |candidates| ==> HasBranch(reading, candidates[i])
    ensures r.Ok? ==> (|r.value| == 1 <==> OneBranch(reading, candidates))
  {
    var branches: set<Json> := {};
    var next := 0;
    while next < |candidates|
      invariant 0 <= next <= |candidates|
      invariant forall i :: 0 <= i < next ==> HasBranch(reading, candidates[i])
      invariant forall i :: 0 <= i < next ==> BranchOf(reading, candidates[i]) in branches
      invariant forall b :: b in branches ==> exists i :: 0 <= i < next && BranchOf(reading, candidates[i]) == b
    {
      if !HasBranch(reading, candidates[next]) { return ValueError; }
      branches := branches + {BranchOf(reading, candidates[next])};
      next := next + 1;
    }
    OneMeansEqual(branches, BranchOf(reading, candidates[0]));
    r := Ok(branches);
  }

  method LatestOf(candidates: seq<Claim>, reading: Reading) returns (r: ResolutionResult)
    requires |candidates| > 0
    ensures !r.UnresolvedConflict?
    ensures r.SelectedState? <==> TimesDistinct(reading, candidates)
    ensures r.SelectedState? ==> exists i: nat :: IsLatest(reading, candidates, i) && r.selected == candidates[i]
  {
    var times: seq<Time> := [];
    var latest := 0;
    var next := 0;
    while next < |candidates|
      invariant 0 <= next <= |candidates| && |times| == next
      invariant next > 0 ==> 0 <= latest < next
      invariant next == 0 ==> latest == 0
      invariant forall i :: 0 <= i < next ==> reading.parse(candidates[i]) == Some(times[i])
      invariant forall i, j :: 0 <= i < j < next ==> times[i] != times[j]
      invariant forall i :: 0 <= i < next && i != latest ==> times[i] < times[latest]
    {
      var time := reading.parse(candidates[next]);
      if time.None? { return Abstention(MissingMetadata); }
      if exists i :: 0 <= i < |times| && times[i] == time.value { return Abstention(TimestampTie); }
      if next > 0 && time.value > times[latest] {
        latest := next;
      }
      times := times + [time.value];
      next := next + 1;
    }
    r := SelectedState(candidates[latest]);
    assert IsLatest(reading, candidates, latest);
  }

  lemma OneMeansEqual<T>(s: set<T>, x: T)
    requires x in s
    ensures |s| == 1 <==> forall y :: y in s ==> y == x
  {
    if forall y :: y in s ==> y == x { assert s == {x}; }
    if |s| == 1 { Singleton(s, x); }
  }
}
