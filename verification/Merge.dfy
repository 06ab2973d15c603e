/** Merging two logs: the strict merge is a partial join of operation sets; the checked merges are
    total and sort every incoming operation into added, duplicate or quarantined. */
module Merge {
  import opened Basics
  import opened Model
  import opened Records
  import opened OpLogs

  // ---------------------------------------------------------------- the partial join

  /** Sets of operations join when no identifier carries two payloads. */
  ghost function JoinOf(a: set<Op>, b: set<Op>): Result<set<Op>> {
    if UniqueOps(a + b) then Ok(a + b) else ValueError
  }

  ghost function ThenJoin(a: Result<set<Op>>, b: set<Op>): Result<set<Op>> {
    if a.Ok? then JoinOf(a.value, b) else ValueError
  }

  lemma JoinCommutes(a: set<Op>, b: set<Op>)
    ensures JoinOf(a, b) == JoinOf(b, a)
  {
    assert a + b == b + a;
  }

  /** Definedness and result do not depend on how three logs are bracketed. */
  lemma JoinAssociates(a: set<Op>, b: set<Op>, c: set<Op>)
    ensures ThenJoin(JoinOf(a, b), c) == ThenJoin(JoinOf(b, c), a)
    ensures ThenJoin(JoinOf(a, b), c).Ok? <==> UniqueOps(a + b + c)
  {
    assert (a + b) + c == (b + c) + a;
    if UniqueOps(a + b + c) {
      UniqueSubset(a + b, a + b + c);
      UniqueSubset(b + c, a + b + c);
    }
  }

  lemma JoinIdempotent(a: set<Op>, b: set<Op>)
    requires UniqueOps(a)
    ensures JoinOf(a, a) == Ok(a)
    ensures JoinOf(a, b).Ok? ==> JoinOf(JoinOf(a, b).value, b) == JoinOf(a, b)
  {
    assert a + a == a;
    assert (a + b) + b == a + b;
  }

  /** The join is the least log holding both. */
  lemma JoinLeast(a: set<Op>, b: set<Op>, c: set<Op>)
    requires UniqueOps(c) && a <= c && b <= c
    ensures JoinOf(a, b).Ok? && JoinOf(a, b).value <= c
  {
    UniqueSubset(a + b, c);
  }

  /** `merge`: fails exactly when one identifier carries two payloads. */
  method Merge(a: OpLog, b: OpLog) returns (r: Result<OpLog>)
    requires a.Valid() && b.Valid()
    ensures r.Ok? <==> JoinOf(a.Contents(), b.Contents()).Ok?
    ensures r.Ok? ==> fresh(r.value) && r.value.Valid() && Ok(r.value.Contents()) == JoinOf(a.Contents(), b.Contents())
  {
    var merged := a.Copy();
    var incoming := b.IterOps();
    ghost var start := a.Contents();
    assert Elements(incoming[..0]) == {};
    for i := 0 to |incoming|
      invariant fresh(merged) && merged.Valid()
      invariant merged.Contents() == start + Elements(incoming[..i])
    {
      PrefixStep(incoming, i);
      assert start + Elements(incoming[..i + 1]) == start + Elements(incoming[..i]) + {incoming[i]};
      var added := merged.Add(incoming[i]);
      if added.ValueError? {
        CollidingBatch(start, incoming, i);
        return ValueError;
      }
    }
    assert incoming[..|incoming|] == incoming;
    KeyedValues(merged.ops);
    r := Ok(merged);
  }

  // ---------------------------------------------------------------- checked merges

  datatype Quarantined = Quarantined(opId: Id, kept: Op, rejected: Op, reason: Name)

  const COLLISION: Name := "op_id collision with different payload"

  datatype Verdict = Added | Duplicate | Collides(kept: Op) | Refused(reason: Name)

  /** How an incoming operation is classified against the first log. */
  function VerdictOf(base: map<Id, Op>, op: Op, screen: Op -> Option<Name>): Verdict {
    if screen(op).Some? then Refused(screen(op).value)
    else if op.opId !in base then Added
    else if base[op.opId] == op then Duplicate
    else Collides(base[op.opId])
  }

  function Quarantine(op: Op, v: Verdict): Quarantined
    requires v.Collides? || v.Refused?
  {
    if v.Collides? then Quarantined(op.opId, v.kept, op, COLLISION) else Quarantined(op.opId, op, op, v.reason)
  }

  datatype Sorting = Sorting(added: seq<Op>, duplicate: seq<Op>, quarantined: seq<Quarantined>)

  function Place(s: Sorting, op: Op, v: Verdict): Sorting {
    match v
    case Added => s.(added := s.added + [op])
    case Duplicate => s.(duplicate := s.duplicate + [op])
    case Collides(_) => s.(quarantined := s.quarantined + [Quarantine(op, v)])
    case Refused(_) => s.(quarantined := s.quarantined + [Quarantine(op, v)])
  }

  /** The three lists the checked merges build, in the incoming order. */
  function SortIncoming(base: map<Id, Op>, incoming: seq<Op>, screen: Op -> Option<Name>): Sorting {
    if incoming == [] then Sorting([], [], [])
    else
      Place(SortIncoming(base, incoming[..|incoming| - 1], screen), incoming[|incoming| - 1],
            VerdictOf(base, incoming[|incoming| - 1], screen))
  }

  /** The quarantine entry of one operation: the reason, and what was kept instead. */
  ghost predicate Explains(base: map<Id, Op>, screen: Op -> Option<Name>, q: Quarantined) {
    q.opId == q.rejected.opId
    && if screen(q.rejected).Some? then q.kept == q.rejected && Some(q.reason) == screen(q.rejected)
       else q.kept in base.Values && q.kept.opId == q.opId && q.kept != q.rejected && q.reason == COLLISION
  }

  ghost predicate IsQuarantined(base: map<Id, Op>, op: Op, screen: Op -> Option<Name>) {
    screen(op).Some? || (op.opId in base && base[op.opId] != op)
  }

  function RejectedOps(qs: seq<Quarantined>): seq<Op> { seq(|qs|, i requires 0 <= i < |qs| => qs[i].rejected) }

  ghost function Contained(s: Sorting): multiset<Op> {
    multiset(s.added) + multiset(s.duplicate) + multiset(RejectedOps(s.quarantined))
  }

  lemma PlaceContains(s: Sorting, op: Op, v: Verdict)
    ensures Contained(Place(s, op, v)) == Contained(s) + multiset{op}
  {
    if v.Collides? || v.Refused? {
      assert RejectedOps(s.quarantined + [Quarantine(op, v)]) == RejectedOps(s.quarantined) + [op];
    }
  }

  /** Every incoming operation lands in exactly one of the three lists. */
  lemma {:induction false} SortingPartitions(base: map<Id, Op>, incoming: seq<Op>, screen: Op -> Option<Name>)
    ensures Contained(SortIncoming(base, incoming, screen)) == multiset(incoming)
  {
    if incoming != [] {
      var front, op := incoming[..|incoming| - 1], incoming[|incoming| - 1];
      assert incoming == front + [op];
      SortingPartitions(base, front, screen);
      PlaceContains(SortIncoming(base, front, screen), op, VerdictOf(base, op, screen));
    }
  }

  /** Each list holds what its name says, and a quarantine entry gives its reason and what was kept. */
  lemma {:induction false} SortingSound(base: map<Id, Op>, incoming: seq<Op>, screen: Op -> Option<Name>)
    requires Keyed(base)
    ensures var s := SortIncoming(base, incoming, screen);
            (forall op :: op in s.added ==> screen(op).None? && op.opId !in base)
            && (forall op :: op in s.duplicate ==> screen(op).None? && op in base.Values)
            && (forall q :: q in s.quarantined ==> IsQuarantined(base, q.rejected, screen) && Explains(base, screen, q))
  {
    KeyedValues(base);
    if incoming != [] {
      SortingSound(base, incoming[..|incoming| - 1], screen);
    }
  }

  /** The lists are mutually exclusive, so each operation's list is decided by what it is. */
  lemma ListOf(base: map<Id, Op>, incoming: seq<Op>, screen: Op -> Option<Name>, op: Op)
    requires Keyed(base) && op in incoming
    ensures var s := SortIncoming(base, incoming, screen);
            (op in s.added <==> screen(op).None? && op.opId !in base)
            && (op in s.duplicate <==> screen(op).None? && op in base.Values)
            && (op in RejectedOps(s.quarantined) <==> IsQuarantined(base, op, screen))
  {
    var s := SortIncoming(base, incoming, screen);
    KeyedValues(base);
    SortingPartitions(base, incoming, screen);
    SortingSound(base, incoming, screen);
    assert op in multiset(incoming);
    assert op in s.added || op in s.duplicate || op in RejectedOps(s.quarantined);
  }

  datatype MergeReport = MergeReport(merged: OpLog, added: seq<Id>, duplicate: seq<Id>, quarantined: seq<Quarantined>)

  /** What a report says of two logs: each operation of the second is listed by what it is, and a
      quarantine entry gives its reason and what was kept. */
  ghost predicate Reports(added: seq<Id>, duplicate: seq<Id>, quarantined: seq<Quarantined>, a: set<Op>, b: set<Op>,
                          screen: Op -> Option<Name>)
  {
    && (forall op :: op in b ==>
          (op.opId in added <==> screen(op).None? && !HoldsId(a, op.opId))
          && (op.opId in duplicate <==> screen(op).None? && op in a)
          && (op in RejectedOps(quarantined) <==> screen(op).Some? || (HoldsId(a, op.opId) && op !in a)))
    && (forall q :: q in quarantined ==> q.rejected in b && Justified(q, a, screen))
  }

  ghost predicate Justified(q: Quarantined, a: set<Op>, screen: Op -> Option<Name>) {
    q.opId == q.rejected.opId
    && if screen(q.rejected).Some? then q.kept == q.rejected && Some(q.reason) == screen(q.rejected)
       else q.kept in a && q.kept.opId == q.opId && q.kept != q.rejected && q.reason == COLLISION
  }

  lemma IdListed(ops: seq<Op>, all: seq<Op>, op: Op)
    requires StrictlySorted(all, OpRank) && op in all && forall x :: x in ops ==> x in all
    ensures op.opId in IdsOfOps(ops) <==> op in ops
  {
    if op in ops {
      var i :| 0 <= i < |ops| && ops[i] == op;
      assert IdsOfOps(ops)[i] == op.opId;
    }
    if op.opId in IdsOfOps(ops) {
      var i :| 0 <= i < |ops| && IdsOfOps(ops)[i] == op.opId;
      assert ops[i] in ops;
      var j :| 0 <= j < |all| && all[j] == ops[i];
      var k :| 0 <= k < |all| && all[k] == op;
      assert j == k;
    }
  }

  lemma SortingReports(base: map<Id, Op>, incoming: seq<Op>, screen: Op -> Option<Name>)
    requires Keyed(base) && StrictlySorted(incoming, OpRank)
    ensures var s := SortIncoming(base, incoming, screen);
            Reports(IdsOfOps(s.added), IdsOfOps(s.duplicate), s.quarantined, base.Values, Elements(incoming), screen)
  {
    var s := SortIncoming(base, incoming, screen);
    KeyedValues(base);
    SortingPartitions(base, incoming, screen);
    SortingSound(base, incoming, screen);
    forall op | op in s.added + s.duplicate + RejectedOps(s.quarantined) ensures op in incoming {
      assert op in Contained(s);
    }
    forall op | op in Elements(incoming)
      ensures op.opId in IdsOfOps(s.added) <==> screen(op).None? && !HoldsId(base.Values, op.opId)
      ensures op.opId in IdsOfOps(s.duplicate) <==> screen(op).None? && op in base.Values
      ensures op in RejectedOps(s.quarantined) <==> screen(op).Some? || (HoldsId(base.Values, op.opId) && op !in base.Values)
    {
      ListOf(base, incoming, screen, op);
      IdListed(s.added, incoming, op);
      IdListed(s.duplicate, incoming, op);
    }
    forall q | q in s.quarantined ensures q.rejected in Elements(incoming) && Justified(q, base.Values, screen) {
      var i :| 0 <= i < |s.quarantined| && s.quarantined[i] == q;
      assert RejectedOps(s.quarantined)[i] == q.rejected;
    }
  }

  function IdsOfOps(ops: seq<Op>): seq<Id> { seq(|ops|, i requires 0 <= i < |ops| => ops[i].opId) }

  lemma SortNext(base: map<Id, Op>, incoming: seq<Op>, screen: Op -> Option<Name>, i: nat)
    requires i < |incoming|
    ensures SortIncoming(base, incoming[..i + 1], screen)
            == Place(SortIncoming(base, incoming[..i], screen), incoming[i], VerdictOf(base, incoming[i], screen))
  {
    assert incoming[..i + 1][..i] == incoming[..i];
  }

  /** Part way: the log has grown by the operations added so far, all of them incoming. */
  ghost predicate Grown(ops: map<Id, Op>, base: map<Id, Op>, added: seq<Op>, incoming: seq<Op>, i: nat)
    requires i <= |incoming|
  {
    && Keyed(ops) && (forall id :: id in base ==> id in ops && ops[id] == base[id])
    && ops.Values == base.Values + Elements(added)
    && (forall id :: id in ops && id !in base ==> ops[id] in incoming[..i])
  }

  /** What the growing log says of the next operation is what the first log says of it. */
  lemma SameVerdict(ops: map<Id, Op>, base: map<Id, Op>, added: seq<Op>, incoming: seq<Op>, i: nat, screen: Op -> Option<Name>)
    requires i < |incoming| && Grown(ops, base, added, incoming, i)
    requires StrictlySorted(incoming, OpRank)
    ensures VerdictOf(ops, incoming[i], screen) == VerdictOf(base, incoming[i], screen)
  {
    var id := incoming[i].opId;
    forall j | 0 <= j < i ensures incoming[j].opId != id {
      assert Below(OpRank(incoming[j]), OpRank(incoming[i]));
    }
    assert id in ops ==> id in base;
  }

  lemma GrownNext(ops: map<Id, Op>, base: map<Id, Op>, added: seq<Op>, incoming: seq<Op>, i: nat)
    requires i < |incoming| && Grown(ops, base, added, incoming, i)
    ensures Grown(ops, base, added, incoming, i + 1)
    ensures incoming[i].opId !in ops ==> Grown(ops[incoming[i].opId := incoming[i]], base, added + [incoming[i]], incoming, i + 1)
  {
    assert incoming[..i + 1] == incoming[..i] + [incoming[i]];
    KeyedAdd(ops, incoming[i]);
    ElementsConcat(added, [incoming[i]]);
  }

  /** `merge_checked_authenticated`, and `merge_checked` when nothing is screened: total, keeps the
      first log as it is, adds exactly the new operations nobody refuses. */
  method MergeScreened(a: OpLog, b: OpLog, screen: Op -> Option<Name>) returns (r: MergeReport)
    requires a.Valid() && b.Valid()
    ensures fresh(r.merged) && r.merged.Valid()
    ensures exists incoming: seq<Op> :: Elements(incoming) == b.Contents() && StrictlySorted(incoming, OpRank)
              && var s := SortIncoming(a.ops, incoming, screen);
                 r.merged.Contents() == a.Contents() + Elements(s.added)
                 && r.added == IdsOfOps(s.added) && r.duplicate == IdsOfOps(s.duplicate) && r.quarantined == s.quarantined
  {
    var merged := a.Copy();
    var incoming := b.IterOps();
    ghost var base := a.ops;
    CopyGrown(merged.ops, base, incoming);
    var s := Sorting([], [], []);
    hide Grown;
    for i := 0 to |incoming|
      invariant fresh(merged) && merged.Valid() && Grown(merged.ops, base, s.added, incoming, i)
      invariant s == SortIncoming(base, incoming[..i], screen)
    {
      var op := incoming[i];
      SortNext(base, incoming, screen, i);
      SameVerdict(merged.ops, base, s.added, incoming, i, screen);
      GrownNext(merged.ops, base, s.added, incoming, i);
      var reason := screen(op);
      if reason.Some? {
        s := s.(quarantined := s.quarantined + [Quarantined(op.opId, op, op, reason.value)]);
      } else if op.opId !in merged.ops {
        KeyedAdd(merged.ops, op);
        merged.ops := merged.ops[op.opId := op];
        s := s.(added := s.added + [op]);
      } else if merged.ops[op.opId] == op {
        s := s.(duplicate := s.duplicate + [op]);
      } else {
        s := s.(quarantined := s.quarantined + [Quarantined(op.opId, merged.ops[op.opId], op, COLLISION)]);
      }
    }
    assert incoming[..|incoming|] == incoming;
    GrownValues(merged.ops, base, s.added, incoming);
    r := MergeReport(merged, IdsOfOps(s.added), IdsOfOps(s.duplicate), s.quarantined);
  }

  lemma GrownValues(ops: map<Id, Op>, base: map<Id, Op>, added: seq<Op>, incoming: seq<Op>)
    requires Grown(ops, base, added, incoming, |incoming|)
    ensures ops.Values == base.Values + Elements(added)
  {
  }

  lemma CopyGrown(ops: map<Id, Op>, base: map<Id, Op>, incoming: seq<Op>)
    requires Keyed(ops) && Keyed(base) && ops.Values == base.Values
    ensures Grown(ops, base, [], incoming, 0)
  {
    KeyedValues(ops);
    KeyedValues(base);
    forall id ensures id in base <==> id in ops {
      assert HoldsId(base.Values, id) <==> HoldsId(ops.Values, id);
    }
    forall id | id in base ensures ops[id] == base[id] {
      assert base[id] in ops.Values;
    }
  }

  /** `merge_checked` */
  method MergeChecked(a: OpLog, b: OpLog) returns (r: MergeReport)
    requires a.Valid() && b.Valid()
    ensures fresh(r.merged) && r.merged.Valid() && a.Contents() <= r.merged.Contents() <= a.Contents() + b.Contents()
    ensures r.quarantined == [] <==> JoinOf(a.Contents(), b.Contents()).Ok?
    ensures r.quarantined == [] ==> r.merged.Contents() == a.Contents() + b.Contents()
    ensures |r.added| + |r.duplicate| + |r.quarantined| == |b.Contents()|
    ensures Reports(r.added, r.duplicate, r.quarantined, a.Contents(), b.Contents(), Unscreened)
  {
    hide Reports;
    r := MergeScreened(a, b, Unscreened);
    ghost var incoming: seq<Op> :| Elements(incoming) == b.Contents() && StrictlySorted(incoming, OpRank)
      && var s := SortIncoming(a.ops, incoming, Unscreened);
         r.merged.Contents() == a.Contents() + Elements(s.added)
         && r.added == IdsOfOps(s.added) && r.duplicate == IdsOfOps(s.duplicate) && r.quarantined == s.quarantined;
    SortingReports(a.ops, incoming, Unscreened);
    NothingQuarantined(a.ops, incoming);
    SortedApart(incoming);
    SortedSize(incoming);
  }

  function Unscreened(op: Op): Option<Name> { None }

  lemma SortedApart(s: seq<Op>)
    requires StrictlySorted(s, OpRank)
    ensures forall i, j :: 0 <= i < j < |s| ==> s[i].opId != s[j].opId
    ensures UniqueOps(Elements(s))
  {
    forall i, j | 0 <= i < j < |s| ensures s[i].opId != s[j].opId {
      assert Below(OpRank(s[i]), OpRank(s[j]));
    }
  }

  lemma {:induction false} SortedSize(s: seq<Op>)
    requires forall i, j :: 0 <= i < j < |s| ==> s[i].opId != s[j].opId
    ensures |s| == |Elements(s)|
  {
    if s != [] {
      var front, last := s[..|s| - 1], s[|s| - 1];
      SortedSize(front);
      assert last !in front;
      assert s == front + [last];
      assert Elements(s) == Elements(front) + {last};
    }
  }

  /** The checked merge quarantines nothing exactly when the strict merge succeeds, and then agrees. */
  lemma NothingQuarantined(base: map<Id, Op>, incoming: seq<Op>)
    requires Keyed(base) && StrictlySorted(incoming, OpRank)
    ensures var s, all := SortIncoming(base, incoming, Unscreened), base.Values + Elements(incoming);
            (s.quarantined == [] <==> UniqueOps(all))
            && (s.quarantined == [] ==> base.Values + Elements(s.added) == all)
            && Elements(s.added) <= Elements(incoming)
            && |s.added| + |s.duplicate| + |s.quarantined| == |incoming|
  {
    var s := SortIncoming(base, incoming, Unscreened);
    SortingPartitions(base, incoming, Unscreened);
    assert |Contained(s)| == |incoming|;
    forall op | op in s.added + RejectedOps(s.quarantined) ensures op in incoming { assert op in Contained(s); }
    forall op | op in incoming ensures Placed(base, s, op) {
      KeyedValues(base);
      ListOf(base, incoming, Unscreened, op);
    }
    hide SortIncoming;
    QuarantineTells(base, incoming, s);
  }

  /** Where an operation goes when no screen refuses it. */
  ghost predicate Placed(base: map<Id, Op>, s: Sorting, op: Op) {
    && (op in s.added <==> op.opId !in base) && (op in s.duplicate <==> op in base.Values)
    && (op in RejectedOps(s.quarantined) <==> op.opId in base && base[op.opId] != op)
  }

  lemma QuarantineTells(base: map<Id, Op>, incoming: seq<Op>, s: Sorting)
    requires Keyed(base) && StrictlySorted(incoming, OpRank)
    requires forall op :: op in incoming ==> Placed(base, s, op)
    requires forall op :: op in s.added + RejectedOps(s.quarantined) ==> op in incoming
    ensures s.quarantined == [] <==> UniqueOps(base.Values + Elements(incoming))
    ensures s.quarantined == [] ==> base.Values + Elements(s.added) == base.Values + Elements(incoming)
  {
    if s.quarantined != [] {
      var op := RejectedOps(s.quarantined)[0];
      assert op in s.added + RejectedOps(s.quarantined) && Placed(base, s, op);
      assert base[op.opId] in base.Values && op in Elements(incoming);
    } else {
      hide StrictlySorted;
      NoClashUnique(base, incoming);
      assert forall op :: op in incoming ==> Placed(base, s, op) && (op in s.added || op in base.Values);
    }
  }

  lemma NoClashUnique(base: map<Id, Op>, incoming: seq<Op>)
    requires Keyed(base) && StrictlySorted(incoming, OpRank)
    requires forall op :: op in incoming ==> op.opId !in base || base[op.opId] == op
    ensures UniqueOps(base.Values + Elements(incoming))
  {
    KeyedValues(base);
    SortedApart(incoming);
    assert forall op :: op in Elements(incoming) ==> op in incoming;
  }

  // ---------------------------------------------------------------- the authenticated policy

  datatype SignatureStatus = Missing | UnknownKey | Verified | Invalid

  /** What the policy reads from outside the model: signatures, key names and whether times parse. */
  datatype Policy = Policy(
    claimStatus: Claim -> SignatureStatus, claimKeyName: Claim -> Option<Name>,
    retractionStatus: Op -> SignatureStatus, retractionKeyName: Op -> Option<Name>,
    timesParse: Op -> bool, revoked: set<Name>, requireSigned: bool, requireValidTimestamps: bool)

  function StatusName(s: SignatureStatus): Name {
    match s
    case Missing => "missing"
    case UnknownKey => "unknown_key"
    case Verified => "verified"
    case Invalid => "invalid"
  }

  function SignedReason(p: Policy, prefix: Name, key: Option<Name>, status: SignatureStatus): Option<Name> {
    if key.Some? && key.value in p.revoked then Some(prefix + "_signature_revoked")
    else if p.requireSigned && status != Verified then Some(prefix + "_signature_" + StatusName(status))
    else if !p.requireSigned && status == Invalid then Some(prefix + "_signature_invalid")
    else None
  }

  /** `_authenticated_reason` */
  function AuthenticatedReason(p: Policy, op: Op): Option<Name> {
    if p.requireValidTimestamps && !p.timesParse(op) then Some("invalid_timestamp")
    else if p.requireSigned && (op.ResolutionAdded? || op.LifecycleEventAdded?) then Some("authority_signature_unsupported")
    else if op.ClaimAdded? then SignedReason(p, "claim", p.claimKeyName(op.claim), p.claimStatus(op.claim))
    else if op.ClaimRetracted? then SignedReason(p, "retraction", p.retractionKeyName(op), p.retractionStatus(op))
    else None
  }

  ghost predicate Trusted(p: Policy, op: Op) {
    && (p.requireValidTimestamps ==> p.timesParse(op))
    && (op.ClaimAdded? ==> (p.requireSigned ==> p.claimStatus(op.claim) == Verified) && p.claimStatus(op.claim) != Invalid
                           && (p.claimKeyName(op.claim).Some? ==> p.claimKeyName(op.claim).value !in p.revoked))
    && (op.ClaimRetracted? ==> (p.requireSigned ==> p.retractionStatus(op) == Verified) && p.retractionStatus(op) != Invalid
                               && (p.retractionKeyName(op).Some? ==> p.retractionKeyName(op).value !in p.revoked))
    && (p.requireSigned ==> !op.ResolutionAdded? && !op.LifecycleEventAdded?)
  }

  lemma NoReasonIsTrusted(p: Policy, op: Op)
    ensures AuthenticatedReason(p, op).None? <==> Trusted(p, op)
  {
  }

  /** `merge_checked_authenticated`: whatever the merge brings in passes the whole policy, and an
      operation the policy trusts is left out only for colliding with the first log. */
  method MergeCheckedAuthenticated(a: OpLog, b: OpLog, p: Policy) returns (r: MergeReport)
    requires a.Valid() && b.Valid()
    ensures fresh(r.merged) && r.merged.Valid()
    ensures forall op :: op in r.merged.Contents() <==>
              op in a.Contents() || (op in b.Contents() && Trusted(p, op) && !HoldsId(a.Contents(), op.opId))
    ensures Reports(r.added, r.duplicate, r.quarantined, a.Contents(), b.Contents(), ScreenOf(p))
  {
    hide Reports;
    r := MergeScreened(a, b, ScreenOf(p));
    ghost var screen := ScreenOf(p);
    ghost var incoming: seq<Op> :| Elements(incoming) == b.Contents() && StrictlySorted(incoming, OpRank)
      && var s := SortIncoming(a.ops, incoming, screen);
         r.merged.Contents() == a.Contents() + Elements(s.added)
         && r.added == IdsOfOps(s.added) && r.duplicate == IdsOfOps(s.duplicate) && r.quarantined == s.quarantined;
    SortingReports(a.ops, incoming, screen);
    AddedExactly(a.ops, incoming, p, screen);
  }

  function ScreenOf(p: Policy): Op -> Option<Name> { (op: Op) => AuthenticatedReason(p, op) }

  lemma AddedExactly(base: map<Id, Op>, incoming: seq<Op>, p: Policy, screen: Op -> Option<Name>)
    requires Keyed(base) && forall op :: screen(op) == AuthenticatedReason(p, op)
    ensures forall op :: op in Elements(SortIncoming(base, incoming, screen).added) <==>
              op in incoming && Trusted(p, op) && !HoldsId(base.Values, op.opId)
  {
    var s := SortIncoming(base, incoming, screen);
    KeyedValues(base);
    SortingPartitions(base, incoming, screen);
    forall op ensures op in s.added <==> op in incoming && Trusted(p, op) && op.opId !in base {
      NoReasonIsTrusted(p, op);
      if op in incoming { ListOf(base, incoming, screen, op); }
      if op in s.added { assert op in Contained(s); }
    }
  }
}
