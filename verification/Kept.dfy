/** What compaction keeps, told by the operations of the log. */
module Kept {
  import opened Basics
  import opened Model
  import opened Records
  import opened State
  import opened LogTables
  import opened LogHistories
  import opened Compaction

  ghost predicate ActiveCites(log: set<Op>, rules: map<Name, Rule>, e: Id) {
    exists c :: Added(log, c) && !Retired(log, c, rules) && e in c.evidenceIds
  }

  ghost predicate RetractionCites(log: set<Op>, e: Id) {
    exists op :: op in log && op.ClaimRetracted? && (op.target != None || op.targetRef != None) && e in op.evidenceIds
  }

  ghost predicate ResolutionCites(log: set<Op>, e: Id) { exists r :: ResolutionRecorded(log, r) && e in r.evidenceIds }

  /** What stays of a log: claims that no retraction names, retractions that name something, evidence
      cited by either or by a resolution, and every other record. */
  ghost predicate StaysIn(log: set<Op>, rules: map<Name, Rule>, op: Op) {
    match op
    case ClaimAdded(_, _, _, c) => !Retired(log, c, rules)
    case ClaimRetracted(_, _, _, target, targetRef, _, _, _, _) => target != None || targetRef != None
    case EvidenceAdded(_, _, _, e) => ActiveCites(log, rules, e.id) || RetractionCites(log, e.id) || ResolutionCites(log, e.id)
    case _ => true
  }

  lemma LiveExactly(log: set<Op>, registry: Registry, c: Claim)
    requires CollisionFree(log) && Added(log, c)
    ensures IsLive(log, registry, c.id) <==> !Retired(log, c, registry.rules)
    ensures c.id in RecordsOf(log).claims && RecordsOf(log).claims[c.id] == c
  {
    ClaimStored(log, c);
    InactiveExactly(log, RecordsOf(log).claims, registry, c);
    hide RecordsOf;
    hide CollisionFree;
    hide InactiveIds;
    hide Added;
    hide Retired;
  }

  lemma LiveAdded(log: set<Op>, registry: Registry, id: Id)
    requires CollisionFree(log) && id in RecordsOf(log).claims
    ensures RecordsOf(log).claims[id].id == id && Added(log, RecordsOf(log).claims[id])
  {
    ClaimEntry(log, id);
    ClaimStored(log, RecordsOf(log).claims[id]);
  }

  lemma Citing(log: set<Op>, registry: Registry, e: Id) returns (id: Id)
    requires CitedByClaim(log, registry, e)
    ensures id in RecordsOf(log).claims && IsLive(log, registry, id) && e in RecordsOf(log).claims[id].evidenceIds
  {
    id :| IsLive(log, registry, id) && e in RecordsOf(log).claims[id].evidenceIds;
  }

  lemma Cited(log: set<Op>, registry: Registry, e: Id, id: Id)
    requires id in RecordsOf(log).claims && IsLive(log, registry, id) && e in RecordsOf(log).claims[id].evidenceIds
    ensures CitedByClaim(log, registry, e)
  {
  }

  lemma CitedExactly(log: set<Op>, registry: Registry, e: Id)
    requires CollisionFree(log)
    ensures CitedByClaim(log, registry, e) <==> ActiveCites(log, registry.rules, e)
  {
    hide IsLive;
    hide CitedByClaim;
    hide Added;
    hide Retired;
    hide CollisionFree;
    hide RecordsOf;
    if CitedByClaim(log, registry, e) {
      var id := Citing(log, registry, e);
      LiveAdded(log, registry, id);
      LiveExactly(log, registry, RecordsOf(log).claims[id]);
    }
    if ActiveCites(log, registry.rules, e) {
      var c :| Added(log, c) && !Retired(log, c, registry.rules) && e in c.evidenceIds;
      LiveExactly(log, registry, c);
      Cited(log, registry, e, c.id);
    }
  }

  lemma CitedByResolutionExactly(log: set<Op>, e: Id)
    requires CollisionFree(log)
    ensures CitedByResolution(log, e) <==> ResolutionCites(log, e)
  {
    RecordsWellFiled(log);
    hide ResolutionRecorded;
    hide CollisionFree;
    hide RecordsOf;
    if CitedByResolution(log, e) {
      var id :| id in RecordsOf(log).resolutions && e in RecordsOf(log).resolutions[id].evidenceIds;
      ResolutionStored(log, RecordsOf(log).resolutions[id]);
    }
    if ResolutionCites(log, e) {
      var r :| ResolutionRecorded(log, r) && e in r.evidenceIds;
      ResolutionStored(log, r);
    }
  }

  lemma KeepsExactly(log: set<Op>, registry: Registry, op: Op)
    requires CollisionFree(log) && op in log
    ensures Keeps(log, registry, op) <==> StaysIn(log, registry.rules, op)
  {
    hide CollisionFree;
    hide IsLive;
    hide CitedByClaim;
    hide CitedByResolution;
    hide ActiveCites;
    hide ResolutionCites;
    match op
    case EvidenceAdded(_, _, _, e) =>
      CitedExactly(log, registry, e.id);
      CitedByResolutionExactly(log, e.id);
    case ClaimAdded(_, _, _, c) =>
      assert Added(log, c);
      hide Retired;
      LiveExactly(log, registry, c);
    case _ =>
  }

  lemma CompactedExactly(log: set<Op>, registry: Registry, op: Op)
    requires CollisionFree(log)
    ensures op in Compacted(log, registry) <==> op in log && StaysIn(log, registry.rules, op)
  {
    hide CollisionFree;
    if op in log { KeepsExactly(log, registry, op); }
    hide Keeps;
    hide StaysIn;
  }

  lemma AllKept(log: set<Op>, registry: Registry)
    requires CollisionFree(log)
    ensures forall op :: op in Compacted(log, registry) <==> op in log && StaysIn(log, registry.rules, op)
  {
    hide CollisionFree;
    hide Compacted;
    hide StaysIn;
    forall op ensures op in Compacted(log, registry) <==> op in log && StaysIn(log, registry.rules, op) { CompactedExactly(log, registry, op); }
  }
}
