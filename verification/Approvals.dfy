/**
 * Single-use, expiring approvals in the in-memory store (server/alerts/approvals.py).
 *
 * References are drawn at random and hashed by the store; a reference is identified with its
 * hash, and drawn hashes and identifiers are fresh. Times are in seconds.
 */
module Approvals {
  import opened Wrappers
  import opened Rolling

  datatype Action = ExecutePaper | LiveOrder | Guardian

  datatype Status = Pending | Approved | Rejected | Expired | FailedAfterwards

  datatype Record = Record(id: nat, actor: string, action: Action, target: string, channel: string,
                           requiresStepUp: bool, status: Status, expiresAt: real, createdAt: real,
                           consumedAt: Option<real>)

  datatype Attempt = Attempt(approval: Option<nat>, actor: string, channel: string, decision: string,
                             outcome: string, reason: string)

  datatype ApprovalError = RateLimited | DuplicatePending | Invalid(reason: string)

  type Records = map<string, Record>

  const HOUR := 3600.0
  const PER_HOUR := 3

  // ---- What each operation does ----

  predicate Recent(r: Record, actor: string, now: real) {
    r.actor == actor && r.createdAt > now - HOUR
  }

  /** A pending approval that still blocks a second one for the same action. */
  predicate Live(r: Record, actor: string, action: Action, target: string, now: real) {
    r.actor == actor && r.action == action && r.target == target && r.status.Pending? && r.expiresAt > now
  }

  datatype Request = Request(hash: string, id: nat, actor: string, action: Action, target: string, channel: string,
                             requiresStepUp: bool, ttl: real)

  function CreateError(records: Records, q: Request, now: real): Option<ApprovalError> {
    if |set h | h in records && Recent(records[h], q.actor, now)| >= PER_HOUR then Some(RateLimited)
    else if exists h :: h in records && Live(records[h], q.actor, q.action, q.target, now) then Some(DuplicatePending)
    else None
  }

  function NewRecord(q: Request, now: real): Record {
    Record(q.id, q.actor, q.action, q.target, q.channel, q.requiresStepUp, Pending, now + q.ttl, now, None)
  }

  function AfterCreate(records: Records, q: Request, now: real): Records {
    if CreateError(records, q, now).Some? then records else records[q.hash := NewRecord(q, now)]
  }

  /** Why a reference is refused, checked in the store's order. */
  function DenyReason(r: Record, actor: string, channel: string, decision: string, now: real): Option<string> {
    if r.actor != actor || r.channel != channel then Some("actor or channel binding mismatch")
    else if !r.status.Pending? then Some("approval reference was already consumed")
    else if r.expiresAt <= now then Some("approval reference expired")
    else if decision != "approve" && decision != "reject" then Some("invalid approval decision")
    else if decision == "approve" && r.requiresStepUp then
      Some("fresh step-up must complete through the authenticated action endpoint")
    else None
  }

  predicate Accepts(records: Records, hash: string, actor: string, channel: string, decision: string, now: real) {
    hash in records && DenyReason(records[hash], actor, channel, decision, now).None?
  }

  function AfterConsume(records: Records, hash: string, actor: string, channel: string, decision: string, now: real)
    : Records
  {
    if hash !in records then records
    else
      var r := records[hash];
      match DenyReason(r, actor, channel, decision, now)
      case None =>
        records[hash := r.(status := if decision == "approve" then Approved else Rejected, consumedAt := Some(now))]
      case Some(_) =>
        if r.actor == actor && r.channel == channel && r.status.Pending? && r.expiresAt <= now
        then records[hash := r.(status := Expired)] else records
  }

  /** The audit entry that every use of a reference leaves behind. */
  function AttemptAt(records: Records, hash: string, actor: string, channel: string, decision: string, now: real)
    : Attempt
  {
    if hash !in records then Attempt(None, actor, channel, decision, "denied", "unknown reference")
    else match DenyReason(records[hash], actor, channel, decision, now)
      case Some(reason) => Attempt(Some(records[hash].id), actor, channel, decision, "denied", reason)
      case None => Attempt(Some(records[hash].id), actor, channel, decision,
                           if decision == "approve" then "approved" else "rejected", "accepted")
  }

  predicate DistinctIds(records: Records) {
    forall g, h :: g in records && h in records && g != h ==> records[g].id != records[h].id
  }

  function AfterMarkFailed(records: Records, id: nat): Records {
    map h | h in records :: if records[h].id == id then records[h].(status := FailedAfterwards) else records[h]
  }

  ghost predicate MarksOne(before: Records, after: Records, id: nat, h: string) {
    h in before && before[h].id == id && after == before[h := before[h].(status := FailedAfterwards)]
  }

  class MemoryApprovalStore {
    var records: Records
    var attempts: seq<Attempt>

    constructor ()
      ensures records == map[] && attempts == []
    {
      records, attempts := map[], [];
    }

    method Create(q: Request, now: real) returns (r: Result<Record, ApprovalError>)
      requires q.hash !in records
      modifies this`records
      ensures r == match CreateError(old(records), q, now)
                   case None => Success(NewRecord(q, now))
                   case Some(e) => Failure(e)
      ensures records == AfterCreate(old(records), q, now)
      ensures r.Success? ==>
                r.value == Record(q.id, q.actor, q.action, q.target, q.channel, q.requiresStepUp, Pending,
                                  now + q.ttl, now, None)
    {
      var recent := set h | h in records && Recent(records[h], q.actor, now);
      if |recent| >= PER_HOUR {
        return Failure(RateLimited);
      }
      if exists h :: h in records && Live(records[h], q.actor, q.action, q.target, now) {
        return Failure(DuplicatePending);
      }
      var record := NewRecord(q, now);
      records := records[q.hash := record];
      return Success(record);
    }

    method Consume(hash: string, actor: string, channel: string, decision: string, now: real)
      returns (r: Result<Record, ApprovalError>)
      modifies this
      ensures records == AfterConsume(old(records), hash, actor, channel, decision, now)
      ensures r.Success? <==> Accepts(old(records), hash, actor, channel, decision, now)
      ensures r.Success? ==> r.value == records[hash]
      ensures r.Failure? ==>
                r.error == Invalid(if hash in old(records) then
                                     AttemptAt(old(records), hash, actor, channel, decision, now).reason
                                   else "approval reference is invalid")
      ensures attempts == old(attempts) + [AttemptAt(old(records), hash, actor, channel, decision, now)]
    {
      if hash !in records {
        attempts := attempts + [Attempt(None, actor, channel, decision, "denied", "unknown reference")];
        return Failure(Invalid("approval reference is invalid"));
      }
      var record := records[hash];
      var reason := "";
      if record.actor != actor || record.channel != channel {
        reason := "actor or channel binding mismatch";
      } else if record.status != Pending {
        reason := "approval reference was already consumed";
      } else if record.expiresAt <= now {
        reason := "approval reference expired";
        records := records[hash := record.(status := Expired)];
      } else if decision != "approve" && decision != "reject" {
        reason := "invalid approval decision";
      } else if decision == "approve" && record.requiresStepUp {
        reason := "fresh step-up must complete through the authenticated action endpoint";
      }
      if reason != "" {
        attempts := attempts + [Attempt(Some(record.id), actor, channel, decision, "denied", reason)];
        return Failure(Invalid(reason));
      }
      var approved := decision == "approve";
      var consumed := record.(status := if approved then Approved else Rejected, consumedAt := Some(now));
      records := records[hash := consumed];
      attempts := attempts + [Attempt(Some(record.id), actor, channel, decision,
                                      if approved then "approved" else "rejected", "accepted")];
      return Success(consumed);
    }

    /** Marks the first record found; identifiers never repeat, so there is at most one. */
    method MarkFailed(id: nat)
      modifies this`records
      ensures (forall h <- old(records) :: old(records)[h].id != id) ==> records == old(records)
      ensures (exists h :: h in old(records) && old(records)[h].id == id) ==>
                exists h :: MarksOne(old(records), records, id, h)
      ensures DistinctIds(old(records)) ==> records == AfterMarkFailed(old(records), id)
    {
      var rest := records.Keys;
      while rest != {}
        invariant rest <= records.Keys && records == old(records)
        invariant forall h :: h in records && h !in rest ==> records[h].id != id
        decreases |rest|
      {
        var h :| h in rest;
        rest := rest - {h};
        if records[h].id == id {
          assert DistinctIds(records) ==> forall g :: g in records && g != h ==> records[g].id != id;
          records := records[h := records[h].(status := FailedAfterwards)];
          assert MarksOne(old(records), records, id, h);
          return;
        }
      }
      assert forall h <- records :: records[h].id != id;
      assert AfterMarkFailed(records, id) == records;
    }
  }

  // ---- Runs ----

  datatype Op =
    | Creating(q: Request, at: real)
    | Consuming(hash: string, actor: string, channel: string, decision: string, at: real)
    | MarkingFailed(id: nat, at: real)

  function Perform(records: Records, op: Op): Records {
    match op
    case Creating(q, at) => AfterCreate(records, q, at)
    case Consuming(hash, actor, channel, decision, at) => AfterConsume(records, hash, actor, channel, decision, at)
    case MarkingFailed(id, _) => AfterMarkFailed(records, id)
  }

  function After(ops: seq<Op>): Records {
    if ops == [] then map[] else Perform(After(ops[..|ops| - 1]), ops[|ops| - 1])
  }

  ghost predicate Timed(ops: seq<Op>) {
    forall i, j :: 0 <= i < j < |ops| ==> ops[i].at <= ops[j].at
  }

  ghost predicate FreshDraws(ops: seq<Op>) {
    forall i :: 0 <= i < |ops| && ops[i].Creating? ==> ops[i].q.hash !in After(ops[..i])
  }

  ghost predicate Legal(ops: seq<Op>) {
    Timed(ops) && FreshDraws(ops)
  }

  lemma LegalFront(ops: seq<Op>, n: nat)
    requires Legal(ops) && n <= |ops|
    ensures Legal(ops[..n])
  {
    forall i | 0 <= i < n && ops[..n][i].Creating?
      ensures ops[..n][i].q.hash !in After(ops[..n][..i])
    {
      assert ops[..n][..i] == ops[..i];
    }
  }

  // ---- Single use ----

  lemma StepNeverRevives(records: Records, op: Op, hash: string)
    requires hash in records && !records[hash].status.Pending?
    requires op.Creating? ==> op.q.hash !in records
    ensures hash in Perform(records, op) && !Perform(records, op)[hash].status.Pending?
  {
    hide CreateError;
  }

  /** A reference that is no longer pending stays so, whatever happens. */
  lemma {:induction false} NeverPendingAgain(ops: seq<Op>, n: nat, hash: string)
    requires Legal(ops) && n <= |ops|
    requires hash in After(ops[..n]) && !After(ops[..n])[hash].status.Pending?
    ensures hash in After(ops) && !After(ops)[hash].status.Pending?
    decreases |ops|
  {
    hide Perform, CreateError;
    if n == |ops| {
      assert ops[..n] == ops;
    } else {
      var front, last := ops[..|ops| - 1], ops[|ops| - 1];
      assert front[..n] == ops[..n];
      assert last.Creating? ==> last.q.hash !in After(front);
      LegalFront(ops, |ops| - 1);
      hide Legal;
      NeverPendingAgain(front, n, hash);
      StepNeverRevives(After(front), last, hash);
    }
  }

  ghost predicate Accepted(ops: seq<Op>, i: nat)
    requires i < |ops|
  {
    ops[i].Consuming? && Accepts(After(ops[..i]), ops[i].hash, ops[i].actor, ops[i].channel, ops[i].decision, ops[i].at)
  }

  /** Each approval reference is accepted at most once in a run. */
  lemma AcceptedAtMostOnce(ops: seq<Op>, i: nat, j: nat)
    requires Legal(ops) && i < j < |ops|
    requires Accepted(ops, i) && Accepted(ops, j)
    ensures ops[i].hash != ops[j].hash
  {
    assert ops[..i + 1][..i] == ops[..i];
    hide CreateError, Legal;
    if ops[i].hash == ops[j].hash {
      LegalFront(ops, j);
      assert ops[..j][..i + 1] == ops[..i + 1];
      NeverPendingAgain(ops[..j], i + 1, ops[i].hash);
    }
  }

  /** The request that created a stored approval. */
  ghost predicate GrantedBy(ops: seq<Op>, k: nat, hash: string, r: Record) {
    && k < |ops| && ops[k].Creating? && ops[k].q.hash == hash
    && CreateError(After(ops[..k]), ops[k].q, ops[k].at).None?
    && var q := ops[k].q;
       && r.id == q.id && r.actor == q.actor && r.action == q.action && r.target == q.target && r.channel == q.channel
       && r.requiresStepUp == q.requiresStepUp && r.createdAt == ops[k].at && r.expiresAt == ops[k].at + q.ttl
  }

  /** Everything about an approval but its status and time of use is fixed when it is created. */
  ghost predicate SameApproval(r: Record, t: Record) {
    t == r.(status := t.status, consumedAt := t.consumedAt)
  }

  lemma ApprovalsKeepTheirTerms(records: Records, op: Op, hash: string)
    requires op.Creating? ==> op.q.hash !in records
    requires hash in Perform(records, op)
    ensures if op.Creating? && op.q.hash == hash then
              CreateError(records, op.q, op.at).None? && Perform(records, op)[hash] == NewRecord(op.q, op.at)
            else hash in records && SameApproval(records[hash], Perform(records, op)[hash])
  {
  }

  lemma {:induction false} EveryRecordWasGranted(ops: seq<Op>, hash: string) returns (k: nat)
    requires Legal(ops) && hash in After(ops)
    ensures GrantedBy(ops, k, hash, After(ops)[hash])
  {
    var front, last := ops[..|ops| - 1], ops[|ops| - 1];
    LegalFront(ops, |ops| - 1);
    assert last.Creating? ==> last.q.hash !in After(front);
    ApprovalsKeepTheirTerms(After(front), last, hash);
    if last.Creating? && last.q.hash == hash {
      k := |ops| - 1;
    } else {
      k := EveryRecordWasGranted(front, hash);
      assert front[..k] == ops[..k];
    }
  }

  /**
   * An accepted reference was created earlier in the run for this very actor and channel, has not
   * outlived its time, and needs no step-up if it is approved.
   */
  lemma AcceptanceIsBound(ops: seq<Op>, i: nat) returns (k: nat)
    requires Legal(ops) && i < |ops| && Accepted(ops, i)
    ensures k < i && ops[k].Creating? && ops[k].q.hash == ops[i].hash
    ensures ops[k].q.actor == ops[i].actor && ops[k].q.channel == ops[i].channel
    ensures ops[i].at < ops[k].at + ops[k].q.ttl
    ensures ops[i].decision == "reject" || (ops[i].decision == "approve" && !ops[k].q.requiresStepUp)
  {
    LegalFront(ops, i);
    k := EveryRecordWasGranted(ops[..i], ops[i].hash);
  }

  // ---- What a run decides ----

  /** The `k`-th operation created an approval that has not run out, nor been accepted or marked as failed. */
  ghost predicate Outstanding(ops: seq<Op>, k: nat, now: real) {
    && k < |ops| && ops[k].Creating? && CreateError(After(ops[..k]), ops[k].q, ops[k].at).None?
    && now < ops[k].at + ops[k].q.ttl
    && forall j :: k < j < |ops| ==> !Ends(ops, k, j)
  }

  /** The `j`-th operation accepts that approval, or marks it as failed. */
  ghost predicate Ends(ops: seq<Op>, k: nat, j: nat)
    requires k < |ops| && ops[k].Creating? && j < |ops|
  {
    (Accepted(ops, j) && ops[j].hash == ops[k].q.hash) || (ops[j].MarkingFailed? && ops[j].id == ops[k].q.id)
  }

  lemma OutstandingEarlier(ops: seq<Op>, k: nat, now: real)
    requires k < |ops| - 1
    ensures Outstanding(ops, k, now) <==>
              Outstanding(ops[..|ops| - 1], k, now) && ops[k].Creating? && !Ends(ops, k, |ops| - 1)
  {
    var front := ops[..|ops| - 1];
    assert forall j :: 0 <= j <= |front| ==> front[..j] == ops[..j];
    if ops[k].Creating? {
      assert forall j :: k < j < |front| ==> (Ends(front, k, j) <==> Ends(ops, k, j));
    }
  }

  /** An outstanding approval is stored as pending, on the terms it was created with. */
  lemma {:induction false} OutstandingIsPending(ops: seq<Op>, k: nat, now: real)
    requires Legal(ops) && (ops != [] ==> ops[|ops| - 1].at <= now) && Outstanding(ops, k, now)
    ensures ops[k].q.hash in After(ops) && After(ops)[ops[k].q.hash] == NewRecord(ops[k].q, ops[k].at)
  {
    var front, last, n := ops[..|ops| - 1], ops[|ops| - 1], |ops| - 1;
    LegalFront(ops, n);
    if k < n {
      OutstandingEarlier(ops, k, now);
      assert front[|front| - 1].at <= last.at;
      OutstandingIsPending(front, k, now);
      assert last.Creating? ==> last.q.hash !in After(front);
      assert !Ends(ops, k, n);
      hide CreateError, Legal, Outstanding, Perform;
      StaysAsItIs(After(front), last, ops[k].q.hash);
    }
  }

  /** A pending approval is left alone unless it is used, runs out, or is marked. */
  lemma StaysAsItIs(records: Records, op: Op, hash: string)
    requires hash in records && records[hash].status.Pending? && op.at < records[hash].expiresAt
    requires op.Creating? ==> op.q.hash !in records
    requires op.Consuming? && op.hash == hash ==> !Accepts(records, hash, op.actor, op.channel, op.decision, op.at)
    requires op.MarkingFailed? ==> op.id != records[hash].id
    ensures hash in Perform(records, op) && Perform(records, op)[hash] == records[hash]
  {
    hide CreateError;
  }

  /** A pending approval that has not run out is an outstanding one. */
  lemma {:induction false} PendingIsOutstanding(ops: seq<Op>, hash: string, now: real) returns (k: nat)
    requires Legal(ops) && hash in After(ops) && After(ops)[hash].status.Pending? && now < After(ops)[hash].expiresAt
    ensures Outstanding(ops, k, now) && ops[k].q.hash == hash && After(ops)[hash] == NewRecord(ops[k].q, ops[k].at)
  {
    var front, last, n := ops[..|ops| - 1], ops[|ops| - 1], |ops| - 1;
    LegalFront(ops, n);
    assert last.Creating? ==> last.q.hash !in After(front);
    ApprovalsKeepTheirTerms(After(front), last, hash);
    if last.Creating? && last.q.hash == hash {
      k := n;
    } else {
      if !After(front)[hash].status.Pending? {
        StepNeverRevives(After(front), last, hash);
        assert false;
      }
      k := PendingIsOutstanding(front, hash, now);
      hide CreateError, Legal;
      assert !Ends(ops, k, n);
      OutstandingEarlier(ops, k, now);
    }
  }

  /**
   * The exact rule of single use: a reference is accepted if and only if it was created in the run for this
   * actor and channel, has neither run out, nor been accepted, nor been marked as failed, and the decision is
   * a rejection, or an approval that needs no step-up.
   */
  lemma AcceptedExactlyWhen(ops: seq<Op>, i: nat)
    requires Legal(ops) && i < |ops| && ops[i].Consuming?
    ensures Accepted(ops, i) <==>
              exists k: nat :: && Outstanding(ops[..i], k, ops[i].at)
                               && ops[k].q.hash == ops[i].hash && ops[k].q.actor == ops[i].actor
                               && ops[k].q.channel == ops[i].channel
                               && (ops[i].decision == "reject"
                                   || (ops[i].decision == "approve" && !ops[k].q.requiresStepUp))
  {
    var front := ops[..i];
    LegalFront(ops, i);
    assert forall j :: 0 <= j <= i ==> front[..j] == ops[..j];
    hide CreateError;
    if Accepted(ops, i) {
      var k := PendingIsOutstanding(front, ops[i].hash, ops[i].at);
      assert Outstanding(front, k, ops[i].at) && ops[k] == front[k];
    }
    forall k: nat | Outstanding(front, k, ops[i].at) && front[k].q.hash == ops[i].hash
      ensures ops[i].hash in After(front) && After(front)[ops[i].hash] == NewRecord(ops[k].q, ops[k].at)
      ensures k < i && ops[k].Creating? && ops[i].at < ops[k].at + ops[k].q.ttl
    {
      assert front != [] ==> front[|front| - 1].at <= ops[i].at;
      OutstandingIsPending(front, k, ops[i].at);
    }
    hide Outstanding, Legal;
  }

  /** The exact rule for duplicates, where the rate allows a creation at all. */
  lemma DuplicateExactlyWhen(ops: seq<Op>, q: Request, now: real)
    requires Legal(ops) && (ops != [] ==> ops[|ops| - 1].at <= now)
    requires CreateError(After(ops), q, now) != Some(RateLimited)
    ensures CreateError(After(ops), q, now) == Some(DuplicatePending) <==>
              exists k: nat :: && Outstanding(ops, k, now) && ops[k].q.actor == q.actor
                               && ops[k].q.action == q.action && ops[k].q.target == q.target
  {
    if h :| h in After(ops) && Live(After(ops)[h], q.actor, q.action, q.target, now) {
      var k := PendingIsOutstanding(ops, h, now);
      assert Outstanding(ops, k, now);
    }
    forall k: nat | Outstanding(ops, k, now)
      ensures ops[k].q.hash in After(ops) && After(ops)[ops[k].q.hash] == NewRecord(ops[k].q, ops[k].at)
    {
      OutstandingIsPending(ops, k, now);
    }
    hide Outstanding, Legal;
  }

  /**
   * What a use of a reference leaves behind in a run. An acceptance stores the decision and its time on
   * the terms of the creation, an expired reference presented by its owner is marked, and nothing else
   * changes any record.
   */
  lemma UseIsRecorded(ops: seq<Op>, i: nat)
    requires Legal(ops) && i < |ops| && ops[i].Consuming?
    ensures var before, after, h := After(ops[..i]), After(ops[..i + 1]), ops[i].hash;
            && after.Keys == before.Keys && (forall g <- before :: g != h ==> after[g] == before[g])
            && (h in before ==>
                  var r := before[h];
                  after[h] == if Accepted(ops, i) then
                                Record(r.id, r.actor, r.action, r.target, r.channel, r.requiresStepUp,
                                       if ops[i].decision == "approve" then Approved else Rejected,
                                       r.expiresAt, r.createdAt, Some(ops[i].at))
                              else if r.status.Pending? && r.expiresAt <= ops[i].at
                                      && r.actor == ops[i].actor && r.channel == ops[i].channel then
                                Record(r.id, r.actor, r.action, r.target, r.channel, r.requiresStepUp, Expired,
                                       r.expiresAt, r.createdAt, r.consumedAt)
                              else r)
  {
    assert ops[..i + 1][..i] == ops[..i];
    hide CreateError, Legal;
  }

  /** The log entry of a use names the record, if there is one, and the decision or the first reason against it. */
  lemma AttemptTells(records: Records, hash: string, actor: string, channel: string, decision: string, now: real)
    ensures var a := AttemptAt(records, hash, actor, channel, decision, now);
            && a.actor == actor && a.channel == channel && a.decision == decision
            && (if hash !in records then
                  a.approval == None && a.outcome == "denied" && a.reason == "unknown reference"
                else
                  var r := records[hash];
                  && a.approval == Some(r.id)
                  && if r.actor != actor || r.channel != channel then
                       a.outcome == "denied" && a.reason == "actor or channel binding mismatch"
                     else if r.status != Pending then
                       a.outcome == "denied" && a.reason == "approval reference was already consumed"
                     else if r.expiresAt <= now then
                       a.outcome == "denied" && a.reason == "approval reference expired"
                     else if decision == "reject" then
                       a.outcome == "rejected" && a.reason == "accepted"
                     else if decision != "approve" then
                       a.outcome == "denied" && a.reason == "invalid approval decision"
                     else if r.requiresStepUp then
                       a.outcome == "denied"
                       && a.reason == "fresh step-up must complete through the authenticated action endpoint"
                     else a.outcome == "approved" && a.reason == "accepted")
  {
    assert "approve"[0] != "reject"[0];
  }

  // ---- Three per hour ----

  datatype Grant = Grant(hash: string, at: real)

  /** The approvals created for an actor, oldest first. */
  ghost function Created(ops: seq<Op>, actor: string): seq<Grant> {
    if ops == [] then []
    else
      var front, last := ops[..|ops| - 1], ops[|ops| - 1];
      Created(front, actor)
      + (if last.Creating? && last.q.actor == actor && CreateError(After(front), last.q, last.at).None?
         then [Grant(last.q.hash, last.at)] else [])
  }

  function Times(grants: seq<Grant>): seq<real> {
    seq(|grants|, i requires 0 <= i < |grants| => grants[i].at)
  }

  /** The grants and the records agree. */
  ghost predicate Recorded(grants: seq<Grant>, records: Records, actor: string) {
    && (forall i :: 0 <= i < |grants| ==>
          && grants[i].hash in records && records[grants[i].hash].actor == actor
          && records[grants[i].hash].createdAt == grants[i].at)
    && forall i, j :: 0 <= i < j < |grants| ==> grants[i].hash != grants[j].hash
  }

  lemma ThreeDistinct(s: set<string>, a: string, b: string, c: string)
    requires a in s && b in s && c in s && a != b && b != c && a != c
    ensures |s| >= 3
  {
    var t := s - {a, b, c};
    assert s == t + {a, b, c};
    assert |s| == |t| + |{a, b, c}|;
  }

  /** With three grants inside the hour a fourth is refused. */
  lemma RoomForOneMore(grants: seq<Grant>, records: Records, q: Request, now: real)
    requires Recorded(grants, records, q.actor) && CreateError(records, q, now).None? && |grants| >= PER_HOUR
    requires Nondecreasing(Times(grants))
    ensures grants[|grants| - PER_HOUR].at <= now - HOUR
  {
    var n := |grants|;
    var recent := set h | h in records && Recent(records[h], q.actor, now);
    var a, b, c := grants[n - 3], grants[n - 2], grants[n - 1];
    assert Times(grants)[n - 3] <= Times(grants)[n - 2] <= Times(grants)[n - 1];
    if a.at > now - HOUR {
      ThreeDistinct(recent, a.hash, b.hash, c.hash);
    }
  }

  /** Three per hour so far, and nothing later than `now`. */
  ghost predicate Paced(grants: seq<Grant>, now: real) {
    && Nondecreasing(Times(grants)) && Spaced(Times(grants), PER_HOUR, HOUR, false)
    && forall i :: 0 <= i < |grants| ==> grants[i].at <= now
  }

  lemma GrantKeepsPace(grants: seq<Grant>, records: Records, q: Request, now: real)
    requires Recorded(grants, records, q.actor) && CreateError(records, q, now).None? && Paced(grants, now)
    ensures Paced(grants + [Grant(q.hash, now)], now)
  {
    if |grants| >= PER_HOUR {
      RoomForOneMore(grants, records, q, now);
    }
    SpacedAppend(Times(grants), now, PER_HOUR, HOUR, false);
    assert Times(grants + [Grant(q.hash, now)]) == Times(grants) + [now];
    assert forall i :: 0 <= i < |grants| ==> Times(grants)[i] == grants[i].at;
    assert Nondecreasing(Times(grants) + [now]);
  }

  /** Records of earlier grants keep their actor and creation time. */
  lemma GrantsStayRecorded(grants: seq<Grant>, records: Records, op: Op, actor: string)
    requires Recorded(grants, records, actor)
    requires op.Creating? ==> op.q.hash !in records
    ensures Recorded(grants, Perform(records, op), actor)
    ensures op.Creating? && op.q.actor == actor && CreateError(records, op.q, op.at).None? ==>
              Recorded(grants + [Grant(op.q.hash, op.at)], Perform(records, op), actor)
  {
  }

  lemma {:induction false} CreationInvariant(ops: seq<Op>, actor: string, first: real)
    requires Legal(ops)
    ensures Recorded(Created(ops, actor), After(ops), actor)
    ensures Paced(Created(ops, actor), if ops == [] then first else ops[|ops| - 1].at)
  {
    if ops != [] {
      var front, last := ops[..|ops| - 1], ops[|ops| - 1];
      LegalFront(ops, |ops| - 1);
      assert last.Creating? ==> last.q.hash !in After(front);
      assert front != [] ==> front[|front| - 1].at <= last.at;
      CreationInvariant(front, actor, last.at);
      var grants := Created(front, actor);
      assert Paced(grants, last.at);
      GrantsStayRecorded(grants, After(front), last, actor);
      if last.Creating? && last.q.actor == actor && CreateError(After(front), last.q, last.at).None? {
        GrantKeepsPace(grants, After(front), last.q, last.at);
      } else {
        assert Created(ops, actor) == grants;
      }
    }
  }

  /** No half-open hour contains more than three approvals created for one actor. */
  lemma AtMostThreePerHour(ops: seq<Op>, actor: string, from: real)
    requires Legal(ops)
    ensures |Inside(Times(Created(ops, actor)), from, 3600.0, false)| <= 3
  {
    CreationInvariant(ops, actor, 0.0);
    WindowBound(Times(Created(ops, actor)), PER_HOUR, HOUR, false, from);
  }

  /** Every stored approval of the actor was created in the run. */
  ghost predicate AllCreated(grants: seq<Grant>, records: Records, actor: string) {
    forall h :: h in records && records[h].actor == actor ==> exists i :: 0 <= i < |grants| && grants[i].hash == h
  }

  lemma {:induction false} RecordsWereCreated(ops: seq<Op>, actor: string)
    requires Legal(ops)
    ensures AllCreated(Created(ops, actor), After(ops), actor)
  {
    if ops != [] {
      var front, last := ops[..|ops| - 1], ops[|ops| - 1];
      LegalFront(ops, |ops| - 1);
      assert last.Creating? ==> last.q.hash !in After(front);
      RecordsWereCreated(front, actor);
      hide Perform, CreateError, Legal;
      forall h | h in After(ops) && After(ops)[h].actor == actor
        ensures exists i :: 0 <= i < |Created(ops, actor)| && Created(ops, actor)[i].hash == h
      {
        ApprovalsKeepTheirTerms(After(front), last, h);
        if last.Creating? && last.q.hash == h {
          assert Created(ops, actor)[|Created(front, actor)|].hash == h;
        } else {
          var i :| 0 <= i < |Created(front, actor)| && Created(front, actor)[i].hash == h;
          assert Created(ops, actor)[i] == Created(front, actor)[i];
        }
      }
    }
  }

  ghost function HashesOf(grants: seq<Grant>, places: set<nat>): set<string>
    requires forall i <- places :: i < |grants|
  {
    set i | i in places :: grants[i].hash
  }

  lemma {:induction false} DistinctHashes(grants: seq<Grant>, places: set<nat>)
    requires forall i <- places :: i < |grants|
    requires forall i, j :: 0 <= i < j < |grants| ==> grants[i].hash != grants[j].hash
    ensures |HashesOf(grants, places)| == |places|
    decreases |places|
  {
    if places == {} {
      assert HashesOf(grants, places) == {};
    } else {
      var i :| i in places;
      DistinctHashes(grants, places - {i});
      OneMoreHash(grants, places, i);
      hide HashesOf;
    }
  }

  lemma OneMoreHash(grants: seq<Grant>, places: set<nat>, i: nat)
    requires i in places && forall i <- places :: i < |grants|
    requires forall i, j :: 0 <= i < j < |grants| ==> grants[i].hash != grants[j].hash
    ensures HashesOf(grants, places) == HashesOf(grants, places - {i}) + {grants[i].hash}
    ensures grants[i].hash !in HashesOf(grants, places - {i})
  {
  }

  /** The records counted by the limiter are those of the approvals created within the hour. */
  lemma RecentAreCreated(grants: seq<Grant>, records: Records, actor: string, now: real)
    requires Recorded(grants, records, actor) && AllCreated(grants, records, actor)
    requires forall i :: 0 <= i < |grants| ==> grants[i].at <= now
    ensures |set h | h in records && Recent(records[h], actor, now)| == |Inside(Times(grants), now - HOUR, HOUR, false)|
  {
    var recent := set h | h in records && Recent(records[h], actor, now);
    var places := Inside(Times(grants), now - HOUR, HOUR, false);
    DistinctHashes(grants, places);
    forall h
      ensures h in recent <==> h in HashesOf(grants, places)
    {
      if h in recent {
        var i :| 0 <= i < |grants| && grants[i].hash == h;
        assert i in places;
      }
    }
    assert recent == HashesOf(grants, places);
  }

  /** The exact rule: a creation is refused for its rate if and only if the actor had three in the last hour. */
  lemma RateLimitedExactlyWhen(ops: seq<Op>, q: Request, now: real)
    requires Legal(ops) && (ops != [] ==> ops[|ops| - 1].at <= now)
    ensures CreateError(After(ops), q, now) == Some(RateLimited)
            <==> |Inside(Times(Created(ops, q.actor)), now - 3600.0, 3600.0, false)| >= 3
  {
    CreationInvariant(ops, q.actor, now);
    RecordsWereCreated(ops, q.actor);
    RecentAreCreated(Created(ops, q.actor), After(ops), q.actor, now);
  }

  // ---- Identifiers ----

  ghost predicate FreshIdentifiers(ops: seq<Op>) {
    forall i :: 0 <= i < |ops| && ops[i].Creating? ==>
      forall h <- After(ops[..i]) :: After(ops[..i])[h].id != ops[i].q.id
  }

  /** Fresh identifiers stay distinct, so marking by identifier touches one record. */
  lemma {:induction false} IdentifiersStayDistinct(ops: seq<Op>)
    requires Legal(ops) && FreshIdentifiers(ops)
    ensures DistinctIds(After(ops))
  {
    if ops != [] {
      var front, last := ops[..|ops| - 1], ops[|ops| - 1];
      LegalFront(ops, |ops| - 1);
      assert forall i :: 0 <= i <= |front| ==> front[..i] == ops[..i];
      IdentifiersStayDistinct(front);
      assert last.Creating? ==> last.q.hash !in After(front);
      assert last.Creating? ==> forall h <- After(front) :: After(front)[h].id != last.q.id;
      forall h <- After(ops)
        ensures if last.Creating? && last.q.hash == h then After(ops)[h].id == last.q.id
                else h in After(front) && After(ops)[h].id == After(front)[h].id
      {
        ApprovalsKeepTheirTerms(After(front), last, h);
      }
    }
  }

  // ---- One live approval per action ----

  ghost predicate AtMostOneLive(records: Records, now: real) {
    forall g, h :: g in records && h in records && g != h
      ==> !(Live(records[g], records[g].actor, records[g].action, records[g].target, now)
            && Live(records[h], records[g].actor, records[g].action, records[g].target, now))
  }

  /** Two references for the same actor, action and target are never acceptable at the same time. */
  lemma {:induction false} OneLiveApproval(ops: seq<Op>, now: real)
    requires Legal(ops) && (ops != [] ==> ops[|ops| - 1].at <= now)
    ensures AtMostOneLive(After(ops), now)
  {
    if ops != [] {
      var front, last := ops[..|ops| - 1], ops[|ops| - 1];
      LegalFront(ops, |ops| - 1);
      assert front != [] ==> front[|front| - 1].at <= last.at;
      OneLiveApproval(front, last.at);
      assert AtMostOneLive(After(front), now);
    }
  }
}
