/**
 * The hash-linked audit chain and its verifiers (crates/aether-audit/src/chain.rs, verifier.rs).
 *
 * SHA-256 is an arbitrary function from texts to 32 bytes; where a result needs it not to
 * collide, the hypothesis names the very texts that must not.
 */
module Audit {
  import opened Wrappers

  newtype byte = b: int | 0 <= b < 256

  const ZEROS: seq<byte> :=
    [0, 0, 0, 0, 0, 0, 0, 0, 0, 0, 0, 0, 0, 0, 0, 0, 0, 0, 0, 0, 0, 0, 0, 0, 0, 0, 0, 0, 0, 0, 0, 0]

  type Hash = h: seq<byte> | |h| == 32 witness ZEROS

  type Digest = string -> Hash

  method Zeroed() returns (h: Hash)
    ensures forall b <- h :: b == 0
  {
    h := ZEROS;
  }

  /** `ts` is in milliseconds, the precision every constructor of a timestamp normalises to. */
  datatype AuditEvent = AuditEvent(seqNo: nat, prevHash: Hash, hash: Hash, ts: int, actor: string, action: string,
                                   subject: string, payloadHash: Hash)

  datatype AuditError = ChainSealed | SeqGap(expected: nat, got: nat) | HashBroken(at: nat) | EmptyChain

  // ---- The preimage ----

  const DIGITS := "0123456789abcdef"

  function Decimal(n: nat): string {
    if n < 10 then [DIGITS[n]] else Decimal(n / 10) + [DIGITS[n % 10]]
  }

  function Signed(n: int): string {
    if n < 0 then "-" + Decimal(-n) else Decimal(n)
  }

  function Hex(bytes: seq<byte>): string {
    if bytes == [] then ""
    else [DIGITS[bytes[0] as int / 16], DIGITS[bytes[0] as int % 16]] + Hex(bytes[1..])
  }

  function Preimage(e: AuditEvent): string {
    Decimal(e.seqNo) + "|" + Hex(e.prevHash) + "|" + Signed(e.ts) + "|" + e.actor + "|" + e.action + "|" + e.subject
  }

  function ComputeHash(sha: Digest, e: AuditEvent): Hash {
    sha(Preimage(e))
  }

  // ---- The chain ----

  ghost predicate IsGenesis(sha: Digest, e: AuditEvent) {
    && e.seqNo == 0 && (forall b <- e.prevHash :: b == 0) && (forall b <- e.payloadHash :: b == 0)
    && e.actor == "system" && e.action == "chain.genesis" && e.subject == "audit_chain"
    && e.hash == ComputeHash(sha, e)
  }

  /** What verification finds wrong with event `i`, checked in the source's order. */
  function LinkError(sha: Digest, events: seq<AuditEvent>, i: nat): Option<AuditError>
    requires 1 <= i < |events|
  {
    var curr, prev := events[i], events[i - 1];
    if curr.seqNo != prev.seqNo + 1 then Some(SeqGap(prev.seqNo + 1, curr.seqNo))
    else if curr.prevHash != prev.hash then Some(HashBroken(curr.seqNo))
    else if ComputeHash(sha, curr) != curr.hash then Some(HashBroken(curr.seqNo))
    else None
  }

  /** Every event but the first extends its predecessor and carries its own hash. */
  ghost predicate Linked(sha: Digest, events: seq<AuditEvent>) {
    forall i :: 1 <= i < |events| ==> LinkError(sha, events, i).None?
  }

  /** The chains `AuditChain` can hold: a genesis event and verified successors numbered from it. */
  ghost predicate Grown(sha: Digest, events: seq<AuditEvent>) {
    && events != [] && Linked(sha, events)
    && IsGenesis(sha, events[0])
    && forall i :: 0 <= i < |events| ==> events[i].seqNo == i
  }

  lemma GrownByOne(sha: Digest, events: seq<AuditEvent>, e: AuditEvent)
    requires Grown(sha, events)
    requires e.seqNo == |events| && e.prevHash == events[|events| - 1].hash && e.hash == ComputeHash(sha, e)
    ensures Grown(sha, events + [e])
  {
    var grown := events + [e];
    forall i | 1 <= i < |grown|
      ensures LinkError(sha, grown, i).None?
    {
      if i < |events| {
        assert LinkError(sha, events, i).None?;
      }
    }
  }

  lemma HashIgnoresItself(sha: Digest, e: AuditEvent, hash: Hash)
    ensures ComputeHash(sha, e.(hash := hash)) == ComputeHash(sha, e)
  {
  }

  /** The error is that of the first link that does not verify. */
  ghost predicate FirstBroken(sha: Digest, events: seq<AuditEvent>, error: AuditError) {
    exists i :: 1 <= i < |events| && Linked(sha, events[..i]) && LinkError(sha, events, i) == Some(error)
  }

  class AuditChain {
    const sha: Digest
    var events: seq<AuditEvent>
    var nextSeq: nat
    var isSealed: bool

    ghost predicate Valid()
      reads this
    {
      Grown(sha, events) && nextSeq == |events|
    }

    constructor (sha: Digest, ts: int)
      ensures Valid() && this.sha == sha && |events| == 1 && !isSealed
      ensures var e := events[0];
              && e.seqNo == 0 && e.ts == ts
              && e.actor == "system" && e.action == "chain.genesis" && e.subject == "audit_chain"
              && (forall b <- e.prevHash :: b == 0) && (forall b <- e.payloadHash :: b == 0)
              && e.hash == ComputeHash(sha, e)
    {
      var zeros := Zeroed();
      var genesis := AuditEvent(0, zeros, zeros, ts, "system", "chain.genesis", "audit_chain", zeros);
      var hash := ComputeHash(sha, genesis);
      HashIgnoresItself(sha, genesis, hash);
      this.sha := sha;
      events, nextSeq, isSealed := [genesis.(hash := hash)], 1, false;
    }

    method Append(ts: int, actor: string, action: string, subject: string, payload: string)
      returns (r: Result<AuditEvent, AuditError>)
      requires Valid()
      modifies this`events, this`nextSeq
      ensures Valid()
      ensures isSealed ==> r == Failure(ChainSealed) && events == old(events)
      ensures !isSealed ==>
                && r.Success? && events == old(events) + [r.value]
                && r.value == AuditEvent(old(|events|), old(events[|events| - 1].hash), ComputeHash(sha, r.value),
                                         ts, actor, action, subject, sha(payload))
    {
      if isSealed {
        return Failure(ChainSealed);
      }
      var prev := events[|events| - 1];
      var zeros := Zeroed();
      var event := AuditEvent(nextSeq, prev.hash, zeros, ts, actor, action, subject, sha(payload));
      var hash := ComputeHash(sha, event);
      HashIgnoresItself(sha, event, hash);
      event := event.(hash := hash);
      GrownByOne(sha, events, event);
      nextSeq := nextSeq + 1;
      events := events + [event];
      return Success(event);
    }

    /** Reports the first broken link, if any. */
    method Verify() returns (error: Option<AuditError>)
      ensures error.None? <==> Linked(sha, events)
      ensures error.Some? ==> FirstBroken(sha, events, error.value)
    {
      var i := 1;
      while i < |events|
        invariant i >= 1
        invariant forall k :: 1 <= k < |events| && k < i ==> LinkError(sha, events, k).None?
      {
        var curr, prev := events[i], events[i - 1];
        if curr.seqNo != prev.seqNo + 1 {
          error := Some(SeqGap(prev.seqNo + 1, curr.seqNo));
        } else if curr.prevHash != prev.hash {
          error := Some(HashBroken(curr.seqNo));
        } else if ComputeHash(sha, curr) != curr.hash {
          error := Some(HashBroken(curr.seqNo));
        } else {
          error := None;
        }
        if error.Some? {
          LinkedPrefix(sha, events, i);
          assert LinkError(sha, events, i) == error;
          return;
        }
        i := i + 1;
      }
      return None;
    }
  }

  lemma LinkedPrefix(sha: Digest, events: seq<AuditEvent>, n: nat)
    requires n <= |events|
    requires forall k :: 1 <= k < |events| && k < n ==> LinkError(sha, events, k).None?
    ensures Linked(sha, events[..n])
  {
    forall k | 1 <= k < n
      ensures LinkError(sha, events[..n], k).None?
    {
      assert LinkError(sha, events, k).None?;
    }
  }

  // ---- Incremental verification ----

  datatype Anchor = Anchor(seqNo: nat, hash: Hash)

  datatype VerificationResult = VerificationResult(eventsChecked: nat, fromSeq: nat, toSeq: int, isIncremental: bool)

  datatype VerifyError = ChainError(error: AuditError) | NoAnchor

  /** The links an incremental pass looks at; it does not recompute hashes. */
  ghost predicate LinkedWithoutHashes(events: seq<AuditEvent>, from: nat) {
    forall i :: from < i < |events| ==>
      events[i].seqNo == events[i - 1].seqNo + 1 && events[i].prevHash == events[i - 1].hash
  }

  ghost predicate BrokenLinkAfter(events: seq<AuditEvent>, from: nat, error: AuditError) {
    exists i :: from < i < |events| && LinkedWithoutHashes(events[..i], from)
                && error == if events[i].seqNo != events[i - 1].seqNo + 1 then
                              SeqGap(events[i - 1].seqNo + 1, events[i].seqNo)
                            else HashBroken(events[i].seqNo)
  }

  function LastSeq(nextSeq: nat): nat {
    if nextSeq == 0 then 0 else nextSeq - 1
  }

  method VerifyFull(chain: AuditChain) returns (r: Result<VerificationResult, VerifyError>)
    ensures r.Success? <==> Linked(chain.sha, chain.events)
    ensures r.Success? ==> r.value == VerificationResult(|chain.events|, 0, LastSeq(chain.nextSeq), false)
    ensures chain.Valid() ==> r.Success? && r.value.toSeq == chain.events[|chain.events| - 1].seqNo
    ensures r.Failure? ==> r.error.ChainError? && FirstBroken(chain.sha, chain.events, r.error.error)
  {
    var error := chain.Verify();
    if error.Some? {
      return Failure(ChainError(error.value));
    }
    return Success(VerificationResult(|chain.events|, 0, LastSeq(chain.nextSeq), false));
  }

  method VerifyIncremental(chain: AuditChain, anchors: seq<Anchor>) returns (r: Result<VerificationResult, VerifyError>)
    ensures anchors == [] ==> r == Failure(NoAnchor)
    ensures anchors != [] ==>
              var from := anchors[|anchors| - 1].seqNo;
              && (r.Success? <==> LinkedWithoutHashes(chain.events, from))
              && (r.Success? ==>
                    r.value == VerificationResult(if from >= |chain.events| then 0 else |chain.events| - from,
                                                  from, LastSeq(chain.nextSeq), true))
              && (r.Failure? ==> r.error.ChainError? && BrokenLinkAfter(chain.events, from, r.error.error))
  {
    if anchors == [] {
      return Failure(NoAnchor);
    }
    var from := anchors[|anchors| - 1].seqNo;
    if from >= |chain.events| {
      return Success(VerificationResult(0, from, LastSeq(chain.nextSeq), true));
    }
    for i := from + 1 to |chain.events|
      invariant forall k :: from < k < i ==>
                  && chain.events[k].seqNo == chain.events[k - 1].seqNo + 1
                  && chain.events[k].prevHash == chain.events[k - 1].hash
    {
      var curr, prev := chain.events[i], chain.events[i - 1];
      assert LinkedWithoutHashes(chain.events[..i], from);
      if curr.seqNo != prev.seqNo + 1 {
        return Failure(ChainError(SeqGap(prev.seqNo + 1, curr.seqNo)));
      }
      if curr.prevHash != prev.hash {
        return Failure(ChainError(HashBroken(curr.seqNo)));
      }
    }
    return Success(VerificationResult(|chain.events| - from, from, LastSeq(chain.nextSeq), true));
  }
}
