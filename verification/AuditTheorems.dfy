/** What a verified audit chain proves about its history, and what it does not. */
module AuditTheorems {
  import opened Wrappers
  import opened Audit

  // ---- The preimage determines the event ----

  ghost predicate BarFree(s: string) {
    '|' !in s
  }

  lemma {:induction false} DecimalShape(n: nat)
    ensures Decimal(n) != "" && forall c <- Decimal(n) :: c in DIGITS[..10]
  {
    if n >= 10 {
      DecimalShape(n / 10);
    }
  }

  lemma DigitsDiffer(i: nat, j: nat)
    requires i < 16 && j < 16 && DIGITS[i] == DIGITS[j]
    ensures i == j
  {
  }

  lemma DecimalLength(n: nat)
    ensures |Decimal(n)| >= 1 && (|Decimal(n)| == 1 <==> n < 10)
  {
    if n >= 10 {
      DecimalShape(n / 10);
    }
  }

  lemma {:induction false} DecimalInjective(m: nat, n: nat)
    requires Decimal(m) == Decimal(n)
    ensures m == n
  {
    DecimalLength(m);
    DecimalLength(n);
    var s := Decimal(m);
    if m >= 10 {
      assert s[..|s| - 1] == Decimal(m / 10) && s[..|s| - 1] == Decimal(n / 10);
      assert s[|s| - 1] == DIGITS[m % 10] && s[|s| - 1] == DIGITS[n % 10];
      DigitsDiffer(m % 10, n % 10);
      DecimalInjective(m / 10, n / 10);
    } else {
      assert s[0] == DIGITS[m] && s[0] == DIGITS[n];
      DigitsDiffer(m, n);
    }
  }

  /** A digit of a base up to sixteen, read back. */
  ghost function DigitValue(c: char): int {
    if '0' <= c <= '9' then c as int - '0' as int else 10 + (c as int - 'a' as int)
  }

  ghost function ReadDecimal(s: string): int {
    if s == "" then 0 else 10 * ReadDecimal(s[..|s| - 1]) + DigitValue(s[|s| - 1])
  }

  lemma DigitsRead(i: nat)
    requires i < 16
    ensures DigitValue(DIGITS[i]) == i
  {
  }

  /** The text of a number is its decimal notation, without leading zeros. */
  lemma {:induction false} DecimalReadsBack(n: nat)
    ensures ReadDecimal(Decimal(n)) == n && (n > 0 ==> Decimal(n)[0] != '0')
  {
    DecimalLength(n);
    DigitsRead(n % 10);
    if n >= 10 {
      DecimalReadsBack(n / 10);
      assert Decimal(n)[..|Decimal(n)| - 1] == Decimal(n / 10);
      DecimalLength(n / 10);
    } else {
      assert Decimal(n)[..0] == "";
    }
  }

  /** The text of bytes is two hexadecimal digits each, the higher one first. */
  lemma {:induction false} HexReadsBack(bytes: seq<byte>, i: nat)
    requires i < |bytes|
    ensures |Hex(bytes)| == 2 * |bytes|
    ensures bytes[i] as int == 16 * DigitValue(Hex(bytes)[2 * i]) + DigitValue(Hex(bytes)[2 * i + 1])
  {
    HexBarFree(bytes);
    if i == 0 {
      DigitsRead(bytes[0] as int / 16);
      DigitsRead(bytes[0] as int % 16);
    } else {
      HexBarFree(bytes[1..]);
      HexReadsBack(bytes[1..], i - 1);
      assert Hex(bytes)[2..] == Hex(bytes[1..]);
      assert Hex(bytes)[2 * i] == Hex(bytes)[2..][2 * (i - 1)];
      assert Hex(bytes)[2 * i + 1] == Hex(bytes)[2..][2 * (i - 1) + 1];
    }
  }

  /** What a verified link promises and what the error of a broken one says. */
  lemma LinksMean(sha: Digest, events: seq<AuditEvent>, i: nat)
    requires 1 <= i < |events|
    ensures var curr, prev := events[i], events[i - 1];
            var text := Decimal(curr.seqNo) + "|" + Hex(curr.prevHash) + "|"
                        + (if curr.ts < 0 then "-" + Decimal(-curr.ts) else Decimal(curr.ts))
                        + "|" + curr.actor + "|" + curr.action + "|" + curr.subject;
            LinkError(sha, events, i)
            == if curr.seqNo == prev.seqNo + 1 && curr.prevHash == prev.hash && curr.hash == sha(text) then None
               else if curr.seqNo != prev.seqNo + 1 then Some(SeqGap(prev.seqNo + 1, curr.seqNo))
               else Some(HashBroken(curr.seqNo))
  {
  }

  lemma SamePrefix(p: string, a: string, b: string)
    requires p + a == p + b
    ensures a == b
  {
    assert (p + a)[|p|..] == a && (p + b)[|p|..] == b;
  }

  lemma SignShows(n: int)
    ensures Signed(n) != "" && (Signed(n)[0] == '-' <==> n < 0)
  {
    DecimalShape(if n < 0 then -n else n);
    assert n >= 0 ==> Signed(n)[0] in Decimal(n);
  }

  lemma SignedInjective(m: int, n: int)
    requires Signed(m) == Signed(n)
    ensures m == n
  {
    hide Decimal;
    SignShows(m);
    SignShows(n);
    if m < 0 {
      SamePrefix("-", Decimal(-m), Decimal(-n));
      DecimalInjective(-m, -n);
    } else {
      DecimalInjective(m, n);
    }
  }

  lemma SignedBarFree(n: int)
    ensures BarFree(Signed(n))
  {
    DecimalShape(if n < 0 then -n else n);
  }

  lemma {:induction false} HexBarFree(bytes: seq<byte>)
    ensures BarFree(Hex(bytes)) && |Hex(bytes)| == 2 * |bytes|
  {
    if bytes != [] {
      HexBarFree(bytes[1..]);
      assert DIGITS[bytes[0] as int / 16] != '|' && DIGITS[bytes[0] as int % 16] != '|';
    }
  }

  lemma {:induction false} HexInjective(a: seq<byte>, b: seq<byte>)
    requires Hex(a) == Hex(b)
    ensures a == b
  {
    HexBarFree(a);
    HexBarFree(b);
    if a != [] {
      var s := Hex(a);
      assert s[0] == DIGITS[a[0] as int / 16] == DIGITS[b[0] as int / 16];
      assert s[1] == DIGITS[a[0] as int % 16] == DIGITS[b[0] as int % 16];
      DigitsDiffer(a[0] as int / 16, b[0] as int / 16);
      DigitsDiffer(a[0] as int % 16, b[0] as int % 16);
      assert s[2..] == Hex(a[1..]) == Hex(b[1..]);
      HexInjective(a[1..], b[1..]);
      assert a == [a[0]] + a[1..] && b == [b[0]] + b[1..];
    }
  }

  ghost predicate FirstBarAt(s: string, k: nat) {
    k < |s| && s[k] == '|' && forall i :: 0 <= i < k ==> s[i] != '|'
  }

  lemma FirstBar(a: string, rest: string)
    requires BarFree(a)
    ensures FirstBarAt(a + "|" + rest, |a|)
  {
    var s := a + "|" + rest;
    assert forall i :: 0 <= i < |a| ==> s[i] == a[i] && s[i] in a;
  }

  /** Cutting two equal texts at their first bar cuts them alike. */
  lemma CutAtBar(a: string, rest: string, b: string, other: string)
    requires BarFree(a) && BarFree(b) && a + "|" + rest == b + "|" + other
    ensures a == b && rest == other
  {
    var s := a + "|" + rest;
    FirstBar(a, rest);
    FirstBar(b, other);
    assert |a| == |b|;
    assert s[..|a|] == a && s[..|b|] == b;
    assert s[|a| + 1..] == rest && s[|b| + 1..] == other;
  }

  /** The fields that are hashed. */
  ghost predicate SameContent(a: AuditEvent, b: AuditEvent) {
    a.seqNo == b.seqNo && a.prevHash == b.prevHash && a.ts == b.ts
    && a.actor == b.actor && a.action == b.action && a.subject == b.subject
  }

  ghost function Words(e: AuditEvent): string {
    e.actor + "|" + e.action + "|" + e.subject
  }

  ghost function AfterSeq(e: AuditEvent): string {
    Hex(e.prevHash) + "|" + AfterHash(e)
  }

  ghost function AfterHash(e: AuditEvent): string {
    Signed(e.ts) + "|" + Words(e)
  }

  lemma PreimageParts(e: AuditEvent)
    ensures Preimage(e) == Decimal(e.seqNo) + "|" + AfterSeq(e)
    ensures BarFree(Decimal(e.seqNo)) && BarFree(Hex(e.prevHash)) && BarFree(Signed(e.ts))
  {
    DecimalShape(e.seqNo);
    HexBarFree(e.prevHash);
    SignedBarFree(e.ts);
    hide Decimal, Hex, Signed;
    assert Preimage(e) == Decimal(e.seqNo) + "|" + (Hex(e.prevHash) + "|" + (Signed(e.ts) + "|" + Words(e)));
  }

  /** The three machine-made fields are always recoverable; the three words only as one text. */
  lemma PreimageSplits(a: AuditEvent, b: AuditEvent)
    ensures Preimage(a) == Preimage(b)
            <==> a.seqNo == b.seqNo && a.prevHash == b.prevHash && a.ts == b.ts && Words(a) == Words(b)
  {
    hide Decimal, Hex, Signed, Words, Preimage;
    PreimageParts(a);
    PreimageParts(b);
    if Preimage(a) == Preimage(b) {
      CutAtBar(Decimal(a.seqNo), AfterSeq(a), Decimal(b.seqNo), AfterSeq(b));
      DecimalInjective(a.seqNo, b.seqNo);
      CutAtBar(Hex(a.prevHash), AfterHash(a), Hex(b.prevHash), AfterHash(b));
      HexInjective(a.prevHash, b.prevHash);
      CutAtBar(Signed(a.ts), Words(a), Signed(b.ts), Words(b));
      SignedInjective(a.ts, b.ts);
    }
  }

  ghost predicate Separable(e: AuditEvent) {
    BarFree(e.actor) && BarFree(e.action)
  }

  lemma PreimageInjective(a: AuditEvent, b: AuditEvent)
    requires Separable(a) && Separable(b) && Preimage(a) == Preimage(b)
    ensures SameContent(a, b)
  {
    PreimageSplits(a, b);
    assert Words(a) == a.actor + "|" + (a.action + "|" + a.subject);
    assert Words(b) == b.actor + "|" + (b.action + "|" + b.subject);
    CutAtBar(a.actor, a.action + "|" + a.subject, b.actor, b.action + "|" + b.subject);
    CutAtBar(a.action, a.subject, b.action, b.subject);
  }

  ghost predicate Ambiguous(e: AuditEvent) {
    exists other: AuditEvent :: Preimage(other) == Preimage(e) && !SameContent(other, e)
  }

  /** Cutting `word` at a bar reads the words `front`, `word` and `back` in another way. */
  lemma CutWords(front: string, word: string, back: string, k: nat)
    requires k < |word| && word[k] == '|'
    ensures word[..k] + "|" + (word[k + 1..] + "|" + back) == word + "|" + back
    ensures (front + "|" + word[..k]) + "|" + word[k + 1..] == front + "|" + word
  {
    assert word == word[..k] + "|" + word[k + 1..];
  }

  /**
   * Without the restriction the preimage is ambiguous: an event shares it with a different one
   * exactly when a bar occurs in its actor, action or subject.
   */
  lemma AmbiguousExactlyWithBars(e: AuditEvent)
    ensures Ambiguous(e) <==> !BarFree(e.actor) || !BarFree(e.action) || !BarFree(e.subject)
  {
    hide Preimage;
    if !BarFree(e.actor) {
      var k := BarIn(e.actor);
      CutWords("", e.actor, e.action, k);
      OtherReading(e.(actor := e.actor[..k], action := e.actor[k + 1..] + "|" + e.action), e);
    } else if !BarFree(e.action) {
      var k := BarIn(e.action);
      CutWords(e.actor, e.action, "", k);
      OtherReading(e.(actor := e.actor + "|" + e.action[..k], action := e.action[k + 1..]), e);
    } else if !BarFree(e.subject) {
      var k := BarIn(e.subject);
      CutWords(e.action, e.subject, "", k);
      OtherReading(e.(action := e.action + "|" + e.subject[..k], subject := e.subject[k + 1..]), e);
    } else {
      forall other: AuditEvent | Preimage(other) == Preimage(e)
        ensures SameContent(other, e)
      {
        PreimageSplits(other, e);
        OneReading(other, e);
      }
    }
  }

  lemma OtherReading(other: AuditEvent, e: AuditEvent)
    requires other.seqNo == e.seqNo && other.prevHash == e.prevHash && other.ts == e.ts && Words(other) == Words(e)
    requires |other.actor| != |e.actor| || |other.action| != |e.action|
    ensures Ambiguous(e)
  {
    PreimageSplits(other, e);
    assert !SameContent(other, e);
  }

  lemma BarIn(s: string) returns (k: nat)
    requires !BarFree(s)
    ensures k < |s| && s[k] == '|'
  {
    k :| 0 <= k < |s| && s[k] == '|';
  }

  ghost function Bars(s: string): nat {
    if s == "" then 0 else (if s[0] == '|' then 1 else 0) + Bars(s[1..])
  }

  lemma {:induction false} BarsJoin(a: string, b: string)
    ensures Bars(a + b) == Bars(a) + Bars(b)
  {
    if a == "" {
      assert a + b == b;
    } else {
      assert (a + b)[1..] == a[1..] + b;
      BarsJoin(a[1..], b);
    }
  }

  lemma {:induction false} NoBars(a: string)
    ensures Bars(a) == 0 <==> BarFree(a)
  {
    if a != "" {
      NoBars(a[1..]);
      assert a == [a[0]] + a[1..];
    }
  }

  lemma WordBars(e: AuditEvent)
    ensures Bars(Words(e)) == Bars(e.actor) + Bars(e.action) + Bars(e.subject) + 2
  {
    assert Words(e) == e.actor + ("|" + (e.action + ("|" + e.subject)));
    BarsJoin(e.actor, "|" + (e.action + ("|" + e.subject)));
    BarsJoin("|", e.action + ("|" + e.subject));
    BarsJoin(e.action, "|" + e.subject);
    BarsJoin("|", e.subject);
    assert Bars("|") == 1;
  }

  lemma OneReading(a: AuditEvent, e: AuditEvent)
    requires Preimage(a) == Preimage(e) && Words(a) == Words(e)
    requires BarFree(e.actor) && BarFree(e.action) && BarFree(e.subject)
    ensures SameContent(a, e)
  {
    WordBars(a);
    WordBars(e);
    NoBars(e.actor);
    NoBars(e.action);
    NoBars(e.subject);
    NoBars(a.actor);
    NoBars(a.action);
    PreimageInjective(a, e);
  }

  // ---- Chain pinning ----

  /** The digest does not collide on the texts these two chains hash. */
  ghost predicate CollisionFree(sha: Digest, a: seq<AuditEvent>, b: seq<AuditEvent>) {
    forall x, y :: x in a && y in b && sha(Preimage(x)) == sha(Preimage(y)) ==> Preimage(x) == Preimage(y)
  }

  ghost predicate AllSeparable(events: seq<AuditEvent>) {
    forall e <- events :: Separable(e)
  }

  /** Two verified chains of equal length with the same head hash tell the same story. */
  lemma {:induction false} HeadPinsHistory(sha: Digest, a: seq<AuditEvent>, b: seq<AuditEvent>, n: nat, k: nat)
    requires Linked(sha, a) && Linked(sha, b) && AllSeparable(a) && AllSeparable(b) && CollisionFree(sha, a, b)
    requires |a| == |b| && k < n <= |a| && a[n - 1].hash == b[n - 1].hash
    ensures a[k].hash == b[k].hash && (k > 0 ==> SameContent(a[k], b[k]))
    decreases n
  {
    if n > 1 {
      var i := n - 1;
      assert LinkError(sha, a, i).None? && LinkError(sha, b, i).None?;
      assert a[i] in a && b[i] in b;
      PreimageInjective(a[i], b[i]);
      if k < i {
        HeadPinsHistory(sha, a, b, n - 1, k);
      }
    }
  }

  /**
   * For chains built by the append-only interface the head hash alone fixes everything that is
   * hashed, genesis and length included.
   */
  lemma HeadPinsWholeChain(sha: Digest, a: seq<AuditEvent>, b: seq<AuditEvent>)
    requires Grown(sha, a) && Grown(sha, b) && AllSeparable(a) && AllSeparable(b) && CollisionFree(sha, a, b)
    requires a[|a| - 1].hash == b[|b| - 1].hash
    ensures |a| == |b|
    ensures forall k :: 0 <= k < |a| ==> SameContent(a[k], b[k]) && a[k].hash == b[k].hash
  {
    var i, j := |a| - 1, |b| - 1;
    SameHashSameEvent(sha, a, b, i, j);
    assert a[i].seqNo == i && b[j].seqNo == j;
    forall k | 0 <= k < |a|
      ensures SameContent(a[k], b[k]) && a[k].hash == b[k].hash
    {
      HeadPinsHistory(sha, a, b, |a|, k);
      SameHashSameEvent(sha, a, b, k, k);
    }
  }

  lemma SameHashSameEvent(sha: Digest, a: seq<AuditEvent>, b: seq<AuditEvent>, i: nat, j: nat)
    requires Grown(sha, a) && Grown(sha, b) && AllSeparable(a) && AllSeparable(b) && CollisionFree(sha, a, b)
    requires i < |a| && j < |b| && a[i].hash == b[j].hash
    ensures SameContent(a[i], b[j])
  {
    HashIsOwn(sha, a, i);
    HashIsOwn(sha, b, j);
    assert a[i] in a && b[j] in b;
    PreimageInjective(a[i], b[j]);
  }

  lemma HashIsOwn(sha: Digest, events: seq<AuditEvent>, k: nat)
    requires Grown(sha, events) && k < |events|
    ensures events[k].hash == sha(Preimage(events[k]))
  {
    if k == 0 {
      assert IsGenesis(sha, events[0]);
    } else {
      assert LinkError(sha, events, k).None?;
    }
  }

  // ---- What verification does not see ----

  /** Payload hashes are outside the preimage: replacing any of them leaves verification unchanged. */
  lemma PayloadHashesAreUnprotected(sha: Digest, events: seq<AuditEvent>, k: nat, forged: Hash)
    requires k < |events|
    ensures Linked(sha, events[k := events[k].(payloadHash := forged)]) <==> Linked(sha, events)
  {
    hide Decimal, Hex, Signed;
    var changed := events[k := events[k].(payloadHash := forged)];
    forall i | 1 <= i < |events|
      ensures LinkError(sha, changed, i) == LinkError(sha, events, i)
    {
      assert Preimage(changed[i]) == Preimage(events[i]);
    }
  }

  /** Full verification is incremental verification plus the older links plus every newer hash. */
  lemma IncrementalAgainstFull(sha: Digest, events: seq<AuditEvent>, from: nat)
    requires from < |events|
    ensures Linked(sha, events)
            <==> && Linked(sha, events[..from + 1])
                 && LinkedWithoutHashes(events, from)
                 && forall i :: from < i < |events| ==> ComputeHash(sha, events[i]) == events[i].hash
  {
    if Linked(sha, events) {
      LinkedPrefix(sha, events, from + 1);
      forall i | from < i < |events|
        ensures ComputeHash(sha, events[i]) == events[i].hash && events[i].seqNo == events[i - 1].seqNo + 1
                && events[i].prevHash == events[i - 1].hash
      {
        assert LinkError(sha, events, i).None?;
      }
    }
    forall i | 1 <= i <= from
      ensures LinkError(sha, events, i) == LinkError(sha, events[..from + 1], i)
    {
    }
  }

  /** Rewriting the subject of a newer event breaks the full check and passes the incremental one. */
  lemma IncrementalMissesRewrites(sha: Digest, events: seq<AuditEvent>, from: nat, k: nat, subject: string)
    requires Linked(sha, events) && from < k < |events|
    requires sha(Preimage(events[k].(subject := subject))) != sha(Preimage(events[k]))
    ensures var rewritten := events[k := events[k].(subject := subject)];
            LinkedWithoutHashes(rewritten, from) && !Linked(sha, rewritten)
  {
    var rewritten := events[k := events[k].(subject := subject)];
    IncrementalAgainstFull(sha, events, from);
    assert LinkError(sha, events, k).None?;
    assert LinkError(sha, rewritten, k).Some?;
  }

  /**
   * Cutting events off the end is never noticed: a cut of a linked chain passes both checks, and a
   * chain cut back to its anchor or before it passes an incremental check whatever it holds.
   */
  lemma IncrementalMissesTruncation(sha: Digest, events: seq<AuditEvent>, from: nat, n: nat)
    requires n <= |events|
    ensures Linked(sha, events) ==> Linked(sha, events[..n]) && LinkedWithoutHashes(events[..n], from)
    ensures n <= from + 1 ==> LinkedWithoutHashes(events[..n], from)
  {
    if Linked(sha, events) {
      LinkedPrefix(sha, events, n);
      forall i | from < i < n
        ensures events[i].seqNo == events[i - 1].seqNo + 1 && events[i].prevHash == events[i - 1].hash
      {
        assert LinkError(sha, events, i).None?;
      }
    }
  }
}
