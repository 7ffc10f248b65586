/** Normalised JSON has one representative per equivalence class and loses nothing. */
module CanonicalJsonTheorems {
  import opened Wrappers
  import opened CanonicalJson

  /** Equal up to the order of object keys, at any depth. */
  ghost predicate Equivalent(a: Json, b: Json) {
    match a
    case Array(items) =>
      && b.Array? && |items| == |b.items|
      && forall i :: 0 <= i < |items| ==> Equivalent(items[i], b.items[i])
    case Object(entries) =>
      && b.Object?
      && (forall i :: 0 <= i < |entries| ==> HasKey(b.entries, entries[i].key))
      && (forall j :: 0 <= j < |b.entries| ==> HasKey(entries, b.entries[j].key))
      && forall i, j :: 0 <= i < |entries| && 0 <= j < |b.entries| && entries[i].key == b.entries[j].key ==>
           Equivalent(entries[i].value, b.entries[j].value)
    case _ => a == b
  }

  ghost predicate HasKey(entries: seq<Entry>, key: string) {
    exists i :: 0 <= i < |entries| && entries[i].key == key
  }

  lemma NormalisedEntries(entries: seq<Entry>)
    requires DistinctKeys(entries)
    ensures var r := SortByKey(NormaliseValues(entries));
            Sorted(r) && Members(r) == Members(NormaliseValues(entries)) && DistinctKeys(r) && |r| == |entries|
  {
    SortedFacts(NormaliseValues(entries));
  }

  lemma SameMembers(a: seq<Entry>, b: seq<Entry>)
    requires forall i :: 0 <= i < |a| ==> a[i] in b
    requires forall j :: 0 <= j < |b| ==> b[j] in a
    ensures Members(a) == Members(b)
  {
  }

  /** Equivalent values normalise to the same value. */
  lemma {:induction false} EquivalentMeet(a: Json, b: Json)
    requires WellFormed(a) && WellFormed(b) && Equivalent(a, b)
    ensures Normalise(a) == Normalise(b)
    decreases a
  {
    match a {
      case Array(items) =>
        forall i | 0 <= i < |items|
          ensures Normalise(items[i]) == Normalise(b.items[i])
        {
          EquivalentMeet(items[i], b.items[i]);
        }
        assert Normalise(a).items == Normalise(b).items;
      case Object(entries) =>
        var x, y := NormaliseValues(entries), NormaliseValues(b.entries);
        forall i, j | 0 <= i < |entries| && 0 <= j < |b.entries| && entries[i].key == b.entries[j].key
          ensures x[i] == y[j]
        {
          EquivalentMeet(entries[i].value, b.entries[j].value);
        }
        forall i | 0 <= i < |x|
          ensures x[i] in y
        {
          var j :| 0 <= j < |b.entries| && b.entries[j].key == entries[i].key;
          assert x[i] == y[j];
        }
        forall j | 0 <= j < |y|
          ensures y[j] in x
        {
          var i :| 0 <= i < |entries| && entries[i].key == b.entries[j].key;
          assert x[i] == y[j];
        }
        SameMembers(x, y);
        NormalisedEntries(entries);
        NormalisedEntries(b.entries);
        SortedUnique(SortByKey(x), SortByKey(y));
      case _ =>
    }
  }

  /** Values with the same normal form are equivalent. */
  lemma {:induction false} MeetingIsEquivalent(a: Json, b: Json)
    requires WellFormed(a) && WellFormed(b) && Normalise(a) == Normalise(b)
    ensures Equivalent(a, b)
    decreases a
  {
    match a {
      case Array(items) =>
        forall i | 0 <= i < |items|
          ensures Equivalent(items[i], b.items[i])
        {
          assert Normalise(a).items[i] == Normalise(b).items[i];
          MeetingIsEquivalent(items[i], b.items[i]);
        }
      case Object(entries) =>
        var x, y := NormaliseValues(entries), NormaliseValues(b.entries);
        NormalisedEntries(entries);
        NormalisedEntries(b.entries);
        assert Members(x) == Members(y);
        forall i | 0 <= i < |entries|
          ensures HasKey(b.entries, entries[i].key)
        {
          assert x[i] in Members(x) && x[i] in y;
          var j :| 0 <= j < |y| && y[j] == x[i];
          assert b.entries[j].key == entries[i].key;
        }
        forall j | 0 <= j < |b.entries|
          ensures HasKey(entries, b.entries[j].key)
        {
          assert y[j] in Members(y) && y[j] in x;
          var i :| 0 <= i < |x| && x[i] == y[j];
          assert entries[i].key == b.entries[j].key;
        }
        forall i, j | 0 <= i < |entries| && 0 <= j < |b.entries| && entries[i].key == b.entries[j].key
          ensures Equivalent(entries[i].value, b.entries[j].value)
        {
          assert x[i] in Members(x) && x[i] in y;
          var k :| 0 <= k < |y| && y[k] == x[i];
          assert b.entries[k].key == b.entries[j].key;
          assert k == j;
          MeetingIsEquivalent(entries[i].value, b.entries[j].value);
        }
      case _ =>
    }
  }

  /** The canonical form decides equality up to key order. */
  lemma CanonicalFormIsUnique(a: Json, b: Json)
    requires WellFormed(a) && WellFormed(b)
    ensures Normalise(a) == Normalise(b) <==> Equivalent(a, b)
  {
    if Equivalent(a, b) {
      EquivalentMeet(a, b);
    }
    if Normalise(a) == Normalise(b) {
      MeetingIsEquivalent(a, b);
    }
  }

  /** Normalising reorders keys and nothing else. */
  lemma {:induction false} NormaliseIsEquivalent(v: Json)
    requires WellFormed(v)
    ensures WellFormed(Normalise(v)) && Equivalent(Normalise(v), v)
    decreases v
  {
    match v {
      case Array(items) =>
        forall i | 0 <= i < |items|
          ensures WellFormed(Normalise(items[i])) && Equivalent(Normalise(items[i]), items[i])
        {
          NormaliseIsEquivalent(items[i]);
        }
      case Object(entries) =>
        var x, r := NormaliseValues(entries), Normalise(v).entries;
        NormalisedEntries(entries);
        forall i | 0 <= i < |r|
          ensures WellFormed(r[i].value) && HasKey(entries, r[i].key)
          ensures forall j :: 0 <= j < |entries| && entries[j].key == r[i].key ==>
                  Equivalent(r[i].value, entries[j].value)
        {
          assert r[i] in Members(r) && r[i] in x;
          var k :| 0 <= k < |x| && x[k] == r[i];
          assert entries[k].key == r[i].key;
          NormaliseIsEquivalent(entries[k].value);
          assert forall j :: 0 <= j < |entries| && entries[j].key == r[i].key ==> j == k;
        }
        forall j | 0 <= j < |entries|
          ensures HasKey(r, entries[j].key)
        {
          assert x[j] in Members(x) && x[j] in r;
          var i :| 0 <= i < |r| && r[i] == x[j];
          assert r[i].key == entries[j].key;
        }
      case _ =>
    }
  }

  lemma NormaliseIsIdempotent(v: Json)
    requires WellFormed(v)
    ensures Normalise(Normalise(v)) == Normalise(v)
  {
    NormaliseIsEquivalent(v);
    EquivalentMeet(Normalise(v), v);
  }

  // ---- Keys ascend ----

  /** `a` is a proper prefix of `b`, or has the smaller character where they first differ. */
  ghost predicate Before(a: string, b: string) {
    exists k :: SameUpTo(a, b, k) && (k == |a| || a[k] < b[k])
  }

  ghost predicate SameUpTo(a: string, b: string, k: int) {
    0 <= k <= |a| && k < |b| && a[..k] == b[..k]
  }

  lemma SameAt(a: string, b: string, k: int, i: nat)
    requires SameUpTo(a, b, k) && i < k
    ensures a[i] == b[i]
  {
    assert a[..k][i] == b[..k][i];
  }

  /** The order of keys is the dictionary order. */
  lemma {:induction false} LessMeans(a: string, b: string)
    ensures Less(a, b) <==> Before(a, b)
  {
    if b != "" {
      assert SameUpTo(a, b, 0);
      if a != "" && a[0] == b[0] {
        LessMeans(a[1..], b[1..]);
        if Before(a[1..], b[1..]) {
          var k :| SameUpTo(a[1..], b[1..], k) && (k == |a[1..]| || a[1..][k] < b[1..][k]);
          assert a[..k + 1] == [a[0]] + a[1..][..k] && b[..k + 1] == [b[0]] + b[1..][..k];
          assert SameUpTo(a, b, k + 1);
        }
        if Before(a, b) {
          var k :| SameUpTo(a, b, k) && (k == |a| || a[k] < b[k]);
          assert a[1..][..k - 1] == a[..k][1..] && b[1..][..k - 1] == b[..k][1..];
          assert SameUpTo(a[1..], b[1..], k - 1);
        }
      } else if a != "" && a[0] != b[0] {
        forall k | SameUpTo(a, b, k)
          ensures k == 0
        {
          if k != 0 {
            SameAt(a, b, k, 0);
            assert false;
          }
        }
      }
    }
  }

  /** At every depth, each key of an object comes before the next. */
  ghost predicate InOrder(v: Json) {
    match v
    case Array(items) => forall i :: 0 <= i < |items| ==> InOrder(items[i])
    case Object(entries) =>
      && (forall i :: 0 <= i < |entries| ==> InOrder(entries[i].value))
      && forall i, j :: 0 <= i < j < |entries| ==> Before(entries[i].key, entries[j].key)
    case _ => true
  }

  lemma {:induction false} NormalisedKeysAscend(v: Json)
    requires WellFormed(v)
    ensures InOrder(Normalise(v))
    decreases v
  {
    match v {
      case Array(items) =>
        forall i | 0 <= i < |items|
          ensures InOrder(Normalise(items[i]))
        {
          NormalisedKeysAscend(items[i]);
        }
      case Object(entries) =>
        var x, r := NormaliseValues(entries), Normalise(v).entries;
        NormalisedEntries(entries);
        forall i | 0 <= i < |r|
          ensures InOrder(r[i].value)
        {
          assert r[i] in Members(r) && r[i] in x;
          var k :| 0 <= k < |x| && x[k] == r[i];
          NormalisedKeysAscend(entries[k].value);
        }
        forall i, j | 0 <= i < j < |r|
          ensures Before(r[i].key, r[j].key)
        {
          LessMeans(r[i].key, r[j].key);
        }
      case _ =>
    }
  }

  function Get(entries: seq<Entry>, key: string): Option<Json> {
    if entries == [] then None
    else if entries[0].key == key then Some(entries[0].value)
    else Get(entries[1..], key)
  }

  lemma {:induction false} GetFinds(entries: seq<Entry>, key: string)
    ensures Get(entries, key).None? <==> !HasKey(entries, key)
    ensures DistinctKeys(entries) ==>
              forall i :: 0 <= i < |entries| && entries[i].key == key ==> Get(entries, key) == Some(entries[i].value)
  {
    if entries != [] {
      var rest := entries[1..];
      GetFinds(rest, key);
      assert forall i :: 1 <= i < |entries| ==> entries[i] == rest[i - 1];
      if HasKey(entries, key) && entries[0].key != key {
        var i :| 0 <= i < |entries| && entries[i].key == key;
        assert rest[i - 1].key == key;
      }
      if HasKey(rest, key) {
        var i :| 0 <= i < |rest| && rest[i].key == key;
        assert entries[i + 1].key == key;
      }
    }
  }

  /** Every lookup answers as before, with its answer normalised; arrays keep their positions. */
  lemma LookupsArePreserved(v: Json, key: string)
    requires WellFormed(v)
    ensures v.Object? ==>
              Get(Normalise(v).entries, key)
              == match Get(v.entries, key) case None => None case Some(x) => Some(Normalise(x))
    ensures v.Array? ==>
              && |Normalise(v).items| == |v.items|
              && forall i :: 0 <= i < |v.items| ==> Normalise(v).items[i] == Normalise(v.items[i])
  {
    if v.Object? {
      var entries, x, r := v.entries, NormaliseValues(v.entries), Normalise(v).entries;
      NormalisedEntries(entries);
      GetFinds(entries, key);
      GetFinds(r, key);
      if HasKey(entries, key) {
        var k :| 0 <= k < |entries| && entries[k].key == key;
        assert x[k] in Members(x) && x[k] in r;
        var i :| 0 <= i < |r| && r[i] == x[k];
        assert r[i].key == key;
      }
      if HasKey(r, key) {
        var i :| 0 <= i < |r| && r[i].key == key;
        assert r[i] in Members(r) && r[i] in x;
        var k :| 0 <= k < |x| && x[k] == r[i];
        assert entries[k].key == key;
      }
    }
  }
}
