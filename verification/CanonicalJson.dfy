/**
 * Canonical key order of JSON values (crates/aether-core/src/json.rs).
 *
 * An object is the list of its entries in insertion order, which is what a map that preserves
 * order holds. Keys compare by code point, which is the byte order of their UTF-8 encodings.
 */
module CanonicalJson {
  import opened Wrappers

  datatype Entry = Entry(key: string, value: Json)

  datatype Json =
    | Null
    | Bool(b: bool)
    | Number(text: string)
    | Text(s: string)
    | Array(items: seq<Json>)
    | Object(entries: seq<Entry>)

  predicate Less(a: string, b: string) {
    b != "" && (a == "" || a[0] < b[0] || (a[0] == b[0] && Less(a[1..], b[1..])))
  }

  ghost predicate DistinctKeys(entries: seq<Entry>) {
    forall i, j :: 0 <= i < j < |entries| ==> entries[i].key != entries[j].key
  }

  /** No object inside `v` holds a key twice; maps guarantee it. */
  ghost predicate WellFormed(v: Json) {
    match v
    case Array(items) => forall i :: 0 <= i < |items| ==> WellFormed(items[i])
    case Object(entries) => DistinctKeys(entries) && forall i :: 0 <= i < |entries| ==> WellFormed(entries[i].value)
    case _ => true
  }

  // ---- Normalising ----

  function Insert(e: Entry, sorted: seq<Entry>): seq<Entry> {
    if sorted == [] || !Less(sorted[0].key, e.key) then [e] + sorted
    else [sorted[0]] + Insert(e, sorted[1..])
  }

  /** The stable sort by key. */
  function SortByKey(entries: seq<Entry>): seq<Entry> {
    if entries == [] then [] else Insert(entries[0], SortByKey(entries[1..]))
  }

  function Normalise(v: Json): Json {
    match v
    case Array(items) => Array(seq(|items|, i requires 0 <= i < |items| => Normalise(items[i])))
    case Object(entries) => Object(SortByKey(NormaliseValues(entries)))
    case _ => v
  }

  function NormaliseValues(entries: seq<Entry>): seq<Entry> {
    seq(|entries|, i requires 0 <= i < |entries| => Entry(entries[i].key, Normalise(entries[i].value)))
  }

  /** Inserting into an order-preserving map: an existing key keeps its place. */
  function Put(entries: seq<Entry>, key: string, value: Json): seq<Entry> {
    if entries == [] then [Entry(key, value)]
    else if entries[0].key == key then [Entry(key, value)] + entries[1..]
    else [entries[0]] + Put(entries[1..], key, value)
  }

  method SortJsonKeys(value: Json) returns (r: Json)
    requires WellFormed(value)
    ensures r == Normalise(value)
    decreases value
  {
    match value {
      case Object(fields) =>
        var entries := fields;
        for i := 0 to |fields|
          invariant |entries| == |fields|
          invariant forall k :: 0 <= k < i ==> entries[k] == Entry(fields[k].key, Normalise(fields[k].value))
          invariant forall k :: i <= k < |fields| ==> entries[k] == fields[k]
        {
          var v := SortJsonKeys(fields[i].value);
          entries := entries[i := Entry(entries[i].key, v)];
        }
        assert entries == NormaliseValues(fields);
        var sorted := SortByKey(entries);
        SortedFacts(entries);
        var rebuilt: seq<Entry> := [];
        for i := 0 to |sorted|
          invariant rebuilt == sorted[..i]
        {
          PutNew(sorted[..i], sorted[i].key, sorted[i].value);
          rebuilt := Put(rebuilt, sorted[i].key, sorted[i].value);
          assert sorted[..i + 1] == sorted[..i] + [sorted[i]];
        }
        assert sorted[..|sorted|] == sorted;
        r := Object(rebuilt);
      case Array(arr) =>
        var items := arr;
        for i := 0 to |arr|
          invariant |items| == |arr|
          invariant forall k :: 0 <= k < i ==> items[k] == Normalise(arr[k])
          invariant forall k :: i <= k < |arr| ==> items[k] == arr[k]
        {
          var v := SortJsonKeys(arr[i]);
          items := items[i := v];
        }
        r := Array(items);
        assert items == Normalise(value).items;
      case _ => r := value;
    }
  }

  /** The wrapper type accepts objects only. */
  method NewJsonObject(value: Json) returns (r: Option<Json>)
    requires WellFormed(value)
    ensures r == if value.Object? then Some(Normalise(value)) else None
  {
    if !value.Object? {
      return None;
    }
    var v := SortJsonKeys(value);
    return Some(v);
  }

  // ---- The order ----

  lemma {:induction false} LessIrreflexive(a: string)
    ensures !Less(a, a)
  {
    if a != "" {
      LessIrreflexive(a[1..]);
    }
  }

  lemma {:induction false} LessTransitive(a: string, b: string, c: string)
    requires Less(a, b) && Less(b, c)
    ensures Less(a, c)
  {
    if a != "" && a[0] == b[0] == c[0] {
      LessTransitive(a[1..], b[1..], c[1..]);
    }
  }

  lemma {:induction false} LessTotal(a: string, b: string)
    ensures a == b || Less(a, b) || Less(b, a)
  {
    if a != "" && b != "" {
      if a[0] == b[0] {
        LessTotal(a[1..], b[1..]);
        assert a[1..] == b[1..] ==> a == [a[0]] + a[1..] && b == [b[0]] + b[1..];
      }
    }
  }

  // ---- The sort ----

  ghost predicate Sorted(entries: seq<Entry>) {
    forall i, j :: 0 <= i < j < |entries| ==> Less(entries[i].key, entries[j].key)
  }

  ghost function Members(entries: seq<Entry>): set<Entry> {
    set e | e in entries
  }

  /** A least entry in front keeps the order. */
  lemma SortedCons(e: Entry, rest: seq<Entry>)
    requires Sorted(rest) && forall x <- rest :: Less(e.key, x.key)
    ensures Sorted([e] + rest) && Members([e] + rest) == Members(rest) + {e}
  {
    hide Less;
    var r := [e] + rest;
    assert forall j :: 0 < j < |r| ==> r[j] == rest[j - 1] && rest[j - 1] in rest;
  }

  lemma {:induction false} InsertFacts(e: Entry, sorted: seq<Entry>)
    requires Sorted(sorted) && forall x <- sorted :: x.key != e.key
    ensures Sorted(Insert(e, sorted)) && |Insert(e, sorted)| == |sorted| + 1
    ensures Members(Insert(e, sorted)) == Members(sorted) + {e}
  {
    hide Less;
    if sorted == [] {
      SortedCons(e, []);
    } else {
      var head, tail := sorted[0], sorted[1..];
      assert head in sorted && sorted == [head] + tail;
      if !Less(head.key, e.key) {
        LessTotal(head.key, e.key);
        forall x <- sorted
          ensures Less(e.key, x.key)
        {
          if x != head {
            LessTransitive(e.key, head.key, x.key);
          }
        }
        SortedCons(e, sorted);
      } else {
        InsertFacts(e, tail);
        var rest := Insert(e, tail);
        forall x <- rest
          ensures Less(head.key, x.key)
        {
          assert x in Members(rest);
        }
        SortedCons(head, rest);
        assert Members(sorted) == Members(tail) + {head};
      }
    }
  }

  lemma {:induction false} SortedFacts(entries: seq<Entry>)
    requires DistinctKeys(entries)
    ensures Sorted(SortByKey(entries)) && |SortByKey(entries)| == |entries|
    ensures Members(SortByKey(entries)) == Members(entries)
    ensures DistinctKeys(SortByKey(entries))
  {
    if entries != [] {
      SortedFacts(entries[1..]);
      var rest := SortByKey(entries[1..]);
      assert entries == [entries[0]] + entries[1..];
      forall x <- rest
        ensures x.key != entries[0].key
      {
        assert x in Members(rest) && x in entries[1..];
      }
      InsertFacts(entries[0], rest);
    }
    var r := SortByKey(entries);
    forall i, j | 0 <= i < j < |r|
      ensures r[i].key != r[j].key
    {
      LessIrreflexive(r[i].key);
    }
  }

  /** A set of entries has one sorted arrangement. */
  lemma {:induction false} SortedUnique(a: seq<Entry>, b: seq<Entry>)
    requires Sorted(a) && Sorted(b) && Members(a) == Members(b)
    ensures a == b
  {
    if b != [] {
      assert b[0] in Members(b) && b[0] in a;
    }
    if a != [] {
      assert a[0] in Members(a) && a[0] in b;
      FirstIsLeast(a, b);
      assert a[0] == b[0];
      assert Members(a[1..]) == Members(b[1..]) by {
        TailMembers(a);
        TailMembers(b);
      }
      SortedUnique(a[1..], b[1..]);
      assert a == [a[0]] + a[1..] && b == [b[0]] + b[1..];
    }
  }

  lemma FirstIsLeast(a: seq<Entry>, b: seq<Entry>)
    requires Sorted(a) && Sorted(b) && a != [] && b != [] && a[0] in b && b[0] in a
    ensures a[0] == b[0]
  {
    if a[0] != b[0] {
      assert Less(a[0].key, b[0].key) && Less(b[0].key, a[0].key);
      LessTransitive(a[0].key, b[0].key, a[0].key);
      LessIrreflexive(a[0].key);
    }
  }

  lemma TailMembers(a: seq<Entry>)
    requires Sorted(a) && a != []
    ensures Members(a[1..]) == Members(a) - {a[0]}
  {
    assert a == [a[0]] + a[1..];
    forall x <- a[1..]
      ensures x != a[0]
    {
      LessIrreflexive(a[0].key);
    }
  }

  lemma {:induction false} PutNew(entries: seq<Entry>, key: string, value: Json)
    requires forall e <- entries :: e.key != key
    ensures Put(entries, key, value) == entries + [Entry(key, value)]
  {
    if entries != [] {
      assert entries[0] in entries;
      PutNew(entries[1..], key, value);
      assert entries == [entries[0]] + entries[1..];
    }
  }
}
