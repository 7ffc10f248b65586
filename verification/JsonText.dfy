/**
 * JSON text as the server writes it (json.dumps with compact separators, ASCII only), and a reader of
 * that compact text. It takes no white space and checks numbers only for their characters.
 */
module JsonText {
  import opened Wrappers
  import opened CanonicalJson

  // ---- Writing ----

  function HexDigit(n: nat): char
    requires n < 16
  {
    if n < 10 then ('0' as int + n) as char else ('a' as int + n - 10) as char
  }

  function Hex4(n: nat): string
    requires n < 0x10000
  {
    var a := n / 0x10;
    var b := a / 0x10;
    [HexDigit(b / 0x10), HexDigit(b % 0x10), HexDigit(a % 0x10), HexDigit(n % 0x10)]
  }

  /** Everything outside printable ASCII is escaped, beyond the BMP as a surrogate pair. */
  function EscapeChar(c: char): string {
    if c == '\"' then "\\\""
    else if c == '\\' then "\\\\"
    else if c == '\n' then "\\n"
    else if c == '\r' then "\\r"
    else if c == '\t' then "\\t"
    else if c == '\U{8}' then "\\b"
    else if c == '\U{C}' then "\\f"
    else if ' ' <= c <= '~' then [c]
    else if c as int < 0x10000 then "\\u" + Hex4(c as int)
    else "\\u" + Hex4(0xD800 + (c as int - 0x10000) / 0x400) + "\\u" + Hex4(0xDC00 + (c as int - 0x10000) % 0x400)
  }

  function Escape(s: string): string {
    if s == "" then "" else EscapeChar(s[0]) + Escape(s[1..])
  }

  function Dumps(v: Json): string
    decreases v, 0
  {
    match v
    case Null => "null"
    case Bool(b) => if b then "true" else "false"
    case Number(text) => text
    case Text(s) => "\"" + Escape(s) + "\""
    case Array(items) => "[" + DumpItems(items) + "]"
    case Object(entries) => "{" + DumpEntries(entries) + "}"
  }

  function DumpItems(items: seq<Json>): string
    decreases items, 1
  {
    if items == [] then ""
    else if |items| == 1 then Dumps(items[0])
    else Dumps(items[0]) + "," + DumpItems(items[1..])
  }

  function DumpEntry(e: Entry): string
    decreases e, 1
  {
    "\"" + Escape(e.key) + "\":" + Dumps(e.value)
  }

  function DumpEntries(entries: seq<Entry>): string
    decreases entries, 2
  {
    if entries == [] then ""
    else if |entries| == 1 then DumpEntry(entries[0])
    else DumpEntry(entries[0]) + "," + DumpEntries(entries[1..])
  }

  // ---- Reading ----

  function HexValue(c: char): Option<nat> {
    if '0' <= c <= '9' then Some(c as int - '0' as int)
    else if 'a' <= c <= 'f' then Some(c as int - 'a' as int + 10)
    else if 'A' <= c <= 'F' then Some(c as int - 'A' as int + 10)
    else None
  }

  function ReadHex4(s: string): (r: Option<nat>)
    ensures r.Some? ==> |s| >= 4 && r.value < 0x10000
  {
    if |s| < 4 then None
    else match (HexValue(s[0]), HexValue(s[1]), HexValue(s[2]), HexValue(s[3]))
      case (Some(a), Some(b), Some(c), Some(d)) =>
        if a < 16 && b < 16 && c < 16 && d < 16 then Some(a * 0x1000 + b * 0x100 + c * 0x10 + d) else None
      case _ => None
  }

  /** The character an escape sequence stands for, and the sequence's length. */
  function ReadEscape(s: string): (r: Option<(char, nat)>)
    ensures r.Some? ==> 2 <= r.value.1 <= |s|
  {
    if |s| < 2 then None
    else if s[1] == '\"' || s[1] == '\\' || s[1] == '/' then Some((s[1], 2))
    else if s[1] == 'n' then Some(('\n', 2))
    else if s[1] == 'r' then Some(('\r', 2))
    else if s[1] == 't' then Some(('\t', 2))
    else if s[1] == 'b' then Some(('\U{8}', 2))
    else if s[1] == 'f' then Some(('\U{C}', 2))
    else if s[1] == 'u' then
      match ReadHex4(s[2..])
      case None => None
      case Some(n) =>
        if n < 0xD800 || 0xE000 <= n then Some((n as char, 6))
        else if n >= 0xDC00 || |s| < 12 || s[6] != '\\' || s[7] != 'u' then None
        else match ReadHex4(s[8..])
          case Some(low) =>
            if 0xDC00 <= low < 0xE000 then Some(((0x10000 + (n - 0xD800) * 0x400 + (low - 0xDC00)) as char, 12))
            else None
          case None => None
    else None
  }

  /** The characters up to the closing quote, and what follows it. */
  function ReadChars(s: string): (r: Option<(string, string)>)
    ensures r.Some? ==> |r.value.1| < |s|
    decreases |s|
  {
    if s == "" || s[0] < ' ' then None
    else if s[0] == '\"' then Some(("", s[1..]))
    else if s[0] != '\\' then
      match ReadChars(s[1..]) case Some((t, rest)) => Some(([s[0]] + t, rest)) case None => None
    else match ReadEscape(s)
      case Some((c, n)) => (match ReadChars(s[n..]) case Some((t, rest)) => Some(([c] + t, rest)) case None => None)
      case None => None
  }

  predicate IsNumberChar(c: char) {
    '0' <= c <= '9' || c == '-' || c == '+' || c == '.' || c == 'e' || c == 'E'
  }

  function NumberLength(s: string): (n: nat)
    ensures n <= |s|
  {
    if s == "" || !IsNumberChar(s[0]) then 0 else 1 + NumberLength(s[1..])
  }

  function ReadValue(s: string): (r: Option<(Json, string)>)
    ensures r.Some? ==> |r.value.1| < |s|
    decreases |s|, 1
  {
    if s == "" then None
    else if s[0] == '\"' then
      match ReadChars(s[1..]) case Some((t, rest)) => Some((Text(t), rest)) case None => None
    else if s[0] == '[' then
      if |s| > 1 && s[1] == ']' then Some((Array([]), s[2..]))
      else match ReadItems(s[1..]) case Some((items, rest)) => Some((Array(items), rest)) case None => None
    else if s[0] == '{' then
      if |s| > 1 && s[1] == '}' then Some((Object([]), s[2..]))
      else match ReadEntries(s[1..]) case Some((entries, rest)) => Some((Object(entries), rest)) case None => None
    else if "null" <= s then Some((Null, s[4..]))
    else if "true" <= s then Some((Bool(true), s[4..]))
    else if "false" <= s then Some((Bool(false), s[5..]))
    else if IsNumberChar(s[0]) then Some((Number(s[..NumberLength(s)]), s[NumberLength(s)..]))
    else None
  }

  function ReadItems(s: string): (r: Option<(seq<Json>, string)>)
    ensures r.Some? ==> |r.value.1| < |s|
    decreases |s|, 2
  {
    match ReadValue(s)
    case None => None
    case Some((v, rest)) =>
      if rest == "" then None
      else if rest[0] == ']' then Some(([v], rest[1..]))
      else if rest[0] != ',' then None
      else match ReadItems(rest[1..])
        case Some((items, after)) => Some(([v] + items, after))
        case None => None
  }

  function ReadEntry(s: string): (r: Option<(Entry, string)>)
    ensures r.Some? ==> |r.value.1| < |s|
    decreases |s|, 2
  {
    if s == "" || s[0] != '\"' then None
    else match ReadChars(s[1..])
      case None => None
      case Some((key, rest)) =>
        if rest == "" || rest[0] != ':' then None
        else match ReadValue(rest[1..])
          case Some((v, after)) => Some((Entry(key, v), after))
          case None => None
  }

  function ReadEntries(s: string): (r: Option<(seq<Entry>, string)>)
    ensures r.Some? ==> |r.value.1| < |s|
    decreases |s|, 3
  {
    match ReadEntry(s)
    case None => None
    case Some((e, rest)) =>
      if rest == "" then None
      else if rest[0] == '}' then Some(([e], rest[1..]))
      else if rest[0] != ',' then None
      else match ReadEntries(rest[1..])
        case Some((entries, after)) => Some(([e] + entries, after))
        case None => None
  }

  /** A whole text is one value and nothing else. */
  function Loads(s: string): Option<Json> {
    match ReadValue(s)
    case Some((v, rest)) => if rest == "" then Some(v) else None
    case None => None
  }

  // ---- Reading undoes writing ----

  /** Number texts are the nonempty strings of number characters the encoder produces. */
  ghost predicate NumberTexts(v: Json) {
    match v
    case Number(text) => text != "" && forall i :: 0 <= i < |text| ==> IsNumberChar(text[i])
    case Array(items) => forall i :: 0 <= i < |items| ==> NumberTexts(items[i])
    case Object(entries) => forall i :: 0 <= i < |entries| ==> NumberTexts(entries[i].value)
    case _ => true
  }

  /** Dropping a known prefix. */
  lemma AfterPrefix(p: string, rest: string)
    ensures (p + rest)[|p|..] == rest && p <= p + rest
  {
  }

  lemma HexDigitValue(n: nat)
    requires n < 16
    ensures HexValue(HexDigit(n)) == Some(n)
  {
  }

  lemma HexRoundTrip(n: nat, rest: string)
    requires n < 0x10000
    ensures ReadHex4(Hex4(n) + rest) == Some(n)
  {
    var a := n / 0x10;
    var b := a / 0x10;
    HexDigitValue(b / 0x10);
    HexDigitValue(b % 0x10);
    HexDigitValue(a % 0x10);
    HexDigitValue(n % 0x10);
    var s := Hex4(n) + rest;
    assert s[0] == HexDigit(b / 0x10) && s[1] == HexDigit(b % 0x10) && s[2] == HexDigit(a % 0x10)
           && s[3] == HexDigit(n % 0x10);
  }

  lemma UnitRoundTrip(n: nat, rest: string)
    requires n < 0xD800 || 0xE000 <= n < 0x10000
    ensures ReadEscape("\\u" + Hex4(n) + rest) == Some((n as char, 6))
  {
    var s := "\\u" + Hex4(n) + rest;
    HexRoundTrip(n, rest);
    assert s[1] == 'u' && s[2..] == Hex4(n) + rest;
  }

  lemma PairRoundTrip(high: nat, low: nat, rest: string)
    requires 0xD800 <= high < 0xDC00 && 0xDC00 <= low < 0xE000
    ensures ReadEscape("\\u" + Hex4(high) + "\\u" + Hex4(low) + rest)
            == Some(((0x10000 + (high - 0xD800) * 0x400 + (low - 0xDC00)) as char, 12))
  {
    var s := "\\u" + Hex4(high) + "\\u" + Hex4(low) + rest;
    var tail := "\\u" + Hex4(low) + rest;
    HexRoundTrip(high, tail);
    HexRoundTrip(low, rest);
    assert s[1] == 'u' && s[2..] == Hex4(high) + tail;
    assert s[6] == '\\' && s[7] == 'u' && s[8..] == Hex4(low) + rest;
  }

  lemma TwoCharacters(letter: char, rest: string)
    requires letter != 'u'
    ensures ReadEscape(['\\', letter] + rest) == ReadEscape(['\\', letter])
  {
    assert (['\\', letter] + rest)[1] == letter;
  }

  /** The escapes of two characters. */
  lemma ShortRoundTrip(c: char, rest: string)
    requires c in ['\"', '\\', '\n', '\r', '\t', '\U{8}', '\U{C}']
    ensures |EscapeChar(c)| == 2 && EscapeChar(c)[0] == '\\' && ReadEscape(EscapeChar(c) + rest) == Some((c, 2))
  {
    var e := EscapeChar(c);
    assert e == ['\\', e[1]] && e[1] != 'u';
    TwoCharacters(e[1], rest);
    assert ReadEscape(e) == Some((c, 2));
  }

  /** One escaped character is read back as itself. */
  lemma EscapeRoundTrip(c: char, rest: string)
    ensures var e := EscapeChar(c);
            if e == [c] then c >= ' ' && c != '\"' && c != '\\'
            else e != "" && e[0] == '\\' && ReadEscape(e + rest) == Some((c, |e|))
  {
    hide ReadEscape, HexDigit;
    var n := c as int;
    if n >= 0x10000 {
      var high, low := 0xD800 + (n - 0x10000) / 0x400, 0xDC00 + (n - 0x10000) % 0x400;
      PairRoundTrip(high, low, rest);
      assert |EscapeChar(c)| == 12;
    } else if EscapeChar(c) == "\\u" + Hex4(n) {
      UnitRoundTrip(n, rest);
      assert |EscapeChar(c)| == 6;
    } else if EscapeChar(c) != [c] {
      ShortRoundTrip(c, rest);
    }
  }

  /** Reading one escaped character in front of readable text. */
  lemma ReadOneMore(c: char, tail: string, t: string, rest: string)
    requires ReadChars(tail) == Some((t, rest))
    ensures ReadChars(EscapeChar(c) + tail) == Some(([c] + t, rest))
  {
    var e := EscapeChar(c);
    EscapeRoundTrip(c, tail);
    AfterPrefix(e, tail);
    hide EscapeChar, ReadEscape;
    assert (e + tail)[0] == e[0];
  }

  lemma {:induction false} CharsRoundTrip(s: string, rest: string)
    ensures ReadChars(Escape(s) + "\"" + rest) == Some((s, rest))
  {
    if s == "" {
      assert Escape(s) + "\"" + rest == "\"" + rest;
      AfterPrefix("\"", rest);
    } else {
      hide EscapeChar, ReadChars;
      var e, tail := EscapeChar(s[0]), Escape(s[1..]) + "\"" + rest;
      assert Escape(s) + "\"" + rest == e + tail;
      CharsRoundTrip(s[1..], rest);
      ReadOneMore(s[0], tail, s[1..], rest);
      assert s == [s[0]] + s[1..];
    }
  }

  lemma {:induction false} NumberRoundTrip(text: string, rest: string)
    requires forall i :: 0 <= i < |text| ==> IsNumberChar(text[i])
    requires rest == "" || !IsNumberChar(rest[0])
    ensures NumberLength(text + rest) == |text|
  {
    if text == "" {
      assert text + rest == rest;
    } else {
      assert (text + rest)[1..] == text[1..] + rest;
      NumberRoundTrip(text[1..], rest);
    }
  }

  /** No value starts with a closing bracket. */
  lemma DumpsHead(v: Json)
    requires NumberTexts(v)
    ensures Dumps(v) != "" && Dumps(v)[0] != ']' && Dumps(v)[0] != '}'
  {
  }

  ghost predicate Delimited(rest: string) {
    rest == "" || !IsNumberChar(rest[0])
  }

  lemma LiteralRoundTrip(v: Json, rest: string)
    requires v.Null? || v.Bool?
    ensures ReadValue(Dumps(v) + rest) == Some((v, rest))
  {
    var s := Dumps(v) + rest;
    if v == Bool(false) {
      assert s[..5] == "false" && s[5..] == rest;
    } else {
      assert s[..4] == Dumps(v) && s[4..] == rest;
    }
  }

  lemma NumberValueRoundTrip(text: string, rest: string)
    requires NumberTexts(Number(text)) && Delimited(rest)
    ensures ReadValue(text + rest) == Some((Number(text), rest))
  {
    var s := text + rest;
    NumberRoundTrip(text, rest);
    assert s[0] == text[0] && IsNumberChar(s[0]);
    assert s[..|text|] == text && s[|text|..] == rest;
  }

  /** A bracketed, nonempty list. */
  lemma ReadBrackets(body: string, items: seq<Json>, rest: string)
    requires body != "" && body[0] != ']' && ReadItems(body + "]" + rest) == Some((items, rest))
    ensures ReadValue("[" + body + "]" + rest) == Some((Array(items), rest))
  {
    hide ReadItems;
    assert "[" + body + "]" + rest == "[" + (body + "]" + rest);
    AfterPrefix("[", body + "]" + rest);
  }

  lemma ReadBraces(body: string, entries: seq<Entry>, rest: string)
    requires body != "" && body[0] != '}' && ReadEntries(body + "}" + rest) == Some((entries, rest))
    ensures ReadValue("{" + body + "}" + rest) == Some((Object(entries), rest))
  {
    hide ReadEntries;
    assert "{" + body + "}" + rest == "{" + (body + "}" + rest);
    AfterPrefix("{", body + "}" + rest);
  }

  lemma ReadEmpty(rest: string)
    ensures ReadValue("[" + "" + "]" + rest) == Some((Array([]), rest))
    ensures ReadValue("{" + "" + "}" + rest) == Some((Object([]), rest))
  {
    assert "[" + "" + "]" + rest == "[]" + rest && "{" + "" + "}" + rest == "{}" + rest;
    AfterPrefix("[]", rest);
    AfterPrefix("{}", rest);
  }

  lemma {:induction false} ArrayRoundTrip(items: seq<Json>, rest: string)
    requires forall i :: 0 <= i < |items| ==> NumberTexts(items[i])
    ensures ReadValue("[" + DumpItems(items) + "]" + rest) == Some((Array(items), rest))
    decreases items, 3
  {
    hide ReadValue, ReadItems;
    if items == [] {
      ReadEmpty(rest);
    } else {
      ItemsRoundTrip(items, rest);
      DumpsHead(items[0]);
      assert DumpItems(items)[0] == Dumps(items[0])[0];
      ReadBrackets(DumpItems(items), items, rest);
    }
  }

  lemma {:induction false} ObjectRoundTrip(entries: seq<Entry>, rest: string)
    requires forall i :: 0 <= i < |entries| ==> NumberTexts(entries[i].value)
    ensures ReadValue("{" + DumpEntries(entries) + "}" + rest) == Some((Object(entries), rest))
    decreases entries, 4
  {
    hide ReadValue, ReadEntries, Escape;
    if entries == [] {
      ReadEmpty(rest);
    } else {
      EntriesRoundTrip(entries, rest);
      assert DumpEntries(entries)[0] == DumpEntry(entries[0])[0] == '\"';
      ReadBraces(DumpEntries(entries), entries, rest);
    }
  }

  lemma TextRoundTrip(t: string, rest: string)
    ensures ReadValue("\"" + Escape(t) + "\"" + rest) == Some((Text(t), rest))
  {
    CharsRoundTrip(t, rest);
    hide Escape, ReadChars;
    var s := "\"" + (Escape(t) + "\"" + rest);
    assert "\"" + Escape(t) + "\"" + rest == s;
    AfterPrefix("\"", Escape(t) + "\"" + rest);
  }

  lemma {:induction false} ValueRoundTrip(v: Json, rest: string)
    requires NumberTexts(v) && Delimited(rest)
    ensures ReadValue(Dumps(v) + rest) == Some((v, rest))
    decreases v, 1
  {
    hide ReadValue, Escape, DumpItems, DumpEntries;
    match v {
      case Number(text) => NumberValueRoundTrip(text, rest);
      case Text(t) => TextRoundTrip(t, rest);
      case Array(items) => ArrayRoundTrip(items, rest);
      case Object(entries) => ObjectRoundTrip(entries, rest);
      case _ => LiteralRoundTrip(v, rest);
    }
  }

  /** The first item of a list, and the list after its comma. */
  lemma ReadOneItem(head: string, v: Json, tail: string)
    requires ReadValue(head + tail) == Some((v, tail)) && tail != ""
    ensures tail[0] == ']' ==> ReadItems(head + tail) == Some(([v], tail[1..]))
    ensures tail[0] == ',' && ReadItems(tail[1..]).Some? ==>
              ReadItems(head + tail) == Some(([v] + ReadItems(tail[1..]).value.0, ReadItems(tail[1..]).value.1))
  {
    hide ReadValue;
  }

  lemma {:induction false} ItemsRoundTrip(items: seq<Json>, rest: string)
    requires items != [] && forall i :: 0 <= i < |items| ==> NumberTexts(items[i])
    ensures ReadItems(DumpItems(items) + "]" + rest) == Some((items, rest))
    decreases items, 2
  {
    hide ReadValue, ReadItems, Dumps;
    var head := Dumps(items[0]);
    if |items| == 1 {
      assert DumpItems(items) + "]" + rest == head + ("]" + rest);
      ValueRoundTrip(items[0], "]" + rest);
      AfterPrefix("]", rest);
      ReadOneItem(head, items[0], "]" + rest);
      assert items == [items[0]];
    } else {
      var tail := DumpItems(items[1..]) + "]" + rest;
      assert DumpItems(items) + "]" + rest == head + ("," + tail);
      ValueRoundTrip(items[0], "," + tail);
      ItemsRoundTrip(items[1..], rest);
      AfterPrefix(",", tail);
      ReadOneItem(head, items[0], "," + tail);
      assert items == [items[0]] + items[1..];
    }
  }

  /** A key, its colon and a value. */
  lemma ReadOneEntry(key: string, v: Json, value: string, rest: string)
    requires ReadValue(value + rest) == Some((v, rest))
    ensures ReadEntry("\"" + Escape(key) + "\":" + value + rest) == Some((Entry(key, v), rest))
  {
    var after := ":" + (value + rest);
    CharsRoundTrip(key, after);
    hide Escape, ReadChars, ReadValue;
    var s := "\"" + (Escape(key) + "\"" + after);
    assert "\"" + Escape(key) + "\":" + value + rest == s;
    AfterPrefix("\"", Escape(key) + "\"" + after);
    AfterPrefix(":", value + rest);
  }

  lemma {:induction false} EntryRoundTrip(e: Entry, rest: string)
    requires NumberTexts(e.value) && Delimited(rest)
    ensures ReadEntry(DumpEntry(e) + rest) == Some((e, rest))
    decreases e, 2
  {
    ValueRoundTrip(e.value, rest);
    ReadOneEntry(e.key, e.value, Dumps(e.value), rest);
  }

  /** The first entry of an object, and the entries after its comma. */
  lemma ReadFirstEntry(head: string, e: Entry, tail: string)
    requires ReadEntry(head + tail) == Some((e, tail)) && tail != ""
    ensures tail[0] == '}' ==> ReadEntries(head + tail) == Some(([e], tail[1..]))
    ensures tail[0] == ',' && ReadEntries(tail[1..]).Some? ==>
              ReadEntries(head + tail) == Some(([e] + ReadEntries(tail[1..]).value.0, ReadEntries(tail[1..]).value.1))
  {
    hide ReadEntry;
  }

  lemma {:induction false} EntriesRoundTrip(entries: seq<Entry>, rest: string)
    requires entries != [] && forall i :: 0 <= i < |entries| ==> NumberTexts(entries[i].value)
    ensures ReadEntries(DumpEntries(entries) + "}" + rest) == Some((entries, rest))
    decreases entries, 3
  {
    hide ReadEntry, ReadEntries, DumpEntry;
    var head := DumpEntry(entries[0]);
    if |entries| == 1 {
      assert DumpEntries(entries) + "}" + rest == head + ("}" + rest);
      EntryRoundTrip(entries[0], "}" + rest);
      AfterPrefix("}", rest);
      ReadFirstEntry(head, entries[0], "}" + rest);
      assert entries == [entries[0]];
    } else {
      var tail := DumpEntries(entries[1..]) + "}" + rest;
      assert DumpEntries(entries) + "}" + rest == head + ("," + tail);
      EntryRoundTrip(entries[0], "," + tail);
      EntriesRoundTrip(entries[1..], rest);
      AfterPrefix(",", tail);
      ReadFirstEntry(head, entries[0], "," + tail);
      assert entries == [entries[0]] + entries[1..];
    }
  }

  /** Every value survives being written and read. */
  lemma JsonRoundTrip(v: Json)
    requires NumberTexts(v)
    ensures Loads(Dumps(v)) == Some(v)
  {
    ValueRoundTrip(v, "");
    assert Dumps(v) + "" == Dumps(v);
  }

  // ---- Written text is printable ASCII ----

  ghost predicate Printable(s: string) {
    forall i :: 0 <= i < |s| ==> ' ' <= s[i] <= '~'
  }

  lemma Join(a: string, b: string)
    requires Printable(a) && Printable(b)
    ensures Printable(a + b)
  {
  }

  lemma {:induction false} EscapePrintable(s: string)
    ensures Printable(Escape(s))
  {
    if s != "" {
      EscapePrintable(s[1..]);
      CharPrintable(s[0]);
      Join(EscapeChar(s[0]), Escape(s[1..])) by {
        hide EscapeChar;
      }
    }
  }

  lemma HexPrintable(n: nat)
    requires n < 0x10000
    ensures Printable(Hex4(n))
  {
    assert forall i: nat :: i < 16 ==> ' ' <= HexDigit(i) <= '~';
  }

  lemma CharPrintable(c: char)
    ensures Printable(EscapeChar(c))
  {
    var n := c as int;
    if n >= 0x10000 {
      HexPrintable(0xD800 + (n - 0x10000) / 0x400);
      HexPrintable(0xDC00 + (n - 0x10000) % 0x400);
    } else {
      HexPrintable(n);
    }
    hide Hex4;
  }

  /** No raw newline or other control character occurs in written text. */
  lemma {:induction false} DumpsPrintable(v: Json)
    requires NumberTexts(v)
    ensures Printable(Dumps(v))
    decreases v, 0
  {
    match v {
      case Text(s) =>
        EscapePrintable(s);
        Join("\"", Escape(s));
        Join("\"" + Escape(s), "\"");
      case Array(items) =>
        DumpItemsPrintable(items);
        Join("[", DumpItems(items));
        Join("[" + DumpItems(items), "]");
      case Object(entries) =>
        DumpEntriesPrintable(entries);
        Join("{", DumpEntries(entries));
        Join("{" + DumpEntries(entries), "}");
      case _ =>
    }
  }

  lemma {:induction false} DumpItemsPrintable(items: seq<Json>)
    requires forall i :: 0 <= i < |items| ==> NumberTexts(items[i])
    ensures Printable(DumpItems(items))
    decreases items, 1
  {
    if items != [] {
      DumpsPrintable(items[0]);
      DumpItemsPrintable(items[1..]);
      Join(Dumps(items[0]), ",");
      Join(Dumps(items[0]) + ",", DumpItems(items[1..]));
    }
  }

  lemma {:induction false} DumpEntryPrintable(e: Entry)
    requires NumberTexts(e.value)
    ensures Printable(DumpEntry(e))
    decreases e, 1
  {
    EscapePrintable(e.key);
    DumpsPrintable(e.value);
    Join("\"", Escape(e.key));
    Join("\"" + Escape(e.key), "\":");
    Join("\"" + Escape(e.key) + "\":", Dumps(e.value));
  }

  lemma {:induction false} DumpEntriesPrintable(entries: seq<Entry>)
    requires forall i :: 0 <= i < |entries| ==> NumberTexts(entries[i].value)
    ensures Printable(DumpEntries(entries))
    decreases entries, 2
  {
    if entries != [] {
      DumpEntryPrintable(entries[0]);
      DumpEntriesPrintable(entries[1..]);
      Join(DumpEntry(entries[0]), ",");
      Join(DumpEntry(entries[0]) + ",", DumpEntries(entries[1..]));
    }
  }

  // ---- The text itself ----

  ghost function DigitOf(c: char): int {
    if '0' <= c <= '9' then c as int - '0' as int else c as int - 'a' as int + 10
  }

  /** The code unit that four hexadecimal digits name. */
  ghost function UnitOf(s: string): int
    requires |s| == 4
  {
    4096 * DigitOf(s[0]) + 256 * DigitOf(s[1]) + 16 * DigitOf(s[2]) + DigitOf(s[3])
  }

  lemma HexNamesUnit(n: nat)
    requires n < 0x10000
    ensures |Hex4(n)| == 4 && UnitOf(Hex4(n)) == n
  {
    HexDigitRead(n / 0x10 / 0x10 / 0x10);
    HexDigitRead(n / 0x10 / 0x10 % 0x10);
    HexDigitRead(n / 0x10 % 0x10);
    HexDigitRead(n % 0x10);
    hide HexDigit, DigitOf;
  }

  lemma HexDigitRead(n: nat)
    requires n < 16
    ensures DigitOf(HexDigit(n)) == n
  {
  }

  lemma UnitText(n: nat)
    requires n < 0x10000
    ensures var e := "\\u" + Hex4(n); |e| == 6 && e[..2] == "\\u" && UnitOf(e[2..]) == n
  {
    HexNamesUnit(n);
    assert ("\\u" + Hex4(n))[2..] == Hex4(n);
    hide Hex4, UnitOf;
  }

  lemma PairText(high: nat, low: nat)
    requires high < 0x10000 && low < 0x10000
    ensures var e := "\\u" + Hex4(high) + "\\u" + Hex4(low);
            && |e| == 12 && e[..2] == e[6..8] == "\\u" && UnitOf(e[2..6]) == high && UnitOf(e[8..]) == low
  {
    HexNamesUnit(high);
    HexNamesUnit(low);
    hide Hex4, UnitOf;
    var e := "\\u" + Hex4(high) + "\\u" + Hex4(low);
    assert e[2..6] == Hex4(high) && e[6..8] == "\\u" && e[8..] == Hex4(low);
  }

  /**
   * How each character is written: seven by a letter, printable ASCII as it is, and the rest by the code
   * units of UTF-16 (section 7 of RFC 8259).
   */
  lemma EscapesMean(c: char)
    ensures var e := EscapeChar(c);
            if c == '\"' then e == ['\\', '\"']
            else if c == '\\' then e == ['\\', '\\']
            else if c == '\n' then e == ['\\', 'n']
            else if c == '\r' then e == ['\\', 'r']
            else if c == '\t' then e == ['\\', 't']
            else if c == '\U{8}' then e == ['\\', 'b']
            else if c == '\U{C}' then e == ['\\', 'f']
            else if ' ' <= c <= '~' then e == [c]
            else if c as int < 0x10000 then |e| == 6 && e[..2] == "\\u" && UnitOf(e[2..]) == c as int
            else
              && |e| == 12 && e[..2] == e[6..8] == "\\u"
              && var high, low := UnitOf(e[2..6]), UnitOf(e[8..]);
                 && 0xD800 <= high < 0xDC00 && 0xDC00 <= low < 0xE000
                 && 0x10000 + (high - 0xD800) * 0x400 + (low - 0xDC00) == c as int
  {
    hide Hex4, UnitOf;
    if c as int < 0x10000 {
      UnitText(c as int);
    } else {
      PairText(0xD800 + (c as int - 0x10000) / 0x400, 0xDC00 + (c as int - 0x10000) % 0x400);
    }
  }

  /** The words and quotes of the notation. */
  lemma ValuesAreCompact(key: string)
    ensures Dumps(Null) == "null" && Dumps(Bool(true)) == "true" && Dumps(Bool(false)) == "false"
    ensures Dumps(Array([])) == "[]" && Dumps(Object([])) == "{}" && Dumps(Text(key)) == "\"" + Escape(key) + "\""
    ensures Escape("") == "" && forall c :: Escape([c] + key) == EscapeChar(c) + Escape(key)
  {
    forall c
      ensures Escape([c] + key) == EscapeChar(c) + Escape(key)
    {
      assert ([c] + key)[1..] == key;
    }
  }

  lemma CommaInFront(open: string, a: string, b: string, close: string)
    requires |open| == 1
    ensures open + (a + "," + b) + close == open + a + ("," + (open + b + close)[1..])
  {
    assert (open + b + close)[1..] == b + close;
  }

  /** An array is its items, a comma between any two of them. */
  lemma ArraysAreCompact(v: Json, items: seq<Json>)
    ensures Dumps(Array([v] + items)) == "[" + Dumps(v) + if items == [] then "]" else "," + Dumps(Array(items))[1..]
  {
    assert ([v] + items)[1..] == items && ([v] + items)[0] == v;
    assert DumpItems([v] + items) == if items == [] then Dumps(v) else Dumps(v) + "," + DumpItems(items);
    ArrayText([v] + items);
    ArrayText(items);
    hide Dumps, DumpItems;
    CommaInFront("[", Dumps(v), DumpItems(items), "]");
  }

  lemma ArrayText(items: seq<Json>)
    ensures Dumps(Array(items)) == "[" + DumpItems(items) + "]"
  {
  }

  /** An object is its entries, a comma between any two of them and a colon in each. */
  lemma ObjectsAreCompact(key: string, v: Json, entries: seq<Entry>)
    ensures Dumps(Object([Entry(key, v)] + entries))
            == "{" + (Dumps(Text(key)) + ":" + Dumps(v))
               + if entries == [] then "}" else "," + Dumps(Object(entries))[1..]
  {
    EntriesText(Entry(key, v), entries);
    EntryText(key, v);
    hide Dumps, DumpEntry, DumpEntries;
    ObjectText([Entry(key, v)] + entries);
    ObjectText(entries);
    CommaInFront("{", DumpEntry(Entry(key, v)), DumpEntries(entries), "}");
  }

  lemma EntriesText(e: Entry, entries: seq<Entry>)
    ensures DumpEntries([e] + entries)
            == if entries == [] then DumpEntry(e) else DumpEntry(e) + "," + DumpEntries(entries)
  {
    assert ([e] + entries)[1..] == entries && ([e] + entries)[0] == e;
  }

  lemma EntryText(key: string, v: Json)
    ensures DumpEntry(Entry(key, v)) == Dumps(Text(key)) + ":" + Dumps(v)
  {
    assert "\":" == "\"" + ":";
  }

  lemma ObjectText(entries: seq<Entry>)
    ensures Dumps(Object(entries)) == "{" + DumpEntries(entries) + "}"
  {
  }
}
