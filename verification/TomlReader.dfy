/**
 A reader for the values that the printer writes, after TOML v1.0.0: basic strings, words, arrays
 and inline tables.  A printed value is read back, or refused, by a condition on the value.

 Multi-line and literal strings, dates and comments inside arrays are not part of the reader; a
 word that is not a truth value is a number by its text.
 */
module TomlReader {
  import opened Wrappers
  import opened Toml

  datatype Got<T> = Got(value: T, rest: string)

  // ----- Basic strings

  /** The characters that may not stand in a basic string as they are: controls except the tab. */
  predicate Illegal(c: char) { ((c as int) < 32 && c != '\t') || c as int == 127 }

  function Digit(c: char): Option<nat> {
    if '0' <= c <= '9' then Some(c as int - '0' as int)
    else if 'a' <= c <= 'f' then Some(c as int - 'a' as int + 10)
    else if 'A' <= c <= 'F' then Some(c as int - 'A' as int + 10)
    else None
  }

  /** The number that the first `n` characters write in base 16, after `high`. */
  function Hex(s: string, n: nat, high: nat): Option<nat>
    decreases n
  {
    if n == 0 then Some(high)
    else if s == "" || Digit(s[0]).None? then None
    else Hex(s[1..], n - 1, 16 * high + Digit(s[0]).value)
  }

  /** A code point given by `n` digits in base 16. */
  function CodePoint(s: string, n: nat): (r: Option<Got<char>>)
    ensures r.Some? ==> |r.value.rest| <= |s|
  {
    var code := Hex(s, n, 0);
    if code.Some? && n <= |s| && (code.value < 0xD800 || 0xE000 <= code.value < 0x11_0000)
    then Some(Got(code.value as char, s[n..])) else None
  }

  /** The character after a backslash. */
  function ReadEscape(s: string): (r: Option<Got<char>>)
    ensures r.Some? ==> |r.value.rest| < |s|
  {
    if s == "" then None
    else match s[0]
      case 'b' => Some(Got(8 as char, s[1..]))
      case 't' => Some(Got('\t', s[1..]))
      case 'n' => Some(Got('\n', s[1..]))
      case 'f' => Some(Got(12 as char, s[1..]))
      case 'r' => Some(Got('\r', s[1..]))
      case '"' => Some(Got('"', s[1..]))
      case '\\' => Some(Got('\\', s[1..]))
      case 'u' => CodePoint(s[1..], 4)
      case 'U' => CodePoint(s[1..], 8)
      case _ => None
  }

  function Before(c: char, r: Option<Got<string>>): Option<Got<string>> {
    if r.None? then None else Some(Got([c] + r.value.value, r.value.rest))
  }

  /** A basic string after its opening quote. */
  function ReadString(s: string): (r: Option<Got<string>>)
    ensures r.Some? ==> |r.value.rest| < |s|
    decreases |s|
  {
    if s == "" || Illegal(s[0]) then None
    else if s[0] == '"' then Some(Got("", s[1..]))
    else if s[0] != '\\' then Before(s[0], ReadString(s[1..]))
    else
      var e := ReadEscape(s[1..]);
      if e.None? then None else Before(e.value.value, ReadString(e.value.rest))
  }

  // ----- Values

  predicate WordChar(c: char) { '0' <= c <= '9' || 'a' <= c <= 'z' || 'A' <= c <= 'Z' || c in "+-._" }

  function WordLength(s: string): (n: nat)
    ensures n <= |s|
  {
    if s != "" && WordChar(s[0]) then 1 + WordLength(s[1..]) else 0
  }

  function ReadWord(s: string): (r: Option<Got<Value>>)
    ensures r.Some? ==> |r.value.rest| < |s|
  {
    var n := WordLength(s);
    var word := s[..n];
    if word == "" then None
    else Some(Got(if word == "true" then Bool(true) else if word == "false" then Bool(false) else Num(word), s[n..]))
  }

  function Skip(s: string): (r: string)
    ensures |r| <= |s|
  {
    s[Blanks(s)..]
  }

  /** After the given character, if it comes next. */
  function Past(c: char, s: string): (r: Option<string>)
    ensures r.Some? ==> |r.value| < |s|
  {
    var t := Skip(s);
    if t != "" && t[0] == c then Some(t[1..]) else None
  }

  function ReadValue(s: string): (r: Option<Got<Value>>)
    ensures r.Some? ==> |r.value.rest| < |s|
    decreases |s|, 0
  {
    if s == "" then None
    else if s[0] == '"' then
      var text := ReadString(s[1..]);
      if text.None? then None else Some(Got(Str(text.value.value), text.value.rest))
    else if s[0] == '[' then
      var items := ReadItems(s[1..]);
      if items.None? then None else Some(Got(List(items.value.value), items.value.rest))
    else if s[0] == '{' then
      var entries := if Past('}', s[1..]).Some? then Some(Got([], Past('}', s[1..]).value)) else ReadEntries(s[1..]);
      if entries.None? then None else Some(Got(Table(entries.value.value), entries.value.rest))
    else ReadWord(s)
  }

  /** The items of an array after its opening bracket or a comma. */
  function ReadItems(s: string): (r: Option<Got<seq<Value>>>)
    ensures r.Some? ==> |r.value.rest| < |s|
    decreases |s|, 1
  {
    if Past(']', s).Some? then Some(Got([], Past(']', s).value))
    else
      var item := ReadValue(Skip(s));
      if item.None? then None
      else if Past(']', item.value.rest).Some? then Some(Got([item.value.value], Past(']', item.value.rest).value))
      else if Past(',', item.value.rest).None? then None
      else
        var more := ReadItems(Past(',', item.value.rest).value);
        if more.None? then None else Some(Got([item.value.value] + more.value.value, more.value.rest))
  }

  /** A key in quotes, and the value it is given. */
  function ReadEntry(s: string): (r: Option<Got<Entry>>)
    ensures r.Some? ==> |r.value.rest| < |s|
    decreases |s|, 1
  {
    var quoted := Past('"', s);
    if quoted.None? then None
    else
      var key := ReadString(quoted.value);
      if key.None? || Past('=', key.value.rest).None? then None
      else
        var value := ReadValue(Skip(Past('=', key.value.rest).value));
        if value.None? then None else Some(Got(Entry(key.value.value, value.value.value), value.value.rest))
  }

  predicate HasKey(entries: seq<Entry>, key: string) {
    exists i :: 0 <= i < |entries| && entries[i].key == key
  }

  /** At least one entry; a key given twice is refused. */
  function ReadEntries(s: string): (r: Option<Got<seq<Entry>>>)
    ensures r.Some? ==> |r.value.rest| < |s|
    decreases |s|, 2
  {
    var entry := ReadEntry(s);
    if entry.None? then None
    else if Past('}', entry.value.rest).Some? then Some(Got([entry.value.value], Past('}', entry.value.rest).value))
    else if Past(',', entry.value.rest).None? then None
    else
      var more := ReadEntries(Past(',', entry.value.rest).value);
      if more.None? || HasKey(more.value.value, entry.value.value.key) then None
      else Some(Got([entry.value.value] + more.value.value, more.value.rest))
  }

  // ----- Which values are read back

  predicate PlainText(s: string) { forall i :: 0 <= i < |s| ==> s[i] as int != 127 }

  ghost predicate DistinctKeys(entries: seq<Entry>) {
    forall i, j :: 0 <= i < j < |entries| ==> entries[i].key != entries[j].key
  }

  /** No string or key holds the delete character, and no table has a key twice. */
  ghost predicate Readable(v: Value)
    decreases v
  {
    match v
    case Str(s) => PlainText(s)
    case List(items) => forall i :: 0 <= i < |items| ==> Readable(items[i])
    case Table(entries) =>
      && DistinctKeys(entries)
      && forall i :: 0 <= i < |entries| ==> PlainText(entries[i].key) && Readable(entries[i].value)
    case _ => true
  }

  predicate Delimited(rest: string) { rest == "" || !WordChar(rest[0]) }

  // ----- Reading what was printed

  lemma HexRead(high: char, low: char, h: nat, l: nat, t: string)
    requires Digit(high) == Some(h) && Digit(low) == Some(l) && 16 * h + l < 32
    ensures ReadEscape("u00" + [high, low] + t) == Some(Got((16 * h + l) as char, t))
  {
    var s := "00" + [high, low] + t;
    HexFour(s, h, l);
    assert ("u00" + [high, low] + t)[1..] == s && s[4..] == t;
  }

  lemma HexEscape(c: char, t: string)
    requires (c as int) < 32
    ensures ReadEscape("u00" + ["0123456789abcdef"[c as int / 16], "0123456789abcdef"[c as int % 16]] + t)
            == Some(Got(c, t))
  {
    var h, l := c as int / 16, c as int % 16;
    DigitOf(h);
    DigitOf(l);
    HexRead("0123456789abcdef"[h], "0123456789abcdef"[l], h, l, t);
  }

  lemma DigitOf(n: nat)
    requires n < 16
    ensures Digit("0123456789abcdef"[n]) == Some(n)
  {}

  lemma HexFour(s: string, high: nat, low: nat)
    requires |s| >= 4 && s[0] == '0' && s[1] == '0' && Digit(s[2]) == Some(high) && Digit(s[3]) == Some(low)
    ensures Hex(s, 4, 0) == Some(16 * high + low)
  {
    assert Hex(s, 4, 0) == Hex(s[1..], 3, 0) == Hex(s[1..][1..], 2, 0);
    assert s[1..][1..] == s[2..] && s[2..][1..] == s[3..];
    assert Hex(s[2..], 2, 0) == Hex(s[3..], 1, high) == Hex(s[3..][1..], 0, 16 * high + low);
  }

  lemma PlainRead(c: char, t: string)
    requires c !in "\"\\"
    ensures ReadString([c] + t) == if Illegal(c) then None else Before(c, ReadString(t))
  {
    assert ([c] + t)[1..] == t;
  }

  lemma BackslashRead(c: char, e: string, t: string)
    requires ReadEscape(e + t) == Some(Got(c, t))
    ensures ReadString("\\" + e + t) == Before(c, ReadString(t))
  {
    assert ("\\" + e + t)[1..] == e + t;
  }

  lemma ShortRead(c: char, e: char, t: string)
    requires forall s :: s != "" && s[0] == e ==> ReadEscape(s) == Some(Got(c, s[1..]))
    ensures ReadString("\\" + [e] + t) == Before(c, ReadString(t))
  {
    assert ([e] + t)[1..] == t && ([e] + t)[0] == e;
    BackslashRead(c, [e], t);
  }

  /** One escaped character is read back as itself, except the delete character. */
  lemma EscapeCharRead(c: char, t: string)
    ensures ReadString(EscapeChar(c) + t) == if c as int == 127 then None else Before(c, ReadString(t))
  {
    var e := EscapeChar(c);
    if |e| == 1 {
      PlainRead(c, t);
    } else if |e| == 2 {
      assert e == "\\" + [e[1]];
      ShortRead(c, e[1], t);
    } else {
      var digits := "u00" + ["0123456789abcdef"[c as int / 16], "0123456789abcdef"[c as int % 16]];
      HexEscape(c, t);
      assert e == "\\" + digits;
      BackslashRead(c, digits, t);
    }
  }

  lemma {:induction false} QuotedRead(s: string, rest: string)
    ensures ReadString(Escape(s) + "\"" + rest) == if PlainText(s) then Some(Got(s, rest)) else None
  {
    if s == "" {
      assert Escape(s) + "\"" + rest == "\"" + rest;
      assert ("\"" + rest)[1..] == rest;
    } else {
      var t := Escape(s[1..]) + "\"" + rest;
      assert Escape(s) + "\"" + rest == EscapeChar(s[0]) + t;
      EscapeCharRead(s[0], t);
      QuotedRead(s[1..], rest);
      PlainHead(s);
      assert [s[0]] + s[1..] == s;
    }
  }

  lemma PlainHead(s: string)
    requires s != ""
    ensures PlainText(s) <==> s[0] as int != 127 && PlainText(s[1..])
  {
    if s[0] as int != 127 && PlainText(s[1..]) {
      forall i | 0 <= i < |s| ensures s[i] as int != 127 { if i > 0 { assert s[i] == s[1..][i - 1]; } }
    }
  }

  lemma {:induction false} WordRead(word: string, rest: string)
    requires Delimited(rest) && forall i :: 0 <= i < |word| ==> WordChar(word[i])
    ensures WordLength(word + rest) == |word|
  {
    if word == "" {
      assert word + rest == rest;
    } else {
      assert (word + rest)[1..] == word[1..] + rest;
      WordRead(word[1..], rest);
    }
  }

  /** A printed value opens with a character that tells its kind, and no blank. */
  lemma PrintOpens(v: Value)
    requires Printable(v)
    ensures Print(v) != "" && Print(v)[0] !in " \t,]}"
  {
    if v.Num? { assert NumChar(v.text[0]); }
  }

  lemma SkipNone(a: string, b: string)
    requires a != "" && a[0] !in " \t"
    ensures Skip(a + b) == a + b && forall c :: c != a[0] ==> Past(c, a + b).None?
  {
    assert (a + b)[0] == a[0];
  }

  lemma PastHere(c: char, s: string)
    requires c !in " \t"
    ensures Past(c, [c] + s) == Some(s)
    ensures forall d :: d != c ==> Past(d, [c] + s).None?
  {
    assert ([c] + s)[1..] == s;
    assert Skip([c] + s) == [c] + s;
  }

  lemma SkipOne(s: string)
    ensures Skip(" " + s) == Skip(s)
  {
    assert (" " + s)[1..] == s;
  }

  /** Truth values and numbers. */
  lemma ScalarRead(v: Value, rest: string)
    requires Printable(v) && (v.Bool? || v.Num?) && Delimited(rest)
    ensures ReadValue(Print(v) + rest) == Some(Got(v, rest))
  {
    PrintOpens(v);
    var p := Print(v);
    forall i | 0 <= i < |p| ensures WordChar(p[i]) { if v.Num? { assert NumChar(p[i]); } }
    WordRead(p, rest);
    assert (p + rest)[..|p|] == p && (p + rest)[|p|..] == rest;
    WordKind(v);
    assert (p + rest)[0] == p[0];
  }

  lemma WordKind(v: Value)
    requires Printable(v) && (v.Bool? || v.Num?)
    ensures Print(v) != "" && Print(v)[0] !in "\"[{"
    ensures v.Num? ==> v.text != "true" && v.text != "false"
  {
    if v.Num? {
      assert NumChar(v.text[0]);
      if |v.text| > 2 { assert NumChar(v.text[1]) && NumChar(v.text[2]); }
    }
  }

  ghost predicate AllPrintable(items: seq<Value>) { forall i :: 0 <= i < |items| ==> Printable(items[i]) }
  ghost predicate AllReadable(items: seq<Value>) { forall i :: 0 <= i < |items| ==> Readable(items[i]) }

  lemma AllHead(items: seq<Value>)
    requires items != []
    ensures items == [items[0]] + items[1..] && (|items| == 1 ==> items == [items[0]])
    ensures AllReadable(items) <==> Readable(items[0]) && AllReadable(items[1..])
    ensures AllPrintable(items) ==> Printable(items[0]) && AllPrintable(items[1..])
  {
    assert items == [items[0]] + items[1..];
  }

  lemma Around(open: string, body: string, close: string, rest: string)
    ensures open + body + close + rest == open + (body + close + rest)
  {}

  lemma Joined(p: string, q: string, close: string, rest: string)
    ensures p + ", " + q + close + rest == p + ("," + (" " + (q + close + rest)))
  {
    assert ", " == "," + " ";
  }

  lemma Alone(p: string, close: string, rest: string)
    ensures p + "" + "" + close + rest == p + (close + rest)
  {}

  lemma UnfoldString(s: string)
    ensures ReadValue("\"" + s) ==
            var r := ReadString(s); if r.None? then None else Some(Got(Str(r.value.value), r.value.rest))
  {
    assert ("\"" + s)[1..] == s;
  }

  lemma UnfoldList(s: string)
    ensures ReadValue("[" + s) ==
            var r := ReadItems(s); if r.None? then None else Some(Got(List(r.value.value), r.value.rest))
  {
    assert ("[" + s)[1..] == s;
  }

  /** A printed value is read back, and what follows it is left, if and only if no string or key in it holds the
      delete character and no table gives a key twice; otherwise reading fails. */
  lemma {:induction false} PrintRead(v: Value, rest: string)
    requires Printable(v) && (v.Bool? || v.Num? ==> Delimited(rest))
    ensures ReadValue(Print(v) + rest) == if Readable(v) then Some(Got(v, rest)) else None
    decreases v, 1
  {
    match v
    case Bool(_) => ScalarRead(v, rest);
    case Num(_) => ScalarRead(v, rest);
    case Str(s) =>
      QuotedRead(s, rest);
      Around("\"", Escape(s), "\"", rest);
      UnfoldString(Escape(s) + "\"" + rest);
    case List(items) =>
      ItemsRead(items, rest);
      Around("[", PrintItems(items), "]", rest);
      UnfoldList(PrintItems(items) + "]" + rest);
    case Table(entries) => TableRead(entries, rest);
  }

  lemma ItemsStop(s: string)
    requires Past(']', s).None? && ReadValue(Skip(s)).None?
    ensures ReadItems(s).None?
  {}

  lemma ItemsEnd(s: string, item: Got<Value>, rest: string)
    requires Past(']', s).None? && ReadValue(Skip(s)) == Some(item) && Past(']', item.rest) == Some(rest)
    ensures ReadItems(s) == Some(Got([item.value], rest))
  {}

  lemma ItemsStep(s: string, item: Got<Value>, after: string)
    requires Past(']', s).None? && ReadValue(Skip(s)) == Some(item)
    requires Past(']', item.rest).None? && Past(',', item.rest) == Some(after)
    ensures var more := ReadItems(after);
            ReadItems(s) == if more.None? then None else Some(Got([item.value] + more.value.value, more.value.rest))
  {}

  /** The text of a list after its bracket, from its first item on. */
  lemma ItemsText(items: seq<Value>, rest: string)
    requires items != []
    ensures PrintItems(items) + "]" + rest == Print(items[0]) +
            if |items| == 1 then "]" + rest else "," + (" " + (PrintItems(items[1..]) + "]" + rest))
  {
    if |items| == 1 {
      Alone(Print(items[0]), "]", rest);
    } else {
      Joined(Print(items[0]), PrintItems(items[1..]), "]", rest);
    }
  }

  lemma {:induction false} ItemsRead(items: seq<Value>, rest: string)
    requires AllPrintable(items)
    ensures ReadItems(PrintItems(items) + "]" + rest) == if AllReadable(items) then Some(Got(items, rest)) else None
    decreases items, 0
  {
    if items == [] {
      assert PrintItems(items) + "]" + rest == "]" + rest;
      PastHere(']', rest);
    } else {
      AllHead(items);
      var after := PrintItems(items[1..]) + "]" + rest;
      var tail := if |items| == 1 then "]" + rest else "," + (" " + after);
      ItemsText(items, rest);
      assert Delimited(tail);
      PrintRead(items[0], tail);
      if |items| > 1 { ItemsRead(items[1..], rest); }
      PrintOpens(items[0]);
      SkipNone(Print(items[0]), tail);
      if |items| == 1 {
        ItemsOne(items[0], Readable(items[0]), rest, Print(items[0]) + tail);
      } else {
        ItemsMore(items[0], Readable(items[0]), Print(items[0]) + tail, after,
          items[1..], AllReadable(items[1..]), rest);
      }
    }
  }

  lemma ItemsOne(item: Value, readable: bool, rest: string, s: string)
    requires Past(']', s).None? && Skip(s) == s
    requires ReadValue(s) == if readable then Some(Got(item, "]" + rest)) else None
    ensures ReadItems(s) == if readable then Some(Got([item], rest)) else None
  {
    if readable {
      PastHere(']', rest);
      ItemsEnd(s, Got(item, "]" + rest), rest);
    } else {
      ItemsStop(s);
    }
  }

  lemma ItemsMore(item: Value, readable: bool, s: string, after: string, others: seq<Value>, also: bool, rest: string)
    requires Past(']', s).None? && Skip(s) == s
    requires ReadValue(s) == if readable then Some(Got(item, "," + (" " + after))) else None
    requires ReadItems(after) == if also then Some(Got(others, rest)) else None
    ensures ReadItems(s) == if readable && also then Some(Got([item] + others, rest)) else None
  {
    if readable {
      PastHere(',', " " + after);
      ItemsBlank(after);
      ItemsStep(s, Got(item, "," + (" " + after)), " " + after);
    } else {
      ItemsStop(s);
    }
  }

  /** A blank before the items makes no difference. */
  lemma ItemsBlank(s: string)
    ensures ReadItems(" " + s) == ReadItems(s)
  {
    SkipOne(s);
  }

  lemma EntryBlank(s: string)
    ensures ReadEntry(" " + s) == ReadEntry(s)
  {
    SkipOne(s);
  }

  lemma EntriesBlank(s: string)
    ensures ReadEntries(" " + s) == ReadEntries(s)
  {
    EntryBlank(s);
  }

  lemma EntryUnfold(s: string, quoted: string, key: Got<string>, given: string)
    requires Past('"', s) == Some(quoted) && ReadString(quoted) == Some(key) && Past('=', key.rest) == Some(given)
    ensures var value := ReadValue(Skip(given));
            ReadEntry(s) ==
              if value.None? then None else Some(Got(Entry(key.value, value.value.value), value.value.rest))
  {}

  lemma EntryStop(s: string, quoted: string)
    requires Past('"', s) == Some(quoted) && ReadString(quoted).None?
    ensures ReadEntry(s).None?
  {}

  lemma PastEquals(value: string)
    ensures Past('=', " = " + value) == Some(" " + value)
  {
    assert " = " + value == " " + ("=" + (" " + value));
    SkipOne("=" + (" " + value));
    PastHere('=', " " + value);
  }

  lemma {:induction false} EntryRead(e: Entry, rest: string)
    requires Printable(e.value) && Delimited(rest)
    ensures ReadEntry(Quote(e.key) + " = " + Print(e.value) + rest)
            == if PlainText(e.key) && Readable(e.value) then Some(Got(e, rest)) else None
    decreases e, 2
  {
    PrintRead(e.value, rest);
    PrintOpens(e.value);
    ValueAfterBlank(Print(e.value), rest);
    EntryTextRead(e.key, Print(e.value) + rest);
    Given(Quote(e.key), Print(e.value), rest);
  }

  lemma Given(key: string, p: string, rest: string)
    ensures key + " = " + p + rest == key + (" = " + (p + rest))
  {}

  lemma ValueAfterBlank(p: string, rest: string)
    requires p != "" && p[0] !in " \t"
    ensures Skip(" " + (p + rest)) == p + rest
  {
    SkipOne(p + rest);
    SkipNone(p, rest);
  }

  lemma EntryTextRead(key: string, value: string)
    ensures var r := ReadValue(Skip(" " + value));
            ReadEntry(Quote(key) + (" = " + value)) ==
              if PlainText(key) && r.Some? then Some(Got(Entry(key, r.value.value), r.value.rest)) else None
  {
    var after := " = " + value;
    var s, quoted := Quote(key) + after, Escape(key) + "\"" + after;
    assert s == ['"'] + quoted;
    PastHere('"', quoted);
    QuotedRead(key, after);
    if PlainText(key) {
      PastEquals(value);
      EntryUnfold(s, quoted, Got(key, after), " " + value);
    } else {
      EntryStop(s, quoted);
    }
  }

  ghost predicate EntriesPrintable(entries: seq<Entry>) {
    forall i :: 0 <= i < |entries| ==> Printable(entries[i].value)
  }

  ghost predicate EntriesReadable(entries: seq<Entry>) {
    && DistinctKeys(entries)
    && forall i :: 0 <= i < |entries| ==> PlainText(entries[i].key) && Readable(entries[i].value)
  }

  lemma EntriesHead(entries: seq<Entry>)
    requires entries != []
    ensures EntriesReadable(entries) <==>
            && PlainText(entries[0].key) && Readable(entries[0].value)
            && EntriesReadable(entries[1..]) && !HasKey(entries[1..], entries[0].key)
    ensures EntriesPrintable(entries) ==> Printable(entries[0].value) && EntriesPrintable(entries[1..])
  {
    assert entries == [entries[0]] + entries[1..];
    assert forall i :: 1 <= i < |entries| ==> entries[i] == entries[1..][i - 1];
  }

  lemma EntriesStop(s: string)
    requires ReadEntry(s).None?
    ensures ReadEntries(s).None?
  {}

  lemma EntriesEnd(s: string, e: Got<Entry>, rest: string)
    requires ReadEntry(s) == Some(e) && Past('}', e.rest) == Some(rest)
    ensures ReadEntries(s) == Some(Got([e.value], rest))
  {}

  lemma EntriesStep(s: string, e: Got<Entry>, after: string)
    requires ReadEntry(s) == Some(e) && Past('}', e.rest).None? && Past(',', e.rest) == Some(after)
    ensures var more := ReadEntries(after);
            ReadEntries(s) == if more.None? || HasKey(more.value.value, e.value.key) then None
                              else Some(Got([e.value] + more.value.value, more.value.rest))
  {}

  function EntryText(e: Entry): string { Quote(e.key) + " = " + Print(e.value) }

  lemma EntriesText(entries: seq<Entry>, rest: string)
    requires entries != []
    ensures PrintEntries(entries) + "}" + rest == EntryText(entries[0]) +
            if |entries| == 1 then "}" + rest else "," + (" " + (PrintEntries(entries[1..]) + "}" + rest))
  {
    if |entries| == 1 {
      Alone(EntryText(entries[0]), "}", rest);
    } else {
      Joined(EntryText(entries[0]), PrintEntries(entries[1..]), "}", rest);
    }
  }

  lemma {:induction false} EntriesRead(entries: seq<Entry>, rest: string)
    requires EntriesPrintable(entries) && entries != []
    ensures ReadEntries(PrintEntries(entries) + "}" + rest)
            == if EntriesReadable(entries) then Some(Got(entries, rest)) else None
    decreases entries, 0
  {
    EntriesHead(entries);
    var after := PrintEntries(entries[1..]) + "}" + rest;
    var tail := if |entries| == 1 then "}" + rest else "," + (" " + after);
    EntriesText(entries, rest);
    EntryRead(entries[0], tail);
    if |entries| > 1 { EntriesRead(entries[1..], rest); }
    EntriesFromFirst(entries, rest, after, tail, EntryText(entries[0]) + tail);
  }

  lemma EntriesFromFirst(entries: seq<Entry>, rest: string, after: string, tail: string, s: string)
    requires entries != []
    requires EntriesReadable(entries) <==>
             && PlainText(entries[0].key) && Readable(entries[0].value)
             && EntriesReadable(entries[1..]) && !HasKey(entries[1..], entries[0].key)
    requires ReadEntry(s) ==
             if PlainText(entries[0].key) && Readable(entries[0].value) then Some(Got(entries[0], tail)) else None
    requires tail == if |entries| == 1 then "}" + rest else "," + (" " + after)
    requires |entries| > 1 ==>
               ReadEntries(after) == if EntriesReadable(entries[1..]) then Some(Got(entries[1..], rest)) else None
    ensures ReadEntries(s) == if EntriesReadable(entries) then Some(Got(entries, rest)) else None
  {
    var first := entries[0];
    if ReadEntry(s).None? {
      EntriesStop(s);
    } else if |entries| == 1 {
      PastHere('}', rest);
      EntriesEnd(s, Got(first, tail), rest);
      assert entries == [first] && entries[1..] == [];
    } else {
      PastHere(',', " " + after);
      EntriesBlank(after);
      EntriesStep(s, Got(first, tail), " " + after);
      assert entries == [first] + entries[1..];
    }
  }

  lemma {:induction false} TableRead(entries: seq<Entry>, rest: string)
    requires EntriesPrintable(entries)
    ensures ReadValue("{" + PrintEntries(entries) + "}" + rest)
            == if EntriesReadable(entries) then Some(Got(Table(entries), rest)) else None
    decreases entries, 1
  {
    var body := PrintEntries(entries) + "}" + rest;
    var s := "{" + PrintEntries(entries) + "}" + rest;
    assert s[1..] == body;
    if entries == [] {
      assert body == "}" + rest;
      PastHere('}', rest);
    } else {
      EntriesRead(entries, rest);
      assert body[0] == '"';
    }
  }

  /** Different values that can be read back are printed differently. */
  lemma PrintInjective(v: Value, w: Value)
    requires Printable(v) && Printable(w) && Readable(v) && Readable(w) && Print(v) == Print(w)
    ensures v == w
  {
    PrintRead(v, "");
    PrintRead(w, "");
  }

  /** An input: a string of one delete character is printed as it is, and reading it fails. */
  lemma DeleteNotRead(rest: string)
    ensures var v := Str([127 as char]);
            Print(v) == ['"', 127 as char, '"'] && ReadValue(Print(v) + rest).None?
  {
    PrintRead(Str([127 as char]), rest);
    assert !PlainText([127 as char]) by { assert [127 as char][0] as int == 127; }
    var c := 127 as char;
    assert [c][1..] == "" && Escape("") == "";
    assert Escape([c]) == EscapeChar(c) == [c];
  }

  // ----- Reading after an update

  /** The value of a key: what is read after its first assignment. */
  function Lookup(s: string, key: string): Option<Value>
    decreases |s|
  {
    var here := AssignmentOnLine(s, key);
    if here.Some? then
      var r := ReadValue(Skip(s[here.value..]));
      if r.None? then None else Some(r.value.value)
    else
      var n := LineLength(s);
      if n == |s| then None else Lookup(s[n + 1..], key)
  }

  lemma LookupUnfold(s: string, key: string, at: nat, value: string)
    requires AssignmentOnLine(s, key) == Some(at) && at <= |s| && Skip(s[at..]) == value
    ensures Lookup(s, key) == var r := ReadValue(value); if r.None? then None else Some(r.value.value)
  {}

  lemma LookupHere(key: string, v: Value, rest: string)
    requires RenderedKey(key) && Printable(v) && (v.Bool? || v.Num? ==> Delimited(rest))
    ensures Lookup(Rendered(key, v) + rest, key) == if Readable(v) then Some(v) else None
  {
    PrintRead(v, rest);
    PrintOpens(v);
    LookupText(key, Print(v), rest);
  }

  lemma LookupText(key: string, p: string, rest: string)
    requires RenderedKey(key) && p != "" && p[0] !in " \t"
    ensures Lookup(key + " = " + p + rest, key) ==
            var r := ReadValue(p + rest); if r.None? then None else Some(r.value.value)
  {
    Regroup(key, p, rest, 0);
    RenderedAssigns(key, p, rest);
    ValueAfterBlank(p, rest);
    assert " " + p + rest == " " + (p + rest);
    LookupUnfold(key + " = " + p + rest, key, |key| + 2, p + rest);
  }

  lemma LookupSkips(line: string, x: string, key: string)
    requires RenderedKey(key) && AssignmentOnLine(line, key).None? && OneLine(line)
    ensures Lookup(line + "\n" + x, key) == Lookup(x, key)
  {
    var s := line + "\n" + x;
    AssignmentLocal(line, key, x);
    assert s == line + ("\n" + x);
    LineLengthConcat(line, "\n" + x);
    assert s[|line| + 1..] == x;
  }

  /** After a key was overwritten its value is the new one if and only if that value can be read back; otherwise
      nothing can be read there. */
  lemma {:induction false} OverwriteThenLookup(body: string, key: string, v: Value)
    requires RenderedKey(key) && Printable(v) && Overwrite(body, key, Rendered(key, v)).Some?
    requires v.Bool? || v.Num? ==> Delimited(Remainder(body, key))
    ensures Lookup(Overwrite(body, key, Rendered(key, v)).value, key) == if Readable(v) then Some(v) else None
    decreases |body|
  {
    if AssignmentOnLine(body, key).Some? {
      LookupHere(key, v, Remainder(body, key));
    } else {
      var n := LineLength(body);
      var line, x := body[..n], body[n + 1..];
      OverwriteThenLookup(x, key, v);
      CutAt(body, n);
      OneLinePrefix(body);
      AssignmentLocal(line, key, x);
      OverwriteSkips(line, x, key, Rendered(key, v));
      LookupSkips(line, Overwrite(x, key, Rendered(key, v)).value, key);
    }
  }
}
