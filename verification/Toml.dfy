/**
 Printing values into a TOML file and finding the end of a value again.

 Strings are escaped as in section 7 of RFC 8259; arrays and inline tables follow TOML v1.0.0.
 */
module Toml {
  import opened Wrappers

  datatype Value =
    | Bool(b: bool)
    | Str(s: string)
    | Num(text: string)
    | List(items: seq<Value>)
    | Table(entries: seq<Entry>)

  datatype Entry = Entry(key: string, value: Value)

  /** The characters Python writes for an int or a float, including `inf` and `nan`. */
  predicate NumChar(c: char) { '0' <= c <= '9' || c in "+-.einfa" }

  ghost predicate Printable(v: Value)
    decreases v
  {
    match v
    case Num(text) => text != "" && forall i :: 0 <= i < |text| ==> NumChar(text[i])
    case List(items) => forall i :: 0 <= i < |items| ==> Printable(items[i])
    case Table(entries) => forall i :: 0 <= i < |entries| ==> Printable(entries[i].value)
    case _ => true
  }

  predicate Container(v: Value) { v.List? || v.Table? }

  // ----- The printer

  function EscapeChar(c: char): string {
    if c == '"' then "\\\""
    else if c == '\\' then "\\\\"
    else if c == '\n' then "\\n"
    else if c == '\r' then "\\r"
    else if c == '\t' then "\\t"
    else if c == 8 as char then "\\b"
    else if c == 12 as char then "\\f"
    else if (c as int) < 32 then "\\u00" + ["0123456789abcdef"[c as int / 16], "0123456789abcdef"[c as int % 16]]
    else [c]
  }

  function Escape(s: string): string {
    if s == "" then "" else EscapeChar(s[0]) + Escape(s[1..])
  }

  function Quote(s: string): string { "\"" + Escape(s) + "\"" }

  function Print(v: Value): string
    decreases v, 1
  {
    match v
    case Bool(b) => if b then "true" else "false"
    case Str(s) => Quote(s)
    case Num(text) => text
    case List(items) => "[" + PrintItems(items) + "]"
    case Table(entries) => "{" + PrintEntries(entries) + "}"
  }

  function PrintItems(items: seq<Value>): string
    decreases items, 0
  {
    if items == [] then ""
    else Print(items[0]) + (if |items| > 1 then ", " else "") + PrintItems(items[1..])
  }

  function PrintEntries(entries: seq<Entry>): string
    decreases entries, 0
  {
    if entries == [] then ""
    else
      Quote(entries[0].key) + " = " + Print(entries[0].value)
      + (if |entries| > 1 then ", " else "") + PrintEntries(entries[1..])
  }

  // ----- The scanner

  /** Nesting depth, the quote that is open (if any), and whether the next character is escaped. */
  datatype Scan = Scan(depth: int, quote: Option<char>, escaped: bool)

  function Closing(opening: char): char { if opening == '[' then ']' else '}' }

  function Step(c: char, opening: char, st: Scan): Scan {
    if st.escaped then st.(escaped := false)
    else if st.quote.Some? then
      if c == '\\' then st.(escaped := true) else if c == st.quote.value then st.(quote := None) else st
    else if c == '\'' || c == '"' then st.(quote := Some(c))
    else if c == opening then st.(depth := st.depth + 1)
    else if c == Closing(opening) then st.(depth := st.depth - 1)
    else st
  }

  /** The character that brings the depth back to zero ends the value. */
  predicate Ends(c: char, opening: char, st: Scan) {
    !st.escaped && st.quote.None? && c != '\'' && c != '"' && c != opening && c == Closing(opening) && st.depth == 1
  }

  /** How many characters the value takes, or none if it is not terminated. */
  function Extent(s: string, opening: char, st: Scan): (r: Option<nat>)
    ensures r.Some? ==> r.value <= |s|
  {
    if s == "" then None
    else if Ends(s[0], opening, st) then Some(1)
    else
      var rest := Extent(s[1..], opening, Step(s[0], opening, st));
      if rest.None? then None else Some(1 + rest.value)
  }

  function Blanks(s: string): (n: nat)
    ensures n <= |s|
  {
    if s != "" && (s[0] == ' ' || s[0] == '\t') then 1 + Blanks(s[1..]) else 0
  }

  function LineLength(s: string): (n: nat)
    ensures n <= |s| && (n < |s| ==> s[n] == '\n')
  {
    if s == "" || s[0] == '\n' then 0 else 1 + LineLength(s[1..])
  }

  predicate OneLine(s: string) { LineLength(s) == |s| }

  lemma {:induction false} OneLineAt(s: string, i: nat)
    requires i < LineLength(s)
    ensures s[i] != '\n'
  {
    if i > 0 { OneLineAt(s[1..], i - 1); }
  }

  lemma {:induction false} OneLineIf(s: string)
    requires forall i :: 0 <= i < |s| ==> s[i] != '\n'
    ensures OneLine(s)
  {
    if s != "" { OneLineIf(s[1..]); }
  }

  /** `_toml_value_end`, relative to where scanning starts. */
  function ValueEnd(s: string): (r: Option<nat>)
    ensures r.Some? ==> r.value <= |s|
  {
    var i := Blanks(s);
    if i == |s| || (s[i] != '[' && s[i] != '{') then Some(i + LineLength(s[i..]))
    else
      var n := Extent(s[i..], s[i], Scan(0, None, false));
      if n.None? then None else Some(i + n.value)
  }

  method SkipBlanks(text: string, start: nat) returns (index: nat)
    requires start <= |text|
    ensures index == start + Blanks(text[start..]) && index <= |text|
  {
    index := start;
    while index < |text| && (text[index] == ' ' || text[index] == '\t')
      invariant start <= index <= |text| && index - start + Blanks(text[index..]) == Blanks(text[start..])
    {
      assert text[index..][1..] == text[index + 1..];
      index := index + 1;
    }
  }

  method FindNewline(text: string, start: nat) returns (newline: nat)
    requires start <= |text|
    ensures newline == start + LineLength(text[start..])
  {
    newline := start;
    while newline < |text| && text[newline] != '\n'
      invariant start <= newline <= |text| && newline - start + LineLength(text[newline..]) == LineLength(text[start..])
    {
      assert text[newline..][1..] == text[newline + 1..];
      newline := newline + 1;
    }
  }

  /** The scanning loop, with the variables of the original. */
  method ScanContainer(text: string, index: nat) returns (end: Option<nat>)
    requires index < |text|
    ensures var e := Extent(text[index..], text[index], Scan(0, None, false));
            end == if e.None? then None else Some(index + e.value)
  {
    var opening := text[index];
    var depth, quote, escaped := 0, None, false;
    ghost var goal := Extent(text[index..], opening, Scan(0, None, false));
    for pos := index to |text|
      invariant goal == var rest := Extent(text[pos..], opening, Scan(depth, quote, escaped));
                        if rest.None? then None else Some(pos - index + rest.value)
    {
      var c := text[pos];
      assert text[pos..][0] == c && text[pos..][1..] == text[pos + 1..];
      if escaped {
        escaped := false;
      } else if quote.Some? {
        if c == '\\' { escaped := true; } else if c == quote.value { quote := None; }
      } else if c == '\'' || c == '"' {
        quote := Some(c);
      } else if c == opening {
        depth := depth + 1;
      } else if c == Closing(opening) {
        depth := depth - 1;
        if depth == 0 { return Some(pos + 1); }
      }
    }
    return None;
  }

  method TomlValueEnd(text: string, start: nat) returns (end: Option<nat>)
    requires start <= |text|
    ensures var e := ValueEnd(text[start..]);
            end == if e.None? then None else Some(start + e.value)
  {
    var index := SkipBlanks(text, start);
    assert text[start..][index - start..] == text[index..];
    if index >= |text| || (text[index] != '[' && text[index] != '{') {
      var newline := FindNewline(text, index);
      return Some(newline);
    }
    end := ScanContainer(text, index);
  }

  // ----- Scanning what was printed

  /** The scanner state after all of `s`, unless the value ends inside it. */
  ghost function Through(s: string, opening: char, st: Scan): Option<Scan> {
    if s == "" then Some(st)
    else if Ends(s[0], opening, st) then None
    else Through(s[1..], opening, Step(s[0], opening, st))
  }

  lemma {:induction false} ThroughConcat(a: string, b: string, opening: char, st: Scan)
    requires Through(a, opening, st).Some?
    ensures Through(a + b, opening, st) == Through(b, opening, Through(a, opening, st).value)
  {
    if a == "" {
      assert a + b == b;
    } else {
      assert (a + b)[1..] == a[1..] + b;
      ThroughConcat(a[1..], b, opening, Step(a[0], opening, st));
    }
  }

  lemma {:induction false} ExtentConcat(a: string, b: string, opening: char, st: Scan)
    requires Through(a, opening, st).Some?
    ensures var rest := Extent(b, opening, Through(a, opening, st).value);
            Extent(a + b, opening, st) == if rest.None? then None else Some(|a| + rest.value)
  {
    if a == "" {
      assert a + b == b;
    } else {
      assert (a + b)[1..] == a[1..] + b;
      ExtentConcat(a[1..], b, opening, Step(a[0], opening, st));
    }
  }

  lemma ThroughOne(c: char, opening: char, st: Scan)
    requires !Ends(c, opening, st)
    ensures Through([c], opening, st) == Some(Step(c, opening, st))
  {
    assert [c][1..] == "";
  }

  /** An escape sequence is two characters the scanner skips, plus plain ones. */
  lemma EscapeCharStaysQuoted(c: char, opening: char, depth: int)
    ensures var st := Scan(depth, Some('"'), false); Through(EscapeChar(c), opening, st) == Some(st)
  {
    var st, e := Scan(depth, Some('"'), false), EscapeChar(c);
    if |e| == 1 {
      ThroughOne(c, opening, st);
    } else {
      assert e == e[..2] + e[2..];
      assert e[..2][1..] == [e[1]];
      ThroughOne(e[1], opening, st.(escaped := true));
      assert Through(e[..2], opening, st) == Some(st);
      ThroughConcat(e[..2], e[2..], opening, st);
      PlainStaysQuoted(e[2..], opening, depth);
    }
  }

  lemma {:induction false} PlainStaysQuoted(s: string, opening: char, depth: int)
    requires forall i :: 0 <= i < |s| ==> s[i] != '"' && s[i] != '\\'
    ensures var st := Scan(depth, Some('"'), false); Through(s, opening, st) == Some(st)
  {
    if s != "" { PlainStaysQuoted(s[1..], opening, depth); }
  }

  lemma {:induction false} EscapeStaysQuoted(s: string, opening: char, depth: int)
    ensures var st := Scan(depth, Some('"'), false); Through(Escape(s), opening, st) == Some(st)
  {
    if s != "" {
      EscapeCharStaysQuoted(s[0], opening, depth);
      EscapeStaysQuoted(s[1..], opening, depth);
      ThroughConcat(EscapeChar(s[0]), Escape(s[1..]), opening, Scan(depth, Some('"'), false));
    }
  }

  /** A scanner outside quotes passes over `s` and is as it was. */
  ghost predicate Neutral(s: string, opening: char, depth: int) {
    Through(s, opening, Scan(depth, None, false)) == Some(Scan(depth, None, false))
  }

  lemma NeutralConcat(a: string, b: string, opening: char, depth: int)
    requires Neutral(a, opening, depth) && Neutral(b, opening, depth)
    ensures Neutral(a + b, opening, depth)
  {
    ThroughConcat(a, b, opening, Scan(depth, None, false));
  }

  lemma {:induction false} PlainNeutral(s: string, opening: char, depth: int)
    requires opening == '[' || opening == '{'
    requires forall i :: 0 <= i < |s| ==> s[i] !in "'\"[]{}"
    ensures Neutral(s, opening, depth)
  {
    if s != "" { PlainNeutral(s[1..], opening, depth); }
  }

  lemma QuoteNeutral(s: string, opening: char, depth: int)
    requires opening == '[' || opening == '{'
    ensures Neutral(Quote(s), opening, depth)
  {
    var st := Scan(depth, None, false);
    ThroughOne('"', opening, st);
    ThroughOne('"', opening, st.(quote := Some('"')));
    EscapeStaysQuoted(s, opening, depth);
    ThroughConcat("\"", Escape(s), opening, st);
    ThroughConcat("\"" + Escape(s), "\"", opening, st);
  }

  // ----- Every printed value is neutral inside a container

  lemma {:induction false} PrintNeutral(v: Value, opening: char, depth: int)
    requires Printable(v) && depth >= 1 && (opening == '[' || opening == '{')
    ensures Neutral(Print(v), opening, depth)
    decreases v, 1
  {
    match v
    case Bool(b) => PlainNeutral(Print(v), opening, depth);
    case Str(s) => QuoteNeutral(s, opening, depth);
    case Num(text) => PlainNeutral(text, opening, depth);
    case List(items) =>
      var inner := if opening == '[' then depth + 1 else depth;
      ItemsNeutral(items, opening, inner);
      BracketsNeutral("[", PrintItems(items), "]", opening, depth, inner);
    case Table(entries) =>
      var inner := if opening == '{' then depth + 1 else depth;
      EntriesNeutral(entries, opening, inner);
      BracketsNeutral("{", PrintEntries(entries), "}", opening, depth, inner);
  }

  lemma BracketsNeutral(open: string, body: string, close: string, opening: char, depth: int, inner: int)
    requires depth >= 1 && (opening == '[' || opening == '{') && Neutral(body, opening, inner)
    requires (open == "[" && close == "]") || (open == "{" && close == "}")
    requires inner == if open[0] == opening then depth + 1 else depth
    ensures Neutral(open + body + close, opening, depth)
  {
    var st := Scan(depth, None, false);
    ThroughOne(open[0], opening, st);
    assert open == [open[0]] && close == [close[0]];
    ThroughOne(close[0], opening, st.(depth := inner));
    ThroughConcat(open, body, opening, st);
    ThroughConcat(open + body, close, opening, st);
  }

  lemma {:induction false} ItemsNeutral(items: seq<Value>, opening: char, depth: int)
    requires (forall i :: 0 <= i < |items| ==> Printable(items[i])) && depth >= 1 && (opening == '[' || opening == '{')
    ensures Neutral(PrintItems(items), opening, depth)
    decreases items, 0
  {
    if items != [] {
      var separator := if |items| > 1 then ", " else "";
      PrintNeutral(items[0], opening, depth);
      PlainNeutral(separator, opening, depth);
      ItemsNeutral(items[1..], opening, depth);
      NeutralConcat(Print(items[0]), separator, opening, depth);
      NeutralConcat(Print(items[0]) + separator, PrintItems(items[1..]), opening, depth);
    }
  }

  lemma {:induction false} EntriesNeutral(entries: seq<Entry>, opening: char, depth: int)
    requires (forall i :: 0 <= i < |entries| ==> Printable(entries[i].value)) && depth >= 1 &&
        (opening == '[' || opening == '{')
    ensures Neutral(PrintEntries(entries), opening, depth)
    decreases entries, 0
  {
    if entries != [] {
      var key, value := Quote(entries[0].key), Print(entries[0].value);
      var separator := if |entries| > 1 then ", " else "";
      QuoteNeutral(entries[0].key, opening, depth);
      PlainNeutral(" = ", opening, depth);
      PrintNeutral(entries[0].value, opening, depth);
      PlainNeutral(separator, opening, depth);
      EntriesNeutral(entries[1..], opening, depth);
      NeutralConcat(key, " = ", opening, depth);
      NeutralConcat(key + " = ", value, opening, depth);
      NeutralConcat(key + " = " + value, separator, opening, depth);
      NeutralConcat(key + " = " + value + separator, PrintEntries(entries[1..]), opening, depth);
    }
  }

  lemma BracketedExtent(opening: char, body: string, rest: string)
    requires (opening == '[' || opening == '{') && Neutral(body, opening, 1)
    ensures Extent([opening] + body + [Closing(opening)] + rest, opening, Scan(0, None, false)) == Some(|body| + 2)
  {
    var st, tail := Scan(0, None, false), [Closing(opening)] + rest;
    ThroughOne(opening, opening, st);
    ThroughConcat([opening], body, opening, st);
    ExtentConcat([opening] + body, tail, opening, st);
    assert [opening] + body + [Closing(opening)] + rest == [opening] + body + tail;
    assert Ends(tail[0], opening, Scan(1, None, false));
  }

  /** A printed array or table ends exactly where it was printed to, whatever follows. */
  lemma ContainerExtent(v: Value, rest: string)
    requires Printable(v) && Container(v)
    ensures Print(v)[0] == '[' || Print(v)[0] == '{'
    ensures Extent(Print(v) + rest, Print(v)[0], Scan(0, None, false)) == Some(|Print(v)|)
  {
    if v.List? {
      ItemsNeutral(v.items, '[', 1);
      BracketedExtent('[', PrintItems(v.items), rest);
      assert Print(v) == ['['] + PrintItems(v.items) + [']'];
    } else {
      EntriesNeutral(v.entries, '{', 1);
      BracketedExtent('{', PrintEntries(v.entries), rest);
      assert Print(v) == ['{'] + PrintEntries(v.entries) + ['}'];
    }
  }

  lemma {:induction false} LineLengthConcat(a: string, b: string)
    requires OneLine(a)
    ensures LineLength(a + b) == |a| + LineLength(b)
  {
    if a == "" {
      assert a + b == b;
    } else {
      assert (a + b)[1..] == a[1..] + b;
      LineLengthConcat(a[1..], b);
    }
  }

  lemma {:induction false} EscapeOneLine(s: string)
    ensures OneLine(Escape(s))
  {
    if s != "" {
      EscapeOneLine(s[1..]);
      EscapeCharOneLine(s[0]);
      LineLengthConcat(EscapeChar(s[0]), Escape(s[1..]));
    }
  }

  lemma EscapeCharOneLine(c: char)
    ensures OneLine(EscapeChar(c))
  {
    forall i | 0 <= i < |EscapeChar(c)| ensures EscapeChar(c)[i] != '\n' {}
    OneLineIf(EscapeChar(c));
  }

  /** A printed scalar is one line that opens neither an array nor a table. */
  lemma ScalarIsOneLine(v: Value)
    requires Printable(v) && !Container(v)
    ensures Print(v) != "" && Print(v)[0] !in " \t[{" && OneLine(Print(v))
  {
    if v.Str? {
      EscapeOneLine(v.s);
      LineLengthConcat(Escape(v.s), "\"");
      assert ("\"" + (Escape(v.s) + "\""))[1..] == Escape(v.s) + "\"";
      assert Quote(v.s) == "\"" + (Escape(v.s) + "\"");
    } else {
      if v.Num? { assert NumChar(v.text[0]); }
      OneLineIf(Print(v));
    }
  }

  lemma BlanksOne(p: string, rest: string)
    requires p != "" && p[0] != ' ' && p[0] != '\t'
    ensures Blanks(" " + p + rest) == 1 && (" " + p + rest)[1..] == p + rest && (p + rest)[0] == p[0]
  {
    var text := " " + p + rest;
    assert text[1..] == p + rest;
    assert Blanks(p + rest) == 0;
  }

  /** Scanning what was printed finds its end: exactly for arrays and tables, at the end of the
      line for scalars. */
  lemma PrintedValueEnd(v: Value, rest: string)
    requires Printable(v)
    ensures ValueEnd(" " + Print(v) + rest)
            == Some(1 + |Print(v)| + if Container(v) then 0 else LineLength(rest))
  {
    if Container(v) {
      ContainerExtent(v, rest);
      ContainerEnd(Print(v), rest);
    } else {
      ScalarIsOneLine(v);
      ScalarEnd(Print(v), rest);
    }
  }

  lemma ContainerEnd(p: string, rest: string)
    requires p != "" && p[0] in "[{" && Extent(p + rest, p[0], Scan(0, None, false)) == Some(|p|)
    ensures ValueEnd(" " + p + rest) == Some(1 + |p|)
  {
    BlanksOne(p, rest);
  }

  lemma ScalarEnd(p: string, rest: string)
    requires p != "" && p[0] !in " \t[{" && OneLine(p)
    ensures ValueEnd(" " + p + rest) == Some(1 + |p| + LineLength(rest))
  {
    BlanksOne(p, rest);
    LineLengthConcat(p, rest);
  }

  // ----- Replacing a key's value in place

  /** A rendered key: not empty, on one line, not starting with a blank. */
  predicate RenderedKey(key: string) {
    key != "" && key[0] != ' ' && key[0] != '\t' && OneLine(key)
  }

  /** If the line opens with `key =`, with blanks allowed around the key, the position after `=`. */
  function AssignmentOnLine(s: string, key: string): (r: Option<nat>)
    ensures r.Some? ==> r.value <= |s|
  {
    var i := Blanks(s);
    if key <= s[i..] then
      var after := s[i + |key|..];
      var j := Blanks(after);
      if j < |after| && after[j] == '=' then Some(i + |key| + j + 1) else None
    else None
  }

  function Rendered(key: string, v: Value): string { key + " = " + Print(v) }

  /** The body with the assignment of `key` replaced by `text` on the first line that has one;
      none when no line does or the value there is not terminated. */
  function Overwrite(s: string, key: string, text: string): Option<string>
    decreases |s|
  {
    var here := AssignmentOnLine(s, key);
    if here.Some? then
      var e := ValueEnd(s[here.value..]);
      if e.None? then None else Some(text + s[here.value + e.value..])
    else
      var n := LineLength(s);
      if n == |s| then None
      else
        var later := Overwrite(s[n + 1..], key, text);
        if later.None? then None else Some(s[..n + 1] + later.value)
  }

  /** What follows the old value. */
  ghost function Remainder(s: string, key: string): string
    decreases |s|
  {
    var here := AssignmentOnLine(s, key);
    if here.Some? then
      var e := ValueEnd(s[here.value..]);
      if e.None? then "" else s[here.value + e.value..]
    else
      var n := LineLength(s);
      if n == |s| then "" else Remainder(s[n + 1..], key)
  }

  lemma {:induction false} BlanksLocal(line: string, x: string)
    ensures Blanks(line + "\n" + x) == Blanks(line)
  {
    if line == "" {
      assert line + "\n" + x == "\n" + x;
    } else {
      assert (line + "\n" + x)[1..] == line[1..] + "\n" + x;
      BlanksLocal(line[1..], x);
    }
  }

  lemma KeyLocal(line: string, i: nat, key: string, x: string)
    requires i <= |line| && RenderedKey(key)
    ensures key <= (line + "\n" + x)[i..] <==> key <= line[i..]
  {
    var s := line + "\n" + x;
    assert s[i..] == line[i..] + "\n" + x;
    if i + |key| <= |line| {
      assert s[i..][..|key|] == line[i..][..|key|];
    } else {
      assert s[i..][|line| - i] == '\n';
      OneLineAt(key, |line| - i);
    }
  }

  lemma AfterLocal(line: string, n: nat, x: string)
    requires n <= |line|
    ensures var after, wide := line[n..], (line + "\n" + x)[n..];
            && Blanks(wide) == Blanks(after)
            && (Blanks(wide) < |wide| && wide[Blanks(wide)] == '=' <==>
                Blanks(after) < |after| && after[Blanks(after)] == '=')
  {
    var after := line[n..];
    assert (line + "\n" + x)[n..] == after + "\n" + x;
    BlanksLocal(after, x);
  }

  /** Whether a line assigns the key does not depend on the lines after it. */
  lemma AssignmentLocal(line: string, key: string, x: string)
    requires RenderedKey(key)
    ensures AssignmentOnLine(line + "\n" + x, key) == AssignmentOnLine(line, key)
  {
    var i := Blanks(line);
    BlanksLocal(line, x);
    KeyLocal(line, i, key, x);
    if key <= line[i..] { AfterLocal(line, i + |key|, x); }
    AssignmentSame(line + "\n" + x, line, key);
  }

  lemma AssignmentSame(s: string, line: string, key: string)
    requires var i := Blanks(line);
             && Blanks(s) == i <= |s| && (key <= s[i..] <==> key <= line[i..])
             && (key <= line[i..] ==>
                   var after, wide := line[i + |key|..], s[i + |key|..];
                   && Blanks(wide) == Blanks(after)
                   && (Blanks(wide) < |wide| && wide[Blanks(wide)] == '=' <==>
                       Blanks(after) < |after| && after[Blanks(after)] == '='))
    ensures AssignmentOnLine(s, key) == AssignmentOnLine(line, key)
  {}

  lemma AssignmentWritten(key: string, tail: string)
    requires RenderedKey(key)
    ensures AssignmentOnLine(key + " =" + tail, key) == Some(|key| + 2)
  {
    var s := key + " =" + tail;
    assert s[0] == key[0] && Blanks(s) == 0 && s[0..] == s;
    var after := s[|key|..];
    assert after == " =" + tail && after[1..] == "=" + tail;
    assert Blanks(after[1..]) == 0;
  }

  lemma {:induction false} OneLinePrefix(s: string)
    ensures OneLine(s[..LineLength(s)])
  {
    if s != "" && s[0] != '\n' {
      var n := LineLength(s);
      assert s[..n][1..] == s[1..][..n - 1];
      OneLinePrefix(s[1..]);
    }
  }

  lemma CutAt(s: string, n: nat)
    requires n < |s| && s[n] == '\n'
    ensures s == s[..n] + "\n" + s[n + 1..]
  {
    assert s[n..n + 1] == "\n";
  }

  /** One line that does not assign the key is copied, whatever follows. */
  lemma OverwriteSkips(line: string, x: string, key: string, text: string)
    requires RenderedKey(key) && AssignmentOnLine(line, key).None? && OneLine(line)
    ensures var later := Overwrite(x, key, text);
            Overwrite(line + "\n" + x, key, text) == if later.None? then None else Some(line + "\n" + later.value)
  {
    var s := line + "\n" + x;
    AssignmentLocal(line, key, x);
    assert s == line + ("\n" + x);
    LineLengthConcat(line, "\n" + x);
    assert s[|line| + 1..] == x && s[..|line| + 1] == line + "\n";
  }

  lemma OverwriteUnfold(s: string, key: string, text: string, at: nat, e: nat)
    requires AssignmentOnLine(s, key) == Some(at) && at <= |s| && ValueEnd(s[at..]) == Some(e)
    ensures Overwrite(s, key, text) == Some(text + s[at + e..])
  {
  }

  lemma Regroup(key: string, p: string, rest: string, eaten: nat)
    requires eaten <= |rest|
    ensures var s, tail := key + " = " + p + rest, " " + p + rest;
            && s == key + " =" + tail && s[|key| + 2..] == tail
            && s[|key| + 2 + (1 + |p| + eaten)..] == rest[eaten..]
  {
    var s, tail := key + " = " + p + rest, " " + p + rest;
    assert " = " == " =" + " ";
    assert s == key + " =" + tail;
    assert s[|key| + 2..][1 + |p| + eaten..] == rest[eaten..];
  }

  /** On the assigning line, the old value goes and what follows it stays. */
  lemma OverwriteHere(key: string, v: Value, text: string, rest: string)
    requires RenderedKey(key) && Printable(v)
    ensures Overwrite(Rendered(key, v) + rest, key, text)
            == Some(text + rest[if Container(v) then 0 else LineLength(rest)..])
  {
    PrintedValueEnd(v, rest);
    OverwriteText(key, Print(v), text, rest, if Container(v) then 0 else LineLength(rest));
  }

  lemma OverwriteText(key: string, p: string, text: string, rest: string, eaten: nat)
    requires RenderedKey(key) && eaten <= |rest| && ValueEnd(" " + p + rest) == Some(1 + |p| + eaten)
    ensures Overwrite(key + " = " + p + rest, key, text) == Some(text + rest[eaten..])
  {
    Regroup(key, p, rest, eaten);
    RenderedAssigns(key, p, rest);
    OverwriteParts(key + " = " + p + rest, key, text, |key| + 2, " " + p + rest, 1 + |p| + eaten, rest[eaten..]);
  }

  lemma OverwriteParts(s: string, key: string, text: string, at: nat, tail: string, e: nat, left: string)
    requires AssignmentOnLine(s, key) == Some(at) && at <= |s| && s[at..] == tail
    requires ValueEnd(tail) == Some(e) && at + e <= |s| && s[at + e..] == left
    ensures Overwrite(s, key, text) == Some(text + left)
  {
    OverwriteUnfold(s, key, text, at, e);
  }

  lemma RenderedAssigns(key: string, p: string, rest: string)
    requires RenderedKey(key)
    ensures AssignmentOnLine(key + " = " + p + rest, key) == Some(|key| + 2)
  {
    AssignmentWritten(key, " " + p + rest);
    assert key + " = " + p + rest == key + " =" + (" " + p + rest);
  }

  lemma EqualIffNothingEaten(a: string, rest: string, n: nat)
    requires n <= |rest|
    ensures a + rest[n..] == a + rest <==> n == 0
  {
    assert |a + rest[n..]| == |a| + |rest| - n;
  }

  /** Replacing a value twice is replacing it once with the last value, exactly when the first
      new value is an array or a table, or the text after the old value is a line end. */
  lemma {:induction false} OverwriteTwice(body: string, key: string, v: Value, text: string)
    requires RenderedKey(key) && Printable(v) && Overwrite(body, key, Rendered(key, v)).Some?
    ensures var once, rest := Overwrite(body, key, Rendered(key, v)).value, Remainder(body, key);
            && Overwrite(once, key, text).Some? && Overwrite(body, key, text).Some?
            && (Overwrite(once, key, text) == Overwrite(body, key, text)
                <==> Container(v) || rest == "" || rest[0] == '\n')
    decreases |body|
  {
    if AssignmentOnLine(body, key).Some? {
      var rest := Remainder(body, key);
      OverwriteHere(key, v, text, rest);
      EqualIffNothingEaten(text, rest, if Container(v) then 0 else LineLength(rest));
    } else {
      var n := LineLength(body);
      var line, x := body[..n], body[n + 1..];
      OverwriteTwice(x, key, v, text);
      CutAt(body, n);
      OneLinePrefix(body);
      TwiceSkips(body, line, x, key, Rendered(key, v), text);
    }
  }

  lemma TwiceSkips(body: string, line: string, x: string, key: string, r: string, t: string)
    requires RenderedKey(key) && OneLine(line) && body == line + "\n" + x && AssignmentOnLine(body, key).None?
    requires Overwrite(x, key, r).Some? && Overwrite(x, key, t).Some? &&
        Overwrite(Overwrite(x, key, r).value, key, t).Some?
    ensures Overwrite(body, key, r).Some? && Overwrite(body, key, t).Some? &&
        Overwrite(Overwrite(body, key, r).value, key, t).Some?
    ensures Overwrite(Overwrite(body, key, r).value, key, t) == Overwrite(body, key, t)
            <==> Overwrite(Overwrite(x, key, r).value, key, t) == Overwrite(x, key, t)
  {
    AssignmentLocal(line, key, x);
    OverwriteSkips(line, x, key, r);
    OverwriteSkips(line, x, key, t);
    OverwriteSkips(line, Overwrite(x, key, r).value, key, t);
    PrefixCancels(line + "\n", Overwrite(Overwrite(x, key, r).value, key, t).value, Overwrite(x, key, t).value);
  }

  lemma PrefixCancels(a: string, x: string, y: string)
    ensures a + x == a + y <==> x == y
  {
    assert (a + x)[|a|..] == x && (a + y)[|a|..] == y;
  }

  /** An input where it differs: a comment after an array is kept by one overwrite with a scalar, and
      lost by the second. */
  lemma CommentLost(key: string)
    requires RenderedKey(key)
    ensures var body := Rendered(key, List([])) + " # note";
            var once := Rendered(key, Bool(true)) + " # note";
            && Overwrite(body, key, Rendered(key, Bool(true))) == Some(once)
            && Overwrite(once, key, Rendered(key, Bool(false))) == Some(Rendered(key, Bool(false)))
            && Overwrite(body, key, Rendered(key, Bool(false))) == Some(Rendered(key, Bool(false)) + " # note")
  {
    OneLineIf(" # note");
    OverwriteHere(key, List([]), Rendered(key, Bool(true)), " # note");
    OverwriteHere(key, List([]), Rendered(key, Bool(false)), " # note");
    OverwriteHere(key, Bool(true), Rendered(key, Bool(false)), " # note");
    assert Rendered(key, Bool(false)) + " # note"[7..] == Rendered(key, Bool(false));
  }
}
