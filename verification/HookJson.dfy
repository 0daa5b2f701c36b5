/**
 The printed form that the byte limit of a payload is about, and that the size the loop works with is its length.
 */
module HookJson {
  import Utf8
  import opened HookProjection
  import opened HookShrink

  /** The characters of a text as they are printed inside quotes. */
  function Inside(s: string, escape: char -> string): string {
    if s == [] then "" else Inside(s[..|s| - 1], escape) + escape(s[|s| - 1])
  }

  function Quote(s: string, escape: char -> string): string { "\"" + Inside(s, escape) + "\"" }

  function Print(t: Tree, escape: char -> string): string
    decreases t, 1
  {
    match t
    case Scalar(x) => x
    case Text(s) => Quote(s, escape)
    case Foreign(x) => Quote(x, escape)
    case Node(table, kids) =>
      if table then "{" + PrintKids(true, kids, escape) + "}" else "[" + PrintKids(false, kids, escape) + "]"
  }

  function PrintKids(table: bool, kids: seq<Kid>, escape: char -> string): string
    decreases kids, 0
  {
    if kids == [] then ""
    else
      var n := |kids| - 1;
      PrintKids(table, kids[..n], escape) + (if n > 0 then ", " else "") + PrintKid(table, kids[n], escape)
  }

  function PrintKid(table: bool, kid: Kid, escape: char -> string): string
    decreases kid, 0
  {
    (if table then Quote(kid.key, escape) + ": " else "") + Print(kid.value, escape)
  }

  function EscapedBytes(escape: char -> string): char -> nat { c => Utf8.Bytes(escape(c)) }

  lemma {:induction false} InsideBytes(s: string, escape: char -> string)
    ensures Utf8.Bytes(Inside(s, escape)) == Escaped(s, EscapedBytes(escape))
  {
    if s != [] {
      InsideBytes(s[..|s| - 1], escape);
      Utf8.BytesConcat(Inside(s[..|s| - 1], escape), escape(s[|s| - 1]));
    }
  }

  lemma QuoteBytes(s: string, escape: char -> string)
    ensures Utf8.Bytes(Quote(s, escape)) == 2 + Escaped(s, EscapedBytes(escape))
  {
    InsideBytes(s, escape);
    Around("\"", Inside(s, escape), "\"");
  }

  lemma Around(open: string, body: string, close: string)
    requires |open| == |close| == 1 && (open[0] as int) < 0x80 && (close[0] as int) < 0x80
    ensures Utf8.Bytes(open + body + close) == 2 + Utf8.Bytes(body)
  {
    Utf8.BytesConcat(open + body, close);
    Utf8.BytesConcat(open, body);
    Utf8.BytesOfAscii(open);
    Utf8.BytesOfAscii(close);
  }

  /** The size of a tree is the number of bytes of its printed form. */
  lemma {:induction false} PrintBytes(t: Tree, escape: char -> string)
    ensures Utf8.Bytes(Print(t, escape)) == Sum(t, Json(EscapedBytes(escape)))
    decreases t, 1
  {
    match t
    case Scalar(_) =>
    case Text(s) => QuoteBytes(s, escape);
    case Foreign(x) => QuoteBytes(x, escape);
    case Node(table, kids) =>
      KidsBytes(table, kids, escape);
      Around(if table then "{" else "[", PrintKids(table, kids, escape), if table then "}" else "]");
  }

  lemma {:induction false} KidsBytes(table: bool, kids: seq<Kid>, escape: char -> string)
    ensures Utf8.Bytes(PrintKids(table, kids, escape)) == SumKids(table, kids, Json(EscapedBytes(escape)))
    decreases kids, 0
  {
    if kids != [] {
      var n := |kids| - 1;
      var before, comma := PrintKids(table, kids[..n], escape), if n > 0 then ", " else "";
      KidsBytes(table, kids[..n], escape);
      KidBytes(table, kids[n], escape);
      Utf8.BytesConcat(before + comma, PrintKid(table, kids[n], escape));
      Utf8.BytesConcat(before, comma);
      Utf8.BytesOfAscii(comma);
    }
  }

  lemma {:induction false} KidBytes(table: bool, kid: Kid, escape: char -> string)
    ensures Utf8.Bytes(PrintKid(table, kid, escape)) == SumKid(table, kid, Json(EscapedBytes(escape)))
    decreases kid, 0
  {
    PrintBytes(kid.value, escape);
    var key := if table then Quote(kid.key, escape) + ": " else "";
    Utf8.BytesConcat(key, Print(kid.value, escape));
    if table {
      QuoteBytes(kid.key, escape);
      Utf8.BytesConcat(Quote(kid.key, escape), ": ");
      Utf8.BytesOfAscii(": ");
    }
  }
}
