/**
 * The payload handed to an external hook: a projection, fitted into the total number of bytes,
 * in which no string or key can be read as framing.
 */
module HookPayload {
  import Utf8
  import Ingress
  import opened HookProjection
  import opened HookShrink

  /** Control characters are replaced first, then reserved tags are rewritten. */
  function Cleaner(lex: Ingress.Lexicon): string -> string {
    s => Ingress.Defang(Ingress.ReplaceControls(s), lex)
  }

  ghost function CleanIn(lex: Ingress.Lexicon): string -> bool { s => Ingress.Clean(s, lex) }

  /** Tag names must differ in their first letter from the fixed texts in angle brackets. */
  predicate Distinguished(lex: Ingress.Lexicon) {
    forall tag :: tag in lex.tags ==> tag != [] && tag[0] !in "rmp"
  }

  lemma ReservedNamesDistinguished(lex: Ingress.Lexicon)
    requires lex.tags == Ingress.TAGS
    ensures Distinguished(lex)
  {}

  /** A text whose only bracket is the first character, followed by no tag's first letter. */
  predicate Bracketed(s: string) {
    |s| >= 2 && s[1] in "rmp" && forall n :: 1 <= n < |s| ==> s[n] != '<'
  }

  lemma OnlyOpening(s: string, i: nat, k: nat, lex: Ingress.Lexicon)
    requires Ingress.Valid(lex) && Bracketed(s) && Ingress.Opens(s, i, k, lex)
    ensures i == 0 && k == 1
  {
    assert Ingress.NameChar(s[1]) && lex.fold(s[1]) == s[1];
  }

  lemma NoTagThere(s: string, tag: string, lex: Ingress.Lexicon)
    requires Ingress.Valid(lex) && Distinguished(lex) && Bracketed(s) && tag in lex.tags
    ensures !Ingress.TagAt(s, 1, tag, lex)
  {
    assert Ingress.NameChar(s[1]) && lex.fold(s[1 + 0]) == s[1] != tag[0];
  }

  lemma BracketedIsClean(s: string, lex: Ingress.Lexicon)
    requires Ingress.Valid(lex) && Distinguished(lex) && Bracketed(s)
    ensures Ingress.Clean(s, lex)
  {
    forall i | 0 <= i < |s| ensures !Ingress.MatchAt(s, i, lex) {
      forall k: nat, t: nat | t < |lex.tags| && Ingress.Opens(s, i, k, lex)
        ensures !Ingress.TagAt(s, k, lex.tags[t], lex)
      {
        OnlyOpening(s, i, k, lex);
        NoTagThere(s, lex.tags[t], lex);
      }
    }
  }

  lemma PlainIsClean(s: string, lex: Ingress.Lexicon)
    requires '<' !in s
    ensures Ingress.Clean(s, lex)
  {
    forall i | 0 <= i < |s| ensures !Ingress.MatchAt(s, i, lex) { assert s[i] in s; }
  }

  lemma FixedTextsAreClean(lex: Ingress.Lexicon)
    requires Ingress.Valid(lex) && Distinguished(lex)
    ensures Ingress.Clean(REDACTED, lex) && Ingress.Clean(MAX_DEPTH, lex) && Ingress.Clean("", lex)
    ensures Ingress.Clean("error", lex) && Ingress.Clean("projection_too_large", lex)
    ensures Ingress.Clean("<projection-too-large>", lex)
  {
    BracketedIsClean(REDACTED, lex);
    BracketedIsClean(MAX_DEPTH, lex);
    BracketedIsClean("<projection-too-large>", lex);
    PlainIsClean("error", lex);
    PlainIsClean("projection_too_large", lex);
  }

  /** Cutting and marking a text brings no reserved tag. */
  lemma TruncateIsClean(s: string, limit: nat, lex: Ingress.Lexicon)
    requires Ingress.Clean(s, lex)
    ensures Ingress.Clean(Utf8.Truncate(s, limit), lex)
  {
    if limit < Utf8.Bytes(s) {
      var head := Utf8.Fit(s, if limit < |Utf8.MARKER| then 0 else limit - |Utf8.MARKER|);
      Ingress.CutIsClean(s, |head|, lex);
      Ingress.AppendIsClean(head, Utf8.MARKER, lex);
    }
  }

  /** Whatever the value, after any number of passes no string and no key of the payload holds a
      reserved tag. */
  lemma PayloadHasNoFraming(value: Tree, p: Policy, n: nat, limit: nat, c: Cost, lex: Ingress.Lexicon)
    requires Ingress.Valid(lex) && Distinguished(lex) && p.clean == Cleaner(lex)
    ensures AllTexts(Passes(Sanitize(value, 0, "", p), n, limit, c).tree, CleanIn(lex))
  {
    var ok := CleanIn(lex);
    FixedTextsAreClean(lex);
    forall s, m | ok(s) ensures ok(Utf8.Truncate(s, m)) { TruncateIsClean(s, m, lex); }
    forall s ensures ok(CleanCut(s, p)) {
      Ingress.DefangIsClean(Ingress.ReplaceControls(s), lex);
      TruncateIsClean(p.clean(s), p.stringBytes, lex);
    }
    SanitizeAllTexts(value, 0, "", p, ok);
    PassesTexts(Sanitize(value, 0, "", p), n, limit, c, ok);
  }

  // ---- values that are never finished ----

  function Copies(n: nat, t: Tree): (kids: seq<Kid>)
    ensures |kids| == n && forall i :: 0 <= i < n ==> kids[i] == Kid("", t)
  {
    seq(n, i => Kid("", t))
  }

  /** Lists in lists, each of the given width, around copies of one string. */
  function Nest(levels: nat, width: nat, s: string): Tree {
    if levels == 0 then Text(s) else Node(false, Copies(width, Nest(levels - 1, width, s)))
  }

  function Power(width: nat, levels: nat): nat { if levels == 0 then 1 else width * Power(width, levels - 1) }

  lemma {:induction false} CopiesSum(kids: seq<Kid>, t: Tree, c: Cost)
    requires forall i :: 0 <= i < |kids| ==> kids[i] == Kid("", t)
    ensures |kids| * Sum(t, c) <= SumKids(false, kids, c)
  {
    if kids != [] {
      var n := |kids| - 1;
      CopiesSum(kids[..n], t, c);
      assert SumKid(false, kids[n], c) == Sum(t, c);
      assert |kids| * Sum(t, c) == n * Sum(t, c) + Sum(t, c);
    }
  }

  lemma ScaledUp(width: nat, a: int, b: int)
    requires a <= b
    ensures width * a <= width * b
  {}

  lemma {:induction false} NestIsLarge(levels: nat, width: nat, s: string, esc: char -> nat)
    requires Escapes(esc) && 15 <= Utf8.Bytes(s)
    ensures 17 * Power(width, levels) <= Sum(Nest(levels, width, s), Json(esc))
  {
    if levels == 0 {
      EscapedAtLeastBytes(s, esc);
    } else {
      var t := Nest(levels - 1, width, s);
      NestIsLarge(levels - 1, width, s, esc);
      CopiesSum(Copies(width, t), t, Json(esc));
      ScaledUp(width, 17 * Power(width, levels - 1), Sum(t, Json(esc)));
      assert width * (17 * Power(width, levels - 1)) == 17 * (width * Power(width, levels - 1));
    }
  }

  lemma {:induction false} NestAtMost(levels: nat, width: nat, s: string, n: int)
    requires width > 0
    ensures AtMost(Nest(levels, width, s), n) <==> Utf8.Bytes(s) <= n
  {
    if levels > 0 {
      NestAtMost(levels - 1, width, s, n);
      var kids := Copies(width, Nest(levels - 1, width, s));
      assert kids[0] == Kid("", Nest(levels - 1, width, s));
    }
  }

  /** The sanitiser leaves such a value alone when it is within its limits. */
  lemma {:induction false} NestConforms(levels: nat, width: nat, s: string, depth: nat, p: Policy)
    requires width <= p.maxItems && depth + levels < p.maxDepth && !p.sensitive("") && CleanCut(s, p) == s
    ensures Conforms(Nest(levels, width, s), depth, "", p)
  {
    if levels > 0 {
      NestConforms(levels - 1, width, s, depth + 1, p);
      var kids := Copies(width, Nest(levels - 1, width, s));
      assert forall i :: 0 <= i < |kids| ==> KidConforms(false, kids[i], depth + 1, p);
    }
  }

  /** Values whose payload is never finished: strings of 15 or 16 bytes that cleaning leaves alone, in
      lists within the item and depth limits, together over the byte limit. */
  lemma NestedShortStringsHang(levels: nat, width: nat, s: string, limit: nat, p: Policy, esc: char -> nat)
    requires Escapes(esc) && 15 <= Utf8.Bytes(s) <= 16 && 16 <= p.stringBytes && p.clean(s) == s && !p.sensitive("")
    requires 0 < width <= p.maxItems && 0 < levels < p.maxDepth && limit < 17 * Power(width, levels)
    ensures var t := Nest(levels, width, s);
            Sanitize(t, 0, "", p) == t && Hangs(Sanitize(t, 0, "", p), limit, Json(esc))
  {
    var t := Nest(levels, width, s);
    NestConforms(levels, width, s, 0, p);
    SanitizeFixedIff(t, 0, "", p);
    NestIsLarge(levels, width, s, esc);
    NestAtMost(levels, width, s, 16);
    NestAtMost(levels, width, s, 14);
    ShortStringsHang(t, limit, Json(esc));
  }

  lemma PlainIsUntouched(s: string, lex: Ingress.Lexicon)
    requires Ingress.Valid(lex) && '<' !in s && forall n :: 0 <= n < |s| ==> !Ingress.Control(s[n])
    ensures Cleaner(lex)(s) == s
  {
    assert Ingress.ReplaceControls(s) == s;
    PlainIsClean(s, lex);
    Ingress.DefangChangesIffFound(s, lex);
  }

  lemma MillionEntries()
    ensures Power(100, 3) == 1_000_000
  {
    assert Power(100, 0) == 1 && Power(100, 1) == 100 && Power(100, 2) == 10_000;
  }

  /** With the default limits of 256 KiB, 64 KiB per string, 12 levels and 100 items, three levels of
      lists of 100 around any plain text of 15 or 16 bytes are enough. */
  lemma DefaultLimitsHang(s: string, lex: Ingress.Lexicon, sensitive: string -> bool, esc: char -> nat)
    requires Ingress.Valid(lex) && !sensitive("") && Escapes(esc) && 15 <= Utf8.Bytes(s) <= 16
    requires '<' !in s && forall n :: 0 <= n < |s| ==> !Ingress.Control(s[n])
    ensures var p := Policy(0x1_0000, 12, 100, Cleaner(lex), sensitive);
            Hangs(Sanitize(Nest(3, 100, s), 0, "", p), 0x4_0000, Json(esc))
  {
    PlainIsUntouched(s, lex);
    MillionEntries();
    NestedShortStringsHang(3, 100, s, 0x4_0000, Policy(0x1_0000, 12, 100, Cleaner(lex), sensitive), esc);
  }

  const SIXTEEN: string := "sixteen letters!"

  lemma SixteenIsPlain()
    ensures Utf8.Bytes(SIXTEEN) == 16 && '<' !in SIXTEEN
    ensures forall n :: 0 <= n < |SIXTEEN| ==> !Ingress.Control(SIXTEEN[n])
  {
    Utf8.BytesOfAscii(SIXTEEN);
  }

  // ---- closed instances ----

  /** Bytes of one character inside a JSON string, control characters escaped. */
  function JsonBytes(c: char): nat {
    if c == '"' || c == '\\' then 2
    else if c == '\n' || c == '\r' || c == '\t' || c as int == 8 || c as int == 12 then 2
    else if c as int < 32 then 6
    else Utf8.Width(c)
  }

  function AsciiLexicon(): Ingress.Lexicon {
    Ingress.Lexicon(Ingress.TAGS, Ingress.AsciiFold, Ingress.AsciiSpace, Ingress.AsciiWord)
  }

  function DefaultPolicy(sensitive: string -> bool): Policy {
    Policy(0x1_0000, 12, 100, Cleaner(AsciiLexicon()), sensitive)
  }

  /** Under the default limits and ASCII classes, lists of lists of lists of one text are never finished. */
  lemma SixteenLettersHang(sensitive: string -> bool)
    requires !sensitive("")
    ensures Hangs(Sanitize(Nest(3, 100, SIXTEEN), 0, "", DefaultPolicy(sensitive)), 0x4_0000, Json(JsonBytes))
  {
    Ingress.AsciiIsValid();
    SixteenIsPlain();
    DefaultLimitsHang(SIXTEEN, AsciiLexicon(), sensitive, JsonBytes);
  }

  /** And for every value no string or key of the payload can be read as framing. */
  lemma DefaultPayloadHasNoFraming(value: Tree, sensitive: string -> bool, n: nat)
    ensures AllTexts(Passes(Sanitize(value, 0, "", DefaultPolicy(sensitive)), n, 0x4_0000, Json(JsonBytes)).tree,
                     CleanIn(AsciiLexicon()))
  {
    Ingress.AsciiIsValid();
    ReservedNamesDistinguished(AsciiLexicon());
    PayloadHasNoFraming(value, DefaultPolicy(sensitive), n, 0x4_0000, Json(JsonBytes), AsciiLexicon());
  }
}
