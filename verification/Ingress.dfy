/**
 * Framing of untrusted text before it reaches the model.  Reserved framing tags inside the
 * text are rewritten ("defanged"), control characters are replaced, the text is cut to a
 * size, and the result is wrapped between two delimiters.
 */
module Ingress {
  import opened Wrappers
  import Utf8

  /** The reserved tag names, and the character classes of the regular-expression engine: case
      folding, white space, word characters. */
  datatype Lexicon = Lexicon(tags: seq<string>, fold: char -> char, space: char -> bool, word: char -> bool)

  const LEFT: char := '\U{2039}'
  const RIGHT: char := '\U{203A}'
  const REPLACEMENT: char := '\U{FFFD}'

  const TAGS: seq<string> := ["system-reminder", "tool_output_ref", "hook_input",
                              "untrusted_user_input", "untrusted-data", "transcript"]

  /** The characters that reserved tag names are made of. */
  predicate NameChar(c: char) { 'a' <= c <= 'z' || c == '-' || c == '_' }

  predicate NameLike(tag: string) {
    tag != [] && 'a' <= tag[|tag| - 1] <= 'z' && forall n :: 0 <= n < |tag| ==> NameChar(tag[n])
  }

  predicate Control(c: char) {
    var n := c as int;
    n <= 8 || n == 0x0b || n == 0x0c || 0x0e <= n <= 0x1f || n == 0x7f
  }

  /** A character that no head of a reserved tag can contain, and that ends a word. */
  predicate Inert(c: char, lex: Lexicon) {
    c != '<' && c != '>' && c != '/' && !lex.space(c) && !lex.word(c) && !NameChar(lex.fold(c))
  }

  /** What the proofs need to know about the character classes. */
  ghost predicate Valid(lex: Lexicon) {
    && (forall tag :: tag in lex.tags ==> NameLike(tag))
    && (forall c :: 'a' <= c <= 'z' ==> lex.word(c))
    && (forall c :: NameChar(c) ==> lex.fold(c) == c)
    && Inert(LEFT, lex) && Inert(RIGHT, lex) && Inert(REPLACEMENT, lex)
    && (forall c :: c in "<>/[\n" ==> !lex.word(c) && !NameChar(lex.fold(c)))
    && (forall c :: c in "<>/" ==> !lex.space(c))
    && lex.space('\n')
    && (forall c :: Control(c) ==> !lex.word(c))
    && (forall c :: NameChar(lex.fold(c)) ==> !lex.space(c))
  }

  // ---- the regular expression ----

  predicate Blank(s: string, lo: nat, hi: nat, lex: Lexicon)
    requires hi <= |s|
  {
    forall n :: lo <= n < hi ==> lex.space(s[n])
  }

  predicate WordAt(s: string, k: int, lex: Lexicon) { 0 <= k < |s| && lex.word(s[k]) }

  predicate Boundary(s: string, k: nat, lex: Lexicon) {
    WordAt(s, k - 1, lex) != WordAt(s, k, lex)
  }

  /** One of the alternatives, without regard to case, ending at a word boundary. */
  predicate TagAt(s: string, k: nat, tag: string, lex: Lexicon) {
    && k + |tag| <= |s|
    && (forall n :: 0 <= n < |tag| ==> lex.fold(s[k + n]) == tag[n])
    && Boundary(s, k + |tag|, lex)
  }

  /** An opening bracket at i, an optional slash and white space up to k. */
  predicate Opens(s: string, i: nat, k: nat, lex: Lexicon) {
    && i < k <= |s| && s[i] == '<'
    && (Blank(s, i + 1, k, lex) || (i + 1 < k && s[i + 1] == '/' && Blank(s, i + 2, k, lex)))
  }

  /** The head of a reserved tag starts at i and its name ends at e. */
  ghost predicate Head(s: string, i: nat, e: nat, lex: Lexicon) {
    exists k: nat, t: nat :: t < |lex.tags| && Opens(s, i, k, lex) && TagAt(s, k, lex.tags[t], lex) &&
        e == k + |lex.tags[t]|
  }

  predicate Closes(s: string, e: nat) { exists n :: e <= n < |s| && s[n] == '>' }

  /** The regular expression matches at i. */
  ghost predicate MatchAt(s: string, i: nat, lex: Lexicon) {
    exists e :: Head(s, i, e, lex) && Closes(s, e)
  }

  /** No reserved tag anywhere. */
  ghost predicate Clean(s: string, lex: Lexicon) {
    forall i :: 0 <= i < |s| ==> !MatchAt(s, i, lex)
  }

  // ---- the scanner ----

  function SkipSpace(s: string, k: nat, lex: Lexicon): (r: nat)
    requires k <= |s|
    ensures k <= r <= |s| && Blank(s, k, r, lex)
    ensures r < |s| ==> !lex.space(s[r])
    decreases |s| - k
  {
    if k < |s| && lex.space(s[k]) then SkipSpace(s, k + 1, lex) else k
  }

  function TagIndex(s: string, k: nat, t: nat, lex: Lexicon): (r: Option<nat>)
    requires t <= |lex.tags|
    ensures r.Some? ==> r.value < |lex.tags| && TagAt(s, k, lex.tags[r.value], lex)
    ensures r.None? ==> forall u :: t <= u < |lex.tags| ==> !TagAt(s, k, lex.tags[u], lex)
    decreases |lex.tags| - t
  {
    if t == |lex.tags| then None
    else if TagAt(s, k, lex.tags[t], lex) then Some(t)
    else TagIndex(s, k, t + 1, lex)
  }

  /** First closing bracket at or after e. */
  function FindClose(s: string, e: nat): (r: Option<nat>)
    ensures r.Some? <==> Closes(s, e)
    ensures r.Some? ==> e <= r.value < |s| && s[r.value] == '>' && forall n :: e <= n < r.value ==> s[n] != '>'
    decreases |s| - e
  {
    if |s| <= e then None else if s[e] == '>' then Some(e) else FindClose(s, e + 1)
  }

  /** End (exclusive) of the match that starts at i, if there is one. */
  function Scan(s: string, i: nat, lex: Lexicon): (r: Option<nat>)
    requires i < |s|
    ensures r.Some? ==> i < r.value <= |s| && s[r.value - 1] == '>'
  {
    if s[i] != '<' then None else
    var k := SkipSpace(s, if i + 1 < |s| && s[i + 1] == '/' then i + 2 else i + 1, lex);
    match TagIndex(s, k, 0, lex)
    case None => None
    case Some(t) =>
      match FindClose(s, k + |lex.tags[t]|)
      case None => None
      case Some(n) => Some(n + 1)
  }

  /** The condition on tag names holds of the names the runtime reserves. */
  lemma ReservedNamesQualify(tag: string)
    requires tag in TAGS
    ensures NameLike(tag)
  {
    if tag == TAGS[0] {} else if tag == TAGS[1] {} else if tag == TAGS[2] {}
    else if tag == TAGS[3] {} else if tag == TAGS[4] {} else {}
  }

  /** Inside a tag name there is no bracket, slash or white space. */
  lemma NameHas(s: string, k: nat, t: nat, n: nat, lex: Lexicon)
    requires Valid(lex) && t < |lex.tags| && TagAt(s, k, lex.tags[t], lex) && k <= n < k + |lex.tags[t]|
    ensures NameChar(lex.fold(s[n])) && s[n] != '>' && s[n] != '<' && s[n] != '/' && !lex.space(s[n])
  {
    assert NameLike(lex.tags[t]);
    assert lex.fold(s[k + (n - k)]) == lex.tags[t][n - k];
    assert forall c :: c in "<>/[\n" ==> !NameChar(lex.fold(c));
    assert '<' in "<>/[\n" && '>' in "<>/[\n" && '/' in "<>/[\n";
  }

  lemma SkipSpaceStops(s: string, lo: nat, k: nat, lex: Lexicon)
    requires lo <= k < |s| && Blank(s, lo, k, lex) && !lex.space(s[k])
    ensures SkipSpace(s, lo, lex) == k
    decreases k - lo
  {
  }

  /** The end of the optional slash and white space is determined by the text. */
  lemma OpensUnique(s: string, i: nat, k: nat, t: nat, lex: Lexicon)
    requires Valid(lex) && t < |lex.tags| && Opens(s, i, k, lex) && TagAt(s, k, lex.tags[t], lex)
    ensures k < |s|
    ensures k == SkipSpace(s, if i + 1 < |s| && s[i + 1] == '/' then i + 2 else i + 1, lex)
  {
    assert NameLike(lex.tags[t]);
    NameHas(s, k, t, k, lex);
    if s[i + 1] == '/' {
      assert '/' in "<>/" && !lex.space('/');
      if k == i + 1 { assert false; }
      assert Blank(s, i + 2, k, lex);
      SkipSpaceStops(s, i + 2, k, lex);
    } else {
      SkipSpaceStops(s, i + 1, k, lex);
    }
  }

  lemma MatchIsScanned(s: string, i: nat, lex: Lexicon)
    requires Valid(lex) && i < |s| && MatchAt(s, i, lex)
    ensures Scan(s, i, lex).Some?
  {
    var e: nat :| Head(s, i, e, lex) && Closes(s, e);
    var k: nat, t: nat :| t < |lex.tags| && Opens(s, i, k, lex) && TagAt(s, k, lex.tags[t], lex) &&
        e == k + |lex.tags[t]|;
    OpensUnique(s, i, k, t, lex);
    var n: nat :| e <= n < |s| && s[n] == '>';
    var u := TagIndex(s, k, 0, lex).value;
    if n < k + |lex.tags[u]| { NameHas(s, k, u, n, lex); }
    assert Closes(s, k + |lex.tags[u]|);
  }

  /** A head holds no closing bracket, so its match reaches to the first one after it. */
  lemma HeadHasNoClose(s: string, i: nat, k: nat, t: nat, n: nat, lex: Lexicon)
    requires Valid(lex) && t < |lex.tags| && Opens(s, i, k, lex) && TagAt(s, k, lex.tags[t], lex)
    requires i <= n < k + |lex.tags[t]|
    ensures s[n] != '>'
  {
    if k <= n { NameHas(s, k, t, n, lex); } else { assert '>' in "<>/" && !lex.space('>'); }
  }

  /** The scanner finds a match exactly where the regular expression has one, and the match
      ends with the first closing bracket. */
  lemma ScanIsMatch(s: string, i: nat, lex: Lexicon)
    requires Valid(lex) && i < |s|
    ensures Scan(s, i, lex).Some? <==> MatchAt(s, i, lex)
    ensures Scan(s, i, lex).Some? ==> forall n :: i <= n < Scan(s, i, lex).value - 1 ==> s[n] != '>'
  {
    if MatchAt(s, i, lex) { MatchIsScanned(s, i, lex); }
    if Scan(s, i, lex).Some? {
      var k := SkipSpace(s, if i + 1 < |s| && s[i + 1] == '/' then i + 2 else i + 1, lex);
      assert Opens(s, i, k, lex);
      var t := TagIndex(s, k, 0, lex).value;
      assert Head(s, i, k + |lex.tags[t]|, lex);
      forall n | i <= n < k + |lex.tags[t]| ensures s[n] != '>' { HeadHasNoClose(s, i, k, t, n, lex); }
    }
  }

  // ---- rewriting ----

  /** Both brackets replaced by look-alikes. */
  function Blunt(c: char): char { if c == '<' then LEFT else if c == '>' then RIGHT else c }

  function BluntAll(s: string): (r: string)
    ensures |r| == |s| && forall n :: 0 <= n < |s| ==> r[n] == Blunt(s[n])
  {
    seq(|s|, n requires 0 <= n < |s| => Blunt(s[n]))
  }

  /** Every match from i on, leftmost first and without overlap, is rewritten. */
  function DefangFrom(s: string, i: nat, lex: Lexicon): (r: string)
    requires i <= |s|
    ensures |r| == |s| - i
    decreases |s| - i
  {
    if i == |s| then []
    else match Scan(s, i, lex)
      case None => [s[i]] + DefangFrom(s, i + 1, lex)
      case Some(e) => BluntAll(s[i..e]) + DefangFrom(s, e, lex)
  }

  function Defang(s: string, lex: Lexicon): (r: string)
    ensures |r| == |s|
  {
    DefangFrom(s, 0, lex)
  }

  /** Starts of the matches from i on. */
  function FoundFrom(s: string, i: nat, lex: Lexicon): seq<nat>
    requires i <= |s|
    decreases |s| - i
  {
    if i == |s| then []
    else match Scan(s, i, lex)
      case None => FoundFrom(s, i + 1, lex)
      case Some(e) => [i] + FoundFrom(s, e, lex)
  }

  /** o is s with some characters, none of them part of a word, turned inert. */
  ghost predicate Faded(s: string, o: string, lex: Lexicon) {
    && |o| == |s|
    && forall n :: 0 <= n < |s| ==> o[n] == s[n] || (Inert(o[n], lex) && !lex.word(s[n]))
  }

  lemma FadedWords(s: string, o: string, n: int, lex: Lexicon)
    requires Faded(s, o, lex)
    ensures WordAt(o, n, lex) == WordAt(s, n, lex)
  {
  }

  lemma FadedOpens(s: string, o: string, i: nat, k: nat, lex: Lexicon)
    requires Faded(s, o, lex) && Opens(o, i, k, lex)
    ensures Opens(s, i, k, lex)
  {
    assert forall n :: i <= n < k && (lex.space(o[n]) || o[n] in "</") ==> o[n] == s[n];
  }

  lemma FadedTag(s: string, o: string, k: nat, tag: string, lex: Lexicon)
    requires Faded(s, o, lex) && TagAt(o, k, tag, lex)
    requires NameLike(tag)
    ensures TagAt(s, k, tag, lex)
  {
    forall n | 0 <= n < |tag| ensures lex.fold(s[k + n]) == tag[n] {
      assert lex.fold(o[k + n]) == tag[n];
    }
    FadedWords(s, o, k + |tag| - 1, lex);
    FadedWords(s, o, k + |tag|, lex);
  }

  lemma FadedHead(s: string, o: string, i: nat, e: nat, lex: Lexicon)
    requires Valid(lex) && Faded(s, o, lex) && Head(o, i, e, lex)
    ensures Head(s, i, e, lex)
  {
    var k: nat, t: nat :| t < |lex.tags| && Opens(o, i, k, lex) && TagAt(o, k, lex.tags[t], lex) &&
        e == k + |lex.tags[t]|;
    FadedOpens(s, o, i, k, lex);
    assert NameLike(lex.tags[t]);
    FadedTag(s, o, k, lex.tags[t], lex);
  }

  /** Fading a text creates no match. */
  lemma FadedMatch(s: string, o: string, i: nat, lex: Lexicon)
    requires Valid(lex) && Faded(s, o, lex) && MatchAt(o, i, lex)
    ensures MatchAt(s, i, lex)
  {
    var e: nat :| Head(o, i, e, lex) && Closes(o, e);
    FadedHead(s, o, i, e, lex);
  }

  lemma FadedClean(s: string, o: string, lex: Lexicon)
    requires Valid(lex) && Faded(s, o, lex) && Clean(s, lex)
    ensures Clean(o, lex)
  {
    forall i | 0 <= i < |o| ensures !MatchAt(o, i, lex) {
      if MatchAt(o, i, lex) { FadedMatch(s, o, i, lex); }
    }
  }

  lemma AfterBlunt(head: string, rest: string, n: nat)
    requires n < |head| + |rest|
    ensures (BluntAll(head) + rest)[n] == if n < |head| then Blunt(head[n]) else rest[n - |head|]
  {}

  /** Position n lies in a match: one starts at or before n, with no closing bracket between. */
  ghost predicate Inside(s: string, n: nat, lex: Lexicon)
    requires n < |s|
  {
    exists i: nat :: i <= n && MatchAt(s, i, lex) && !Closes(s[..n], i)
  }

  ghost predicate Result(s: string, n: nat, c: char, lex: Lexicon)
    requires n < |s|
  {
    c == if Inside(s, n, lex) then Blunt(s[n]) else s[n]
  }

  /** No match that starts before i reaches i. */
  ghost predicate Ready(s: string, i: nat, lex: Lexicon)
    requires i <= |s|
  {
    forall j: nat :: j < i && MatchAt(s, j, lex) ==> Closes(s[..i], j)
  }

  lemma ClosesLonger(s: string, i: nat, n: nat, j: nat)
    requires i <= n <= |s| && Closes(s[..i], j)
    ensures Closes(s[..n], j)
  {
    var m :| j <= m < i && s[..i][m] == '>';
    assert s[..n][m] == '>';
  }

  lemma NotInside(s: string, i: nat, lex: Lexicon)
    requires Valid(lex) && i < |s| && Ready(s, i, lex) && Scan(s, i, lex).None?
    ensures !Inside(s, i, lex) && Ready(s, i + 1, lex)
  {
    ScanIsMatch(s, i, lex);
    forall j: nat | j < i + 1 && MatchAt(s, j, lex) ensures Closes(s[..i + 1], j) {
      ClosesLonger(s, i, i + 1, j);
    }
  }

  lemma AllInside(s: string, i: nat, e: nat, lex: Lexicon)
    requires Valid(lex) && i < |s| && Scan(s, i, lex) == Some(e)
    ensures forall n :: i <= n < e ==> Inside(s, n, lex)
  {
    ScanIsMatch(s, i, lex);
    forall n | i <= n < e ensures Inside(s, n, lex) {
      assert !Closes(s[..n], i);
    }
  }

  lemma ReadyAfter(s: string, i: nat, e: nat, lex: Lexicon)
    requires i < |s| && Ready(s, i, lex) && Scan(s, i, lex) == Some(e)
    ensures Ready(s, e, lex)
  {
    forall j: nat | j < e && MatchAt(s, j, lex) ensures Closes(s[..e], j) {
      if j < i { ClosesLonger(s, i, e, j); } else { assert s[..e][e - 1] == '>'; }
    }
  }

  ghost predicate ResultsFrom(s: string, i: nat, o: string, lex: Lexicon)
    requires i <= |s|
  {
    |o| == |s| - i && forall m :: 0 <= m < |o| ==> Result(s, i + m, o[m], lex)
  }

  lemma KeptPass(s: string, i: nat, o: string, rest: string, lex: Lexicon)
    requires i < |s| && o == [s[i]] + rest && Result(s, i, s[i], lex)
    requires ResultsFrom(s, i + 1, rest, lex)
    ensures ResultsFrom(s, i, o, lex)
  {
    forall m | 0 <= m < |o| ensures Result(s, i + m, o[m], lex) {
      if 0 < m { assert o[m] == rest[m - 1] && Result(s, i + 1 + (m - 1), rest[m - 1], lex); }
    }
  }

  lemma CutPass(s: string, i: nat, e: nat, o: string, rest: string, lex: Lexicon)
    requires i < e <= |s| && o == BluntAll(s[i..e]) + rest
    requires forall n :: i <= n < e ==> Inside(s, n, lex)
    requires ResultsFrom(s, e, rest, lex)
    ensures ResultsFrom(s, i, o, lex)
  {
    forall m | 0 <= m < |o| ensures Result(s, i + m, o[m], lex) {
      AfterBlunt(s[i..e], rest, m);
      if e - i <= m { assert Result(s, e + (m - (e - i)), rest[m - (e - i)], lex); }
    }
  }

  lemma {:induction false} DefangFromAt(s: string, i: nat, lex: Lexicon)
    requires Valid(lex) && i <= |s| && Ready(s, i, lex)
    ensures ResultsFrom(s, i, DefangFrom(s, i, lex), lex)
    decreases |s| - i
  {
    if i < |s| {
      var found := Scan(s, i, lex);
      if found.None? {
        NotInside(s, i, lex);
        DefangFromAt(s, i + 1, lex);
        KeptPass(s, i, DefangFrom(s, i, lex), DefangFrom(s, i + 1, lex), lex);
      } else {
        AllInside(s, i, found.value, lex);
        ReadyAfter(s, i, found.value, lex);
        DefangFromAt(s, found.value, lex);
        CutPass(s, i, found.value, DefangFrom(s, i, lex), DefangFrom(s, found.value, lex), lex);
      }
    }
  }

  /** What defanging computes, without the scan: every bracket inside a match becomes its
      look-alike and every other character is kept. */
  lemma DefangExact(s: string, n: nat, lex: Lexicon)
    requires Valid(lex) && n < |s|
    ensures Defang(s, lex)[n] == if Inside(s, n, lex) then Blunt(s[n]) else s[n]
  {
    DefangFromAt(s, 0, lex);
    assert Result(s, 0 + n, DefangFrom(s, 0, lex)[n], lex);
  }

  lemma StartsInside(s: string, n: nat, lex: Lexicon)
    requires n < |s| && MatchAt(s, n, lex)
    ensures Inside(s, n, lex)
  {
    assert !Closes(s[..n], n);
  }

  /** Defanged text keeps its length, only fades, and holds no reserved tag. */
  lemma DefangIsClean(s: string, lex: Lexicon)
    requires Valid(lex)
    ensures Faded(s, Defang(s, lex), lex)
    ensures Clean(Defang(s, lex), lex)
  {
    var o := Defang(s, lex);
    assert '<' in "<>/[\n" && '>' in "<>/[\n";
    forall n | 0 <= n < |s| ensures o[n] == s[n] || (Inert(o[n], lex) && !lex.word(s[n])) {
      DefangExact(s, n, lex);
    }
    forall i | 0 <= i < |o| ensures !MatchAt(o, i, lex) {
      if MatchAt(o, i, lex) {
        FadedMatch(s, o, i, lex);
        StartsInside(s, i, lex);
        DefangExact(s, i, lex);
      }
    }
  }

  lemma {:induction false} CleanFromUntouched(s: string, i: nat, lex: Lexicon)
    requires Valid(lex) && Clean(s, lex) && i <= |s|
    ensures DefangFrom(s, i, lex) == s[i..] && FoundFrom(s, i, lex) == []
    decreases |s| - i
  {
    if i < |s| {
      ScanIsMatch(s, i, lex);
      CleanFromUntouched(s, i + 1, lex);
      assert s[i..] == [s[i]] + s[i + 1..];
    }
  }

  lemma {:induction false} FoundNothingFrom(s: string, i: nat, n: nat, lex: Lexicon)
    requires Valid(lex) && i <= n < |s| && FoundFrom(s, i, lex) == []
    ensures !MatchAt(s, n, lex)
    decreases |s| - i
  {
    ScanIsMatch(s, i, lex);
    if i < n { FoundNothingFrom(s, i + 1, n, lex); }
  }

  /** Defanging changes a text exactly when the search for reserved tags finds one, which is
      exactly when the regular expression matches somewhere. */
  lemma DefangChangesIffFound(s: string, lex: Lexicon)
    requires Valid(lex)
    ensures Defang(s, lex) == s <==> Clean(s, lex)
    ensures FoundFrom(s, 0, lex) == [] <==> Clean(s, lex)
  {
    DefangIsClean(s, lex);
    if Clean(s, lex) {
      CleanFromUntouched(s, 0, lex);
      assert s[0..] == s;
    }
    if FoundFrom(s, 0, lex) == [] {
      forall i | 0 <= i < |s| ensures !MatchAt(s, i, lex) { FoundNothingFrom(s, 0, i, lex); }
    }
  }

  lemma DefangTwice(s: string, lex: Lexicon)
    requires Valid(lex)
    ensures Defang(Defang(s, lex), lex) == Defang(s, lex)
  {
    DefangIsClean(s, lex);
    DefangChangesIffFound(Defang(s, lex), lex);
  }

  // ---- cutting and appending ----

  lemma OpensOfPrefix(a: string, b: string, i: nat, k: nat, lex: Lexicon)
    requires k <= |a|
    ensures Opens(a, i, k, lex) <==> Opens(a + b, i, k, lex)
  {
    var s := a + b;
    assert s[..k] == a[..k];
    assert forall n :: 0 <= n < k ==> s[n] == a[n];
  }

  lemma HeadOfPrefix(a: string, b: string, i: nat, e: nat, lex: Lexicon)
    requires e < |a| || (e == |a| && b != [] && !lex.word(b[0]))
    ensures Head(a, i, e, lex) <==> Head(a + b, i, e, lex)
  {
    var s := a + b;
    assert forall n: nat :: n <= e ==> WordAt(s, n, lex) == WordAt(a, n, lex);
    forall k: nat, t: nat | t < |lex.tags| && e == k + |lex.tags[t]|
      ensures TagAt(s, k, lex.tags[t], lex) == TagAt(a, k, lex.tags[t], lex)
      ensures Opens(s, i, k, lex) == Opens(a, i, k, lex)
    {
      OpensOfPrefix(a, b, i, k, lex);
    }
  }

  /** Text after a match does not undo it, and text without a closing bracket does not make one. */
  lemma MatchOfPrefix(a: string, b: string, i: nat, lex: Lexicon)
    ensures MatchAt(a, i, lex) ==> MatchAt(a + b, i, lex)
    ensures MatchAt(a + b, i, lex) && !Closes(b, 0) ==> MatchAt(a, i, lex)
  {
    var s := a + b;
    if MatchAt(a, i, lex) {
      var e: nat :| Head(a, i, e, lex) && Closes(a, e);
      HeadOfPrefix(a, b, i, e, lex);
      var n :| e <= n < |a| && a[n] == '>';
      assert s[n] == '>';
    }
    if MatchAt(s, i, lex) && !Closes(b, 0) {
      var e: nat :| Head(s, i, e, lex) && Closes(s, e);
      assert forall n :: |a| <= n < |s| ==> s[n] == b[n - |a|];
      var n :| e <= n < |s| && s[n] == '>';
      HeadOfPrefix(a, b, i, e, lex);
      assert a[n] == '>';
    }
  }

  lemma CutIsClean(s: string, n: nat, lex: Lexicon)
    requires n <= |s| && Clean(s, lex)
    ensures Clean(s[..n], lex)
  {
    assert s == s[..n] + s[n..];
    forall i | 0 <= i < n ensures !MatchAt(s[..n], i, lex) { MatchOfPrefix(s[..n], s[n..], i, lex); }
  }

  lemma AppendIsClean(a: string, b: string, lex: Lexicon)
    requires Clean(a, lex) && '<' !in b && '>' !in b
    ensures Clean(a + b, lex)
  {
    forall i | 0 <= i < |a + b| ensures !MatchAt(a + b, i, lex) {
      if i < |a| { MatchOfPrefix(a, b, i, lex); } else { assert (a + b)[i] == b[i - |a|]; }
    }
  }

  function ReplaceControls(s: string): (r: string)
    ensures |r| == |s|
    ensures forall n :: 0 <= n < |s| ==> r[n] == if Control(s[n]) then REPLACEMENT else s[n]
  {
    seq(|s|, n requires 0 <= n < |s| => if Control(s[n]) then REPLACEMENT else s[n])
  }

  lemma ReplaceControlsIsClean(s: string, lex: Lexicon)
    requires Valid(lex) && Clean(s, lex)
    ensures Clean(ReplaceControls(s), lex)
  {
    FadedClean(s, ReplaceControls(s), lex);
  }

  // ---- the body of a context envelope ----

  const CUT_NOTE: string := "\n[... ingress truncated ...]"

  function CutChars(s: string, maxChars: int): string {
    if 0 < maxChars < |s| then s[..maxChars] else s
  }

  function CutBytes(s: string, maxBytes: int): string {
    if 0 < maxBytes < Utf8.Bytes(s) then Utf8.Fit(s, maxBytes) else s
  }

  predicate IsCut(s: string, maxChars: int, maxBytes: int) {
    0 < maxChars < |s| || 0 < maxBytes < Utf8.Bytes(CutChars(s, maxChars))
  }

  function Body(text: string, maxChars: int, maxBytes: int, lex: Lexicon): string {
    var s := ReplaceControls(Defang(text, lex));
    var cut := CutBytes(CutChars(s, maxChars), maxBytes);
    if IsCut(s, maxChars, maxBytes) then cut + CUT_NOTE else cut
  }

  lemma CutsArePrefix(s: string, maxChars: int, maxBytes: int)
    ensures var b := CutBytes(CutChars(s, maxChars), maxBytes);
            && |b| <= |s| && b == s[..|b|]
            && (maxChars > 0 ==> |b| <= maxChars)
            && (maxBytes > 0 ==> Utf8.Bytes(b) <= maxBytes)
            && (IsCut(s, maxChars, maxBytes) <==> |b| < |s|)
  {
    var a := CutChars(s, maxChars);
    assert a == s[..|a|];
    var b := CutBytes(a, maxBytes);
    assert b == a[..|b|] == s[..|b|];
  }

  /** Replacing control characters and both cuts keep the text free of reserved tags; the body
      is a prefix of the cleaned text, within both limits, with the note exactly when cut. */
  lemma BodyIsClean(text: string, maxChars: int, maxBytes: int, lex: Lexicon)
    requires Valid(lex)
    ensures Clean(Body(text, maxChars, maxBytes, lex), lex)
    ensures var s := ReplaceControls(Defang(text, lex));
            exists n: nat :: n <= |s|
              && (maxChars > 0 ==> n <= maxChars)
              && (maxBytes > 0 ==> Utf8.Bytes(s[..n]) <= maxBytes)
              && Body(text, maxChars, maxBytes, lex) == s[..n] + (if n < |s| then CUT_NOTE else [])
  {
    var s := ReplaceControls(Defang(text, lex));
    DefangIsClean(text, lex);
    ReplaceControlsIsClean(Defang(text, lex), lex);
    var b := CutBytes(CutChars(s, maxChars), maxBytes);
    CutsArePrefix(s, maxChars, maxBytes);
    CutIsClean(s, |b|, lex);
    AppendIsClean(b, CUT_NOTE, lex);
    assert b + [] == b;
  }

  // ---- envelopes ----

  /** Where a text came from, as named in its envelope. */
  const SOURCES: seq<string> := ["initial", "between_turn", "midturn", "scheduler", "resume_continuation",
                                 "hook_context", "plugin_notification", "background_task", "memory_recall",
                                 "capability_discovery", "compression_input"]

  lemma SourceNamesQualify(k: nat)
    requires k < |SOURCES|
    ensures NameLike(SOURCES[k])
  {
    if k < 6 { EarlySourceNames(k); } else { LateSourceNames(k); }
  }

  lemma EarlySourceNames(k: nat)
    requires k < 6
    ensures NameLike(SOURCES[k])
  {
    if k == 0 {} else if k == 1 {} else if k == 2 {} else if k == 3 {} else if k == 4 {} else {}
  }

  lemma LateSourceNames(k: nat)
    requires 6 <= k < 11
    ensures NameLike(SOURCES[k])
  {
    if k == 6 {} else if k == 7 {} else if k == 8 {} else if k == 9 {} else {}
  }

  function Opener(tag: string, source: string): string {
    "<" + tag + " source=\"" + source + "\">"
  }

  function Closer(tag: string): string { "</" + tag + ">" }

  function Wrap(tag: string, source: string, body: string): string {
    Opener(tag, source) + "\n" + body + "\n" + Closer(tag)
  }

  predicate OccursAt(text: string, p: nat, d: string) {
    p + |d| <= |text| && text[p..p + |d|] == d
  }

  lemma OccursChar(text: string, p: nat, d: string, n: nat)
    requires OccursAt(text, p, d) && n < |d|
    ensures text[p + n] == d[n]
  {
    assert text[p..p + |d|][n] == d[n];
  }

  lemma OccursStart(text: string, p: nat, d: string)
    requires OccursAt(text, p, d) && |d| >= 2
    ensures text[p] == d[0] && text[p + 1] == d[1]
  {
    assert text[p..p + |d|][0] == d[0] && text[p..p + |d|][1] == d[1];
  }

  lemma CloserNamesTag(text: string, p: nat, tag: string, lex: Lexicon)
    requires Valid(lex) && NameLike(tag) && OccursAt(text, p, Closer(tag))
    ensures TagAt(text, p + 2, tag, lex) && text[p + 2 + |tag|] == '>'
  {
    var d := Closer(tag);
    var k := p + 2;
    forall n | 0 <= n < |tag| ensures text[k + n] == tag[n] { OccursChar(text, p, d, n + 2); }
    OccursChar(text, p, d, |tag| + 2);
    assert text[k + (|tag| - 1)] == tag[|tag| - 1];
    assert '>' in "<>/[\n";
    assert Boundary(text, k + |tag|, lex);
  }

  /** A literal closing delimiter is itself a match. */
  lemma CloserMatches(text: string, p: nat, tag: string, lex: Lexicon)
    requires Valid(lex) && tag in lex.tags && OccursAt(text, p, Closer(tag))
    ensures MatchAt(text, p, lex)
  {
    assert NameLike(tag);
    CloserNamesTag(text, p, tag, lex);
    OccursStart(text, p, Closer(tag));
    assert Opens(text, p, p + 2, lex);
    var t: nat :| t < |lex.tags| && lex.tags[t] == tag;
    assert TagAt(text, p + 2, lex.tags[t], lex);
    assert Head(text, p, p + 2 + |tag|, lex);
  }

  /** With a body that does not hold the delimiter, only the last delimiter is left. */
  lemma LastDelimiterOnly(header: string, body: string, d: string, p: nat)
    requires |header| >= 2 && header[1] != '/' && forall n :: 1 <= n < |header| ==> header[n] != '<'
    requires |d| >= 2 && d[0] == '<' && d[1] == '/' && forall n :: 1 <= n < |d| ==> d[n] != '\n'
    requires forall q: nat :: !OccursAt(body, q, d)
    ensures OccursAt(header + body + "\n" + d, p, d) <==> p == |header| + |body| + 1
  {
    var text := header + body + "\n" + d;
    var end := |header| + |body|;
    assert text[end] == '\n' && text[end + 1..] == d;
    assert forall n :: 0 <= n < |header| ==> text[n] == header[n];
    if p == end + 1 {
      assert text[p..p + |d|] == d;
    } else if p < |header| {
      if OccursAt(text, p, d) { OccursStart(text, p, d); }
    } else if p + |d| <= end {
      assert body[p - |header|..p - |header| + |d|] == text[p..p + |d|];
      assert !OccursAt(body, p - |header|, d);
    } else if p <= end {
      if OccursAt(text, p, d) { OccursChar(text, p, d, end - p); }
    }
  }

  function FirstOccurrence(text: string, p: nat, d: string): (r: nat)
    requires p <= |text|
    ensures p <= r <= |text|
    ensures r < |text| ==> OccursAt(text, r, d)
    ensures forall q :: p <= q < r ==> !OccursAt(text, q, d)
    decreases |text| - p
  {
    if p == |text| || OccursAt(text, p, d) then p else FirstOccurrence(text, p + 1, d)
  }

  /** Reading an envelope back: from the end of its first line to its first closing delimiter. */
  function Unwrap(text: string, tag: string): string {
    var start := FirstOccurrence(text, 0, "\n");
    var stop := FirstOccurrence(text, 0, Closer(tag));
    if start < stop - 1 < |text| then text[start + 1..stop - 1] else ""
  }

  predicate Plain(s: string) { '<' !in s && '\n' !in s }

  function Inner(tag: string, source: string): string { tag + (" source=\"" + (source + "\">")) }

  lemma InnerIsPlain(tag: string, source: string)
    requires NameLike(tag) && NameLike(source)
    ensures Plain(Inner(tag, source)) && Opener(tag, source) == "<" + Inner(tag, source)
  {
    assert Plain(tag) && Plain(source) && Plain(" source=\"") && Plain("\">");
  }

  lemma HeaderShape(inner: string)
    requires inner != [] && inner[0] != '/' && Plain(inner)
    ensures var header := "<" + inner + "\n";
            && |header| >= 2 && header[1] != '/' && header[|header| - 1] == '\n'
            && (forall n :: 1 <= n < |header| ==> header[n] != '<')
            && (forall n :: 0 <= n < |header| - 1 ==> header[n] != '\n')
  {
  }

  lemma CloserShape(tag: string)
    requires NameLike(tag)
    ensures var d := Closer(tag);
            |d| >= 2 && d[0] == '<' && d[1] == '/' && forall n :: 1 <= n < |d| ==> d[n] != '\n'
  {}

  /** In an envelope around a body without reserved tags, the closing delimiter occurs once,
      at the end: nothing in the body closes the envelope early. */
  lemma EnvelopeClosesOnce(tag: string, source: string, body: string, p: nat, lex: Lexicon)
    requires Valid(lex) && tag in lex.tags && NameLike(source) && Clean(body, lex)
    ensures var text := Wrap(tag, source, body);
            OccursAt(text, p, Closer(tag)) <==> p == |text| - |Closer(tag)|
  {
    assert NameLike(tag);
    InnerIsPlain(tag, source);
    HeaderShape(Inner(tag, source));
    CloserShape(tag);
    forall q: nat ensures !OccursAt(body, q, Closer(tag)) {
      if OccursAt(body, q, Closer(tag)) {
        CloserMatches(body, q, tag, lex);
        assert false;
      }
    }
    var header := Opener(tag, source) + "\n";
    LastDelimiterOnly(header, body, Closer(tag), p);
    assert Wrap(tag, source, body) == header + body + "\n" + Closer(tag);
  }

  lemma FirstOccurrenceIs(text: string, p: nat, d: string, r: nat)
    requires p <= r < |text| && OccursAt(text, r, d)
    requires forall q :: p <= q < r ==> !OccursAt(text, q, d)
    ensures FirstOccurrence(text, p, d) == r
    decreases r - p
  {
  }

  lemma LineBreakAt(text: string, q: nat)
    ensures OccursAt(text, q, "\n") <==> q < |text| && text[q] == '\n'
  {
    if q < |text| { assert text[q..q + 1] == [text[q]]; }
  }

  /** The first line break of an envelope ends its opening delimiter. */
  lemma FirstLineEnds(header: string, rest: string)
    requires header != [] && header[|header| - 1] == '\n'
    requires forall n :: 0 <= n < |header| - 1 ==> header[n] != '\n'
    ensures FirstOccurrence(header + rest, 0, "\n") == |header| - 1
  {
    var text := header + rest;
    forall q: nat ensures OccursAt(text, q, "\n") <==> q < |text| && text[q] == '\n' { LineBreakAt(text, q); }
    FirstOccurrenceIs(text, 0, "\n", |header| - 1);
  }

  lemma UnwrapParts(header: string, body: string, tag: string)
    requires header != [] && header[|header| - 1] == '\n'
    requires forall n :: 0 <= n < |header| - 1 ==> header[n] != '\n'
    requires var text := header + body + "\n" + Closer(tag);
             forall q: nat :: OccursAt(text, q, Closer(tag)) <==> q == |header| + |body| + 1
    ensures Unwrap(header + body + "\n" + Closer(tag), tag) == body
  {
    var d := Closer(tag);
    var text := header + body + "\n" + d;
    var r := |header| + |body| + 1;
    FirstOccurrenceIs(text, 0, d, r);
    assert text == header + (body + "\n" + d);
    FirstLineEnds(header, body + "\n" + d);
    assert text[|header|..r - 1] == body;
  }

  /** The body of an envelope is recovered exactly. */
  lemma UnwrapWrap(tag: string, source: string, body: string, lex: Lexicon)
    requires Valid(lex) && tag in lex.tags && NameLike(source) && Clean(body, lex)
    ensures Unwrap(Wrap(tag, source, body), tag) == body
  {
    var text := Wrap(tag, source, body);
    var header := Opener(tag, source) + "\n";
    assert text == header + body + "\n" + Closer(tag);
    forall q: nat ensures OccursAt(text, q, Closer(tag)) <==> q == |header| + |body| + 1 {
      EnvelopeClosesOnce(tag, source, body, q, lex);
    }
    assert NameLike(tag);
    InnerIsPlain(tag, source);
    HeaderShape(Inner(tag, source));
    UnwrapParts(header, body, tag);
  }

  // ---- what the regular expression sees in an envelope ----

  lemma TagShift(h: string, s: string, k: nat, tag: string, lex: Lexicon)
    requires k > 0
    ensures TagAt(h + s, |h| + k, tag, lex) <==> TagAt(s, k, tag, lex)
  {
    var text := h + s;
    assert forall n: nat :: WordAt(text, |h| + n, lex) == WordAt(s, n, lex);
    assert forall n :: 0 <= n < |s| ==> text[|h| + n] == s[n];
    assert WordAt(text, |h| + (k + |tag| - 1), lex) == WordAt(s, k + |tag| - 1, lex);
    assert WordAt(text, |h| + (k + |tag|), lex) == WordAt(s, k + |tag|, lex);
    if k + |tag| <= |s| {
      forall n | 0 <= n < |tag|
        ensures lex.fold(text[|h| + k + n]) == tag[n] <==> lex.fold(s[k + n]) == tag[n]
      {
        assert text[|h| + (k + n)] == s[k + n];
      }
    }
  }

  lemma BlankShift(h: string, s: string, lo: nat, hi: nat, lex: Lexicon)
    requires hi <= |s|
    ensures Blank(h + s, |h| + lo, |h| + hi, lex) <==> Blank(s, lo, hi, lex)
  {
    var text := h + s;
    assert forall n :: 0 <= n < |s| ==> text[|h| + n] == s[n];
    if Blank(text, |h| + lo, |h| + hi, lex) {
      forall n | lo <= n < hi ensures lex.space(s[n]) { assert lex.space(text[|h| + n]); }
    }
  }

  lemma OpensShift(h: string, s: string, i: nat, k: nat, lex: Lexicon)
    ensures Opens(h + s, |h| + i, |h| + k, lex) <==> Opens(s, i, k, lex)
  {
    if i < k <= |s| {
      BlankShift(h, s, i + 1, k, lex);
      BlankShift(h, s, i + 2, k, lex);
      assert (h + s)[|h| + i] == s[i];
      if i + 1 < k { assert (h + s)[|h| + (i + 1)] == s[i + 1]; }
    }
  }

  lemma HeadShift(h: string, s: string, i: nat, e: nat, lex: Lexicon)
    ensures Head(h + s, |h| + i, |h| + e, lex) <==> Head(s, i, e, lex)
  {
    var text := h + s;
    if Head(text, |h| + i, |h| + e, lex) {
      var k: nat, t: nat :| t < |lex.tags| && Opens(text, |h| + i, k, lex) && TagAt(text, k, lex.tags[t], lex)
        && |h| + e == k + |lex.tags[t]|;
      OpensShift(h, s, i, k - |h|, lex);
      TagShift(h, s, k - |h|, lex.tags[t], lex);
    }
    if Head(s, i, e, lex) {
      var k: nat, t: nat :| t < |lex.tags| && Opens(s, i, k, lex) && TagAt(s, k, lex.tags[t], lex)
        && e == k + |lex.tags[t]|;
      OpensShift(h, s, i, k, lex);
      TagShift(h, s, k, lex.tags[t], lex);
    }
  }

  /** A head cannot run across a line break that is followed by a bracket. */
  lemma HeadStopsAtBreak(body: string, d: string, i: nat, e: nat, lex: Lexicon)
    requires Valid(lex) && i < |body| && d != [] && d[0] == '<'
    requires Head(body + ("\n" + d), i, e, lex)
    ensures e <= |body|
  {
    var text := body + ("\n" + d);
    var end := |body|;
    assert text[end] == '\n' && text[end + 1] == '<';
    assert '\n' in "<>/[\n" && '<' in "<>/[\n" && '<' in "<>/";
    var k: nat, t: nat :| t < |lex.tags| && Opens(text, i, k, lex) && TagAt(text, k, lex.tags[t], lex)
      && e == k + |lex.tags[t]|;
    assert k <= end + 1;
    if end < e {
      if k <= end { NameHas(text, k, t, end, lex); } else {
        assert NameLike(lex.tags[t]);
        NameHas(text, k, t, end + 1, lex);
      }
    }
  }

  /** Heads in the body are heads of the text around it, at the shifted place. */
  lemma HeadInFrame(header: string, body: string, d: string, i: nat, e: nat, lex: Lexicon)
    requires Valid(lex) && i < |body| && d != [] && d[0] == '<'
    ensures Head(header + (body + ("\n" + d)), |header| + i, |header| + e, lex) <==> Head(body, i, e, lex)
  {
    var rest := "\n" + d;
    HeadShift(header, body + rest, i, e, lex);
    assert rest[0] == '\n' && '\n' in "<>/[\n";
    if Head(body + rest, i, e, lex) { HeadStopsAtBreak(body, d, i, e, lex); }
    if e <= |body| { HeadOfPrefix(body, rest, i, e, lex); }
  }

  lemma HeadEndsLater(s: string, i: nat, e: nat, lex: Lexicon)
    requires Head(s, i, e, lex)
    ensures i <= e <= |s|
  {}

  lemma FrameMatchHasHead(header: string, body: string, d: string, i: nat, lex: Lexicon)
    requires Valid(lex) && i < |body| && d != [] && d[0] == '<'
    requires MatchAt(header + (body + ("\n" + d)), |header| + i, lex)
    ensures exists e: nat :: Head(body, i, e, lex)
  {
    var text := header + (body + ("\n" + d));
    var e: nat :| Head(text, |header| + i, e, lex) && Closes(text, e);
    HeadEndsLater(text, |header| + i, e, lex);
    HeadInFrame(header, body, d, i, e - |header|, lex);
  }

  lemma FrameClosesHead(header: string, body: string, d: string, i: nat, e: nat, lex: Lexicon)
    requires Valid(lex) && i < |body| && d != [] && d[0] == '<' && d[|d| - 1] == '>'
    requires Head(body, i, e, lex)
    ensures MatchAt(header + (body + ("\n" + d)), |header| + i, lex)
  {
    var text := header + (body + ("\n" + d));
    HeadInFrame(header, body, d, i, e, lex);
    HeadEndsLater(body, i, e, lex);
    assert text[|text| - 1] == '>' && |header| + e <= |text| - 1;
    assert Closes(text, |header| + e);
  }

  lemma FrameMatchIff(header: string, body: string, d: string, i: nat, lex: Lexicon)
    requires Valid(lex) && i < |body| && d != [] && d[0] == '<' && d[|d| - 1] == '>'
    ensures MatchAt(header + (body + ("\n" + d)), |header| + i, lex) <==> exists e: nat :: Head(body, i, e, lex)
  {
    if MatchAt(header + (body + ("\n" + d)), |header| + i, lex) { FrameMatchHasHead(header, body, d, i, lex); }
    if e: nat :| Head(body, i, e, lex) { FrameClosesHead(header, body, d, i, e, lex); }
  }

  /** The expression matches at a place of the body of an envelope exactly when the head of a
      reserved tag stands there: a head the body leaves unclosed is closed by the delimiter. */
  lemma StrayMatchIffUnclosedHead(tag: string, source: string, body: string, i: nat, lex: Lexicon)
    requires Valid(lex) && i < |body|
    ensures MatchAt(Wrap(tag, source, body), |Opener(tag, source)| + 1 + i, lex) <==>
            exists e: nat :: Head(body, i, e, lex)
  {
    var header := Opener(tag, source) + "\n";
    assert Wrap(tag, source, body) == header + (body + ("\n" + Closer(tag)));
    FrameMatchIff(header, body, Closer(tag), i, lex);
  }

  /** A body that ends in the head of a reserved tag holds no match, and still the expression matches there
      in its envelope, up to the closing delimiter. */
  lemma UnclosedTagMatches(tag: string, source: string, name: string, lex: Lexicon)
    requires Valid(lex) && name in lex.tags
    ensures Clean("<" + name, lex)
    ensures MatchAt(Wrap(tag, source, "<" + name), |Opener(tag, source)| + 1, lex)
  {
    var body := "<" + name;
    assert NameLike(name);
    forall i | 0 <= i < |body| ensures !MatchAt(body, i, lex) {
      assert '>' !in body;
    }
    var t: nat :| t < |lex.tags| && lex.tags[t] == name;
    assert body[0] == '<' && Opens(body, 0, 1, lex);
    LastTag(body, name, lex);
    assert Head(body, 0, |body|, lex);
    StrayMatchIffUnclosedHead(tag, source, body, 0, lex);
  }

  lemma LastTag(body: string, name: string, lex: Lexicon)
    requires Valid(lex) && NameLike(name) && body == "<" + name
    ensures TagAt(body, 1, name, lex)
  {
    forall n | 0 <= n < |name| ensures lex.fold(body[1 + n]) == name[n] { assert body[1 + n] == name[n]; }
    LetterEndsText(body, lex);
  }

  lemma LetterEndsText(body: string, lex: Lexicon)
    requires Valid(lex) && body != [] && 'a' <= body[|body| - 1] <= 'z'
    ensures Boundary(body, |body|, lex)
  {}

  /** So for `<transcript`. */
  lemma TranscriptMatches(tag: string, source: string, lex: Lexicon)
    requires Valid(lex) && "transcript" in lex.tags
    ensures Clean("<" + "transcript", lex)
    ensures MatchAt(Wrap(tag, source, "<" + "transcript"), |Opener(tag, source)| + 1, lex)
  {
    UnclosedTagMatches(tag, source, "transcript", lex);
  }

  // ---- the two canonical forms ----

  datatype Envelope = Envelope(source: string, text: string, originalChars: nat, canonicalBytes: nat,
    neutralized: bool, truncated: bool, hooksApplied: bool, mayGrantPermissions: bool)

  const USER_TAG: string := "untrusted_user_input"
  const DATA_TAG: string := "untrusted-data"

  function CanonicalPrompt(text: string, source: string, hooksApplied: bool, alreadyNeutralized: bool,
    lex: Lexicon): Envelope
  {
    var tagged := !alreadyNeutralized && FoundFrom(text, 0, lex) != [];
    var canonical := if tagged then Wrap(USER_TAG, source, Defang(text, lex)) else text;
    Envelope(source, canonical, |text|, Utf8.Bytes(canonical), alreadyNeutralized || tagged, false,
      hooksApplied, false)
  }

  function CanonicalContext(text: string, source: string, maxChars: int, maxBytes: int, lex: Lexicon): Envelope {
    var body := Body(text, maxChars, maxBytes, lex);
    var canonical := Wrap(DATA_TAG, source, body);
    Envelope(source, canonical, |text|, Utf8.Bytes(canonical), body != text,
      IsCut(ReplaceControls(Defang(text, lex)), maxChars, maxBytes), false, false)
  }

  /** A user prompt without reserved tags goes through as it is.  One with a reserved tag is
      wrapped, closes once, and gives back its defanged text. */
  lemma CanonicalPromptSafe(text: string, source: string, hooksApplied: bool, lex: Lexicon)
    requires Valid(lex) && USER_TAG in lex.tags && NameLike(source)
    ensures var envelope := CanonicalPrompt(text, source, hooksApplied, false, lex);
            && (envelope.neutralized <==> !Clean(text, lex))
            && (Clean(text, lex) ==> envelope.text == text)
            && (!Clean(text, lex) ==>
                 && Unwrap(envelope.text, USER_TAG) == Defang(text, lex) != text
                 && forall p: nat :: OccursAt(envelope.text, p, Closer(USER_TAG)) ==>
                      p == |envelope.text| - |Closer(USER_TAG)|)
            && !envelope.mayGrantPermissions
  {
    DefangChangesIffFound(text, lex);
    if !Clean(text, lex) {
      DefangIsClean(text, lex);
      var body := Defang(text, lex);
      UnwrapWrap(USER_TAG, source, body, lex);
      forall p: nat | OccursAt(Wrap(USER_TAG, source, body), p, Closer(USER_TAG))
        ensures p == |Wrap(USER_TAG, source, body)| - |Closer(USER_TAG)|
      {
        EnvelopeClosesOnce(USER_TAG, source, body, p, lex);
      }
    }
  }

  /** Every context envelope closes once and gives back its body, whatever the text. */
  lemma CanonicalContextSafe(text: string, source: string, maxChars: int, maxBytes: int, p: nat, lex: Lexicon)
    requires Valid(lex) && DATA_TAG in lex.tags && NameLike(source)
    ensures var envelope := CanonicalContext(text, source, maxChars, maxBytes, lex);
            && Unwrap(envelope.text, DATA_TAG) == Body(text, maxChars, maxBytes, lex)
            && (OccursAt(envelope.text, p, Closer(DATA_TAG)) <==> p == |envelope.text| - |Closer(DATA_TAG)|)
            && !envelope.mayGrantPermissions
  {
    BodyIsClean(text, maxChars, maxBytes, lex);
    UnwrapWrap(DATA_TAG, source, Body(text, maxChars, maxBytes, lex), lex);
    EnvelopeClosesOnce(DATA_TAG, source, Body(text, maxChars, maxBytes, lex), p, lex);
  }

  lemma CleanedUnchangedIff(text: string, lex: Lexicon)
    requires Valid(lex)
    ensures ReplaceControls(Defang(text, lex)) == text <==>
            Clean(text, lex) && forall n :: 0 <= n < |text| ==> !Control(text[n])
  {
    var o := Defang(text, lex);
    DefangChangesIffFound(text, lex);
    if ReplaceControls(o) == text {
      forall n | 0 <= n < |text| ensures o[n] == text[n] && !Control(text[n]) {
        DefangExact(text, n, lex);
        assert ReplaceControls(o)[n] == text[n];
      }
      assert o == text;
    }
  }

  /** Neither flag is raised exactly when the text needed nothing: no reserved tag, no control
      character, and within both limits. */
  lemma ContextUntouchedIff(text: string, source: string, maxChars: int, maxBytes: int, lex: Lexicon)
    requires Valid(lex)
    ensures var envelope := CanonicalContext(text, source, maxChars, maxBytes, lex);
            (!envelope.neutralized && !envelope.truncated <==>
              && Clean(text, lex)
              && (forall n :: 0 <= n < |text| ==> !Control(text[n]))
              && !(0 < maxChars < |text|) && !(0 < maxBytes < Utf8.Bytes(text)))
  {
    var s := ReplaceControls(Defang(text, lex));
    CleanedUnchangedIff(text, lex);
    CutsArePrefix(s, maxChars, maxBytes);
    if s == text { assert CutChars(s, maxChars) == if 0 < maxChars < |s| then s[..maxChars] else s; }
  }

  function BothCuts(s: string, maxChars: int, maxBytes: int): string { CutBytes(CutChars(s, maxChars), maxBytes) }

  lemma NoteIsPlain(k: nat)
    requires k < |CUT_NOTE|
    ensures CUT_NOTE[k] != '<' && CUT_NOTE[k] != '>' && !Control(CUT_NOTE[k])
  {}

  /** A character that cleaning gives back as it was. */
  lemma CleanedAt(text: string, k: nat, lex: Lexicon)
    requires Valid(lex) && k < |text|
    ensures ReplaceControls(Defang(text, lex))[k] == text[k] ==> !Control(text[k]) && Defang(text, lex)[k] == text[k]
    ensures text[k] != '<' && text[k] != '>' && !Control(text[k]) ==> ReplaceControls(Defang(text, lex))[k] == text[k]
  {
    DefangExact(text, k, lex);
  }

  lemma NoteEndsUntouched(text: string, n: nat, lex: Lexicon)
    requires Valid(lex) && n <= |text| && text[n..] == CUT_NOTE
    requires ReplaceControls(Defang(text, lex))[..n] == text[..n]
    ensures ReplaceControls(Defang(text, lex)) == text
  {
    var s := ReplaceControls(Defang(text, lex));
    forall k | 0 <= k < |text| ensures s[k] == text[k] {
      if k < n {
        assert s[..n][k] == text[..n][k];
      } else {
        assert text[k] == text[n..][k - n];
        NoteIsPlain(k - n);
        CleanedAt(text, k, lex);
      }
    }
  }

  /** The first flag alone does not say so: a text is truncated and yet reported as not changed if and
      only if it needed no cleaning, is cut, and what the cuts take away is the note itself. */
  lemma CutBackToItselfIff(text: string, source: string, maxChars: int, maxBytes: int, lex: Lexicon)
    requires Valid(lex)
    ensures var envelope := CanonicalContext(text, source, maxChars, maxBytes, lex);
            (envelope.truncated && !envelope.neutralized <==>
              && Clean(text, lex) && (forall n :: 0 <= n < |text| ==> !Control(text[n]))
              && IsCut(text, maxChars, maxBytes)
              && |BothCuts(text, maxChars, maxBytes)| <= |text|
              && text[|BothCuts(text, maxChars, maxBytes)|..] == CUT_NOTE)
  {
    var s := ReplaceControls(Defang(text, lex));
    CleanedUnchangedIff(text, lex);
    CutsArePrefix(text, maxChars, maxBytes);
    if IsCut(s, maxChars, maxBytes) && Body(text, maxChars, maxBytes, lex) == text {
      CutBackNeedsNoCleaning(text, maxChars, maxBytes, lex);
    }
    if s == text && IsCut(text, maxChars, maxBytes) { CutBackGivesNote(text, BothCuts(text, maxChars, maxBytes)); }
  }

  lemma CutBackNeedsNoCleaning(text: string, maxChars: int, maxBytes: int, lex: Lexicon)
    requires Valid(lex) && Body(text, maxChars, maxBytes, lex) == text
    requires IsCut(ReplaceControls(Defang(text, lex)), maxChars, maxBytes)
    ensures ReplaceControls(Defang(text, lex)) == text
  {
    var s := ReplaceControls(Defang(text, lex));
    CutsArePrefix(s, maxChars, maxBytes);
    var cut := BothCuts(s, maxChars, maxBytes);
    assert text == cut + CUT_NOTE;
    assert text[..|cut|] == cut && text[|cut|..] == CUT_NOTE;
    NoteEndsUntouched(text, |cut|, lex);
  }

  lemma CutBackGivesNote(text: string, cut: string)
    requires |cut| <= |text| && cut == text[..|cut|]
    ensures cut + CUT_NOTE == text <==> text[|cut|..] == CUT_NOTE
  {
    assert text == cut + text[|cut|..];
    assert (cut + CUT_NOTE)[|cut|..] == CUT_NOTE;
  }

  /** So it is for any clean text that ends with the note, cut where the note starts. */
  lemma CutBackToItself(text: string, x: string, source: string, lex: Lexicon)
    requires Valid(lex) && x != [] && text == x + CUT_NOTE && Clean(text, lex)
    requires forall n :: 0 <= n < |text| ==> !Control(text[n])
    ensures var envelope := CanonicalContext(text, source, |x|, 0, lex);
            envelope.truncated && !envelope.neutralized
  {
    CleanedUnchangedIff(text, lex);
    assert text[..|x|] == x;
  }

  // ---- instances ----

  function AsciiFold(c: char): char { if 'A' <= c <= 'Z' then c + ' ' else c }
  predicate AsciiSpace(c: char) { '\t' <= c <= '\r' || '\U{1C}' <= c <= '\U{1F}' || c == ' ' }
  predicate AsciiWord(c: char) { 'a' <= c <= 'z' || 'A' <= c <= 'Z' || '0' <= c <= '9' || c == '_' }

  /** Classes that are the usual ones on ASCII, take the look-alike brackets and the replacement
      character for neither letters nor spaces, and whatever folds to a letter for no space: as the
      Unicode classes do. */
  ghost predicate ExtendsAscii(lex: Lexicon) {
    && (forall c :: c as int < 0x80 ==>
          lex.fold(c) == AsciiFold(c) && lex.space(c) == AsciiSpace(c) && lex.word(c) == AsciiWord(c))
    && (forall c :: c == LEFT || c == RIGHT || c == REPLACEMENT ==> lex.fold(c) == c && !lex.space(c) && !lex.word(c))
    && (forall c :: NameChar(lex.fold(c)) ==> !lex.space(c))
  }

  /** The assumptions hold of the reserved names under any such classes. */
  lemma AsciiExtensionIsValid(lex: Lexicon)
    requires lex.tags == TAGS && ExtendsAscii(lex)
    ensures Valid(lex) && USER_TAG in lex.tags && DATA_TAG in lex.tags
  {
    assert TAGS[3] == USER_TAG && TAGS[4] == DATA_TAG;
    forall tag | tag in TAGS ensures NameLike(tag) { ReservedNamesQualify(tag); }
  }

  /** There are such classes. */
  lemma AsciiIsValid()
    ensures Valid(Lexicon(TAGS, AsciiFold, AsciiSpace, AsciiWord))
  {
    AsciiExtensionIsValid(Lexicon(TAGS, AsciiFold, AsciiSpace, AsciiWord));
  }
}
