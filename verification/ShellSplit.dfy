/**
 * Splitting a command line into sub-commands at the operators && || | ; and line break, outside
 * quotes.
 */
module ShellSplit {
  import opened Wrappers

  /** The quote that is open after one more character. */
  function Quoted(q: Option<char>, c: char): Option<char> {
    if q.Some? then (if c == q.value then None else q)
    else if c == '\'' || c == '"' then Some(c) else None
  }

  function QuotedAfter(q: Option<char>, s: string): Option<char>
    decreases |s|
  {
    if s == [] then q else QuotedAfter(Quoted(q, s[0]), s[1..])
  }

  /** Length of the operator at the start of s, 0 when there is none. */
  function Operator(s: string): (n: nat)
    ensures n <= 2 && n <= |s|
    ensures n > 0 ==> s[0] in "&|;\n"
  {
    if |s| >= 2 && (s[..2] == "&&" || s[..2] == "||") then 2
    else if s != [] && (s[0] == '|' || s[0] == ';' || s[0] == '\n') then 1
    else 0
  }

  /** The pieces of s between operators; buf is the part of the first piece already read. */
  function Pieces(s: string, q: Option<char>, buf: string): (r: seq<string>)
    ensures |r| > 0
    decreases |s|
  {
    if s == [] then [buf]
    else if q.None? && Operator(s) > 0 then [buf] + Pieces(s[Operator(s)..], None, [])
    else Pieces(s[1..], Quoted(q, s[0]), buf + [s[0]])
  }

  // ---- trimming ----

  function TrimLeft(s: string, space: char -> bool): (r: string)
    ensures |r| <= |s| && r == s[|s| - |r|..]
    ensures forall i :: 0 <= i < |s| - |r| ==> space(s[i])
    ensures r != [] ==> !space(r[0])
  {
    if s != [] && space(s[0]) then TrimLeft(s[1..], space) else s
  }

  function TrimRight(s: string, space: char -> bool): (r: string)
    ensures |r| <= |s| && r == s[..|r|]
    ensures forall i :: |r| <= i < |s| ==> space(s[i])
    ensures r != [] ==> !space(r[|r| - 1])
  {
    if s != [] && space(s[|s| - 1]) then TrimRight(s[..|s| - 1], space) else s
  }

  function Trim(s: string, space: char -> bool): string { TrimRight(TrimLeft(s, space), space) }

  function Gather(pieces: seq<string>, keep: string -> seq<string>): seq<string> {
    if pieces == [] then []
    else Gather(pieces[..|pieces| - 1], keep) + keep(pieces[|pieces| - 1])
  }

  /** The pieces that are not blank, trimmed. */
  function Tidy(pieces: seq<string>, space: char -> bool): seq<string> {
    Gather(pieces, p => Kept(p, space))
  }

  function Kept(piece: string, space: char -> bool): seq<string> {
    var p := Trim(piece, space);
    if p == [] then [] else [p]
  }

  function Split(s: string, space: char -> bool): seq<string> { Tidy(Pieces(s, None, []), space) }

  // ---- the scan ----

  lemma Advance(s: string, i: nat, q: Option<char>, buf: string)
    requires i < |s|
    ensures var n := Operator(s[i..]);
            if q.None? && n > 0 then Pieces(s[i..], q, buf) == [buf] + Pieces(s[i + n..], None, [])
            else Pieces(s[i..], q, buf) == Pieces(s[i + 1..], Quoted(q, s[i]), buf + [s[i]])
  {
    var n := Operator(s[i..]);
    assert s[i..][n..] == s[i + n..] && s[i..][1..] == s[i + 1..];
  }

  lemma Appended(goal: seq<string>, parts: seq<string>, buf: string, rest: seq<string>)
    requires goal == parts + ([buf] + rest)
    ensures goal == parts + [buf] + rest
  {}

  method Scan(command: string) returns (parts: seq<string>)
    ensures parts == Pieces(command, None, [])
  {
    parts := [];
    var buf: string := [];
    var quote: Option<char> := None;
    var i := 0;
    ghost var goal := Pieces(command, None, []);
    assert command[0..] == command;
    while i < |command|
      invariant 0 <= i <= |command|
      invariant goal == parts + Pieces(command[i..], quote, buf)
    {
      var c := command[i];
      Advance(command, i, quote, buf);
      if quote.Some? {
        buf := buf + [c];
        if c == quote.value { quote := None; }
        i := i + 1;
      } else if c == '\'' || c == '"' {
        quote := Some(c);
        buf := buf + [c];
        i := i + 1;
      } else {
        var op := Operator(command[i..]);
        if op > 0 {
          Appended(goal, parts, buf, Pieces(command[i + op..], None, []));
          parts := parts + [buf];
          buf := [];
          i := i + op;
        } else {
          buf := buf + [c];
          i := i + 1;
        }
      }
    }
    assert command[i..] == [];
    parts := parts + [buf];
  }

  method SplitSubcommands(command: string, space: char -> bool) returns (subs: seq<string>)
    ensures subs == Split(command, space)
  {
    var parts := Scan(command);
    subs := [];
    for i := 0 to |parts|
      invariant subs == Tidy(parts[..i], space)
    {
      assert parts[..i + 1][..i] == parts[..i];
      var p := Trim(parts[i], space);
      if p != [] { subs := subs + [p]; }
    }
    assert parts[..|parts|] == parts;
  }

  // ---- composition ----

  const OPERATORS: set<string> := {"&&", "||", "|", ";", "\n"}

  /** The operator stands between two command lines: the quotes on its left are closed, and it does not run together
      with a character of its own kind on either side. */
  predicate Separates(l: string, op: string, r: string) {
    && op in OPERATORS && QuotedAfter(None, l) == None
    && Apart(l, op, r)
  }

  predicate Apart(l: string, op: string, r: string)
    requires op != []
  {
    && (l != [] && op[0] in "&|" ==> l[|l| - 1] != op[0])
    && (op == "|" && r != [] ==> r[0] != '|')
  }

  lemma OperatorHere(op: string, r: string)
    requires op in OPERATORS && Apart([], op, r)
    ensures Operator(op + r) == |op|
  {
    var s := op + r;
    assert s[0] == op[0];
    if |op| == 2 { assert s[..2] == op; }
    if |op| == 1 && |s| >= 2 { assert s[1] == r[0]; }
  }

  lemma OperatorBefore(l: string, op: string, r: string)
    requires l != [] && op in OPERATORS && Apart(l, op, r)
    ensures Operator(l + op + r) == Operator(l)
  {
    var s := l + op + r;
    assert s[0] == l[0];
    if |l| >= 2 { assert s[..2] == l[..2]; } else { assert s[1] == op[0]; }
  }

  lemma OperatorsOpenNoQuote(s: string)
    ensures QuotedAfter(None, s[Operator(s)..]) == QuotedAfter(None, s)
  {
    var n := Operator(s);
    if n == 2 {
      assert s[..2][0] == s[0] && s[..2][1] == s[1];
      assert s[1..][1..] == s[2..];
      assert QuotedAfter(None, s) == QuotedAfter(None, s[1..]);
    }
  }

  lemma {:induction false} PiecesCompose(l: string, op: string, r: string, q: Option<char>, buf: string)
    requires op in OPERATORS && Apart(l, op, r) && QuotedAfter(q, l) == None
    ensures Pieces(l + op + r, q, buf) == Pieces(l, q, buf) + Pieces(r, None, [])
    decreases |l|
  {
    var s := l + op + r;
    if l == [] {
      OperatorHere(op, r);
      assert s == op + r && s[|op|..] == r;
    } else {
      OperatorBefore(l, op, r);
      assert s[0] == l[0];
      if q.None? && Operator(l) > 0 {
        var n := Operator(l);
        assert s[n..] == l[n..] + op + r;
        OperatorsOpenNoQuote(l);
        PiecesCompose(l[n..], op, r, None, []);
      } else {
        assert s[1..] == l[1..] + op + r;
        PiecesCompose(l[1..], op, r, Quoted(q, l[0]), buf + [l[0]]);
      }
    }
  }

  lemma {:induction false} GatherConcat(a: seq<string>, b: seq<string>, keep: string -> seq<string>)
    ensures Gather(a + b, keep) == Gather(a, keep) + Gather(b, keep)
  {
    if b == [] {
      assert a + b == a;
    } else {
      assert (a + b)[..|a + b| - 1] == a + b[..|b| - 1];
      GatherConcat(a, b[..|b| - 1], keep);
    }
  }

  /** Splitting composes over every operator that separates two command lines. */
  lemma SplitCompose(l: string, op: string, r: string, space: char -> bool)
    requires Separates(l, op, r)
    ensures Split(l + op + r, space) == Split(l, space) + Split(r, space)
  {
    PiecesCompose(l, op, r, None, []);
    GatherConcat(Pieces(l, None, []), Pieces(r, None, []), p => Kept(p, space));
  }

  lemma {:induction false} QuotedRun(body: string, q: char, rest: string, buf: string)
    requires q !in body
    ensures QuotedAfter(Some(q), body) == Some(q)
    ensures Pieces(body + rest, Some(q), buf) == Pieces(rest, Some(q), buf + body)
  {
    if body == [] {
      assert body + rest == rest && buf + body == buf;
    } else {
      assert (body + rest)[1..] == body[1..] + rest && buf + [body[0]] + body[1..] == buf + body;
      QuotedRun(body[1..], q, rest, buf + [body[0]]);
    }
  }

  /** A text in quotes, whatever operators or other quotes are in it, is no place to split, and closes its quote. */
  lemma QuotedTextStays(body: string, q: char, rest: string, buf: string)
    requires q in "'\"" && q !in body
    ensures Pieces([q] + body + [q] + rest, None, buf) == Pieces(rest, None, buf + [q] + body + [q])
    ensures QuotedAfter(None, [q] + body + [q]) == None
  {
    var s := [q] + body + [q] + rest;
    assert s[1..] == body + ([q] + rest);
    assert Pieces(s, None, buf) == Pieces(s[1..], Some(q), buf + [q]);
    QuotedRun(body, q, [q] + rest, buf + [q]);
    assert ([q] + rest)[1..] == rest;
    assert ([q] + body + [q])[1..] == body + [q];
    QuotedAfterConcat(Some(q), body, [q]);
    QuotedRun(body, q, [], []);
    assert [q][1..] == [];
  }

  lemma {:induction false} QuotedAfterConcat(q: Option<char>, a: string, b: string)
    ensures QuotedAfter(q, a + b) == QuotedAfter(QuotedAfter(q, a), b)
    decreases |a|
  {
    if a == [] {
      assert a + b == b;
    } else {
      assert (a + b)[1..] == a[1..] + b;
      QuotedAfterConcat(Quoted(q, a[0]), a[1..], b);
    }
  }

  lemma OperatorInside(l: string, t: string)
    requires l != [] && (|l| >= 2 || l[0] in "'\"")
    ensures Operator(l + t) == Operator(l)
  {
    assert (l + t)[0] == l[0];
    if |l| >= 2 { assert (l + t)[..2] == l[..2]; }
  }

  /** The pieces of a text, the last of them continued by the pieces of what follows. */
  function Continued(left: seq<string>, t: string, q: Option<char>): seq<string>
    requires left != []
  {
    left[..|left| - 1] + Pieces(t, q, left[|left| - 1])
  }

  lemma ContinuedAfter(buf: string, rest: seq<string>, t: string, q: Option<char>)
    requires rest != []
    ensures Continued([buf] + rest, t, q) == [buf] + Continued(rest, t, q)
  {
    var m := |rest| - 1;
    assert ([buf] + rest)[..m + 1] == [buf] + rest[..m];
  }

  /** With a quote left open the text that follows continues the last piece: a separator there
      does not split. */
  lemma {:induction false} OpenQuoteContinues(l: string, t: string, q: Option<char>, buf: string)
    requires QuotedAfter(q, l).Some?
    ensures Pieces(l + t, q, buf) == Continued(Pieces(l, q, buf), t, QuotedAfter(q, l))
    decreases |l|
  {
    if l == [] {
      assert l + t == t;
    } else {
      var s := l + t;
      assert s[0] == l[0];
      if q.None? && |l| == 1 { assert l[1..] == []; }
      if q.None? { OperatorInside(l, t); }
      if q.None? && Operator(l) > 0 {
        var k := Operator(l);
        assert s[k..] == l[k..] + t;
        OperatorsOpenNoQuote(l);
        OpenQuoteContinues(l[k..], t, None, []);
        ContinuedAfter(buf, Pieces(l[k..], None, []), t, QuotedAfter(q, l));
      } else {
        assert s[1..] == l[1..] + t;
        OpenQuoteContinues(l[1..], t, Quoted(q, l[0]), buf + [l[0]]);
      }
    }
  }

  // ---- the pieces hold no operator ----

  /** Reading s with quote q open meets no operator. */
  predicate Atomic(s: string, q: Option<char>) {
    s == [] || ((q.None? ==> Operator(s) == 0) && Atomic(s[1..], Quoted(q, s[0])))
  }

  lemma {:induction false} AtomicIsOnePiece(s: string, q: Option<char>, buf: string)
    requires Atomic(s, q)
    ensures Pieces(s, q, buf) == [buf + s]
  {
    if s == [] {
      assert buf + s == buf;
    } else {
      AtomicIsOnePiece(s[1..], Quoted(q, s[0]), buf + [s[0]]);
      assert buf + [s[0]] + s[1..] == buf + s;
    }
  }

  lemma OperatorOfPrefix(a: string, b: string)
    requires a != [] && Operator(a + b) == 0
    ensures Operator(a) == 0
  {
    assert (a + b)[0] == a[0];
    if |a| >= 2 { assert (a + b)[..2] == a[..2]; }
  }

  /** Atomic text stays atomic when its end is cut, or when its start is cut outside quotes. */
  lemma {:induction false} AtomicParts(a: string, b: string, q: Option<char>)
    requires Atomic(a + b, q)
    ensures Atomic(a, q) && Atomic(b, QuotedAfter(q, a))
    decreases |a|
  {
    if a == [] {
      assert a + b == b;
    } else {
      if q.None? { OperatorOfPrefix(a, b); }
      assert (a + b)[0] == a[0] && (a + b)[1..] == a[1..] + b;
      AtomicParts(a[1..], b, Quoted(q, a[0]));
    }
  }

  lemma {:induction false} SpacesOpenNoQuote(s: string)
    requires forall i :: 0 <= i < |s| ==> s[i] != '\'' && s[i] != '"'
    ensures QuotedAfter(None, s) == None
  {
    if s != [] { SpacesOpenNoQuote(s[1..]); }
  }

  lemma AtomicTail(p: string, lead: string, t: string)
    requires p == lead + t && Atomic(p, None)
    requires forall i :: 0 <= i < |lead| ==> lead[i] != '\'' && lead[i] != '"'
    ensures Atomic(t, None)
  {
    SpacesOpenNoQuote(lead);
    AtomicParts(lead, t, None);
  }

  lemma TrimLeftAtomic(p: string, space: char -> bool)
    requires Atomic(p, None) && !space('\'') && !space('"')
    ensures Atomic(TrimLeft(p, space), None)
  {
    var t := TrimLeft(p, space);
    var n := |p| - |t|;
    var lead := p[..n];
    assert forall i :: 0 <= i < n ==> space(p[i]);
    forall i | 0 <= i < |lead| ensures lead[i] != '\'' && lead[i] != '"' { assert lead[i] == p[i]; }
    assert p == lead + p[n..];
    AtomicTail(p, lead, t);
  }

  lemma TrimRightAtomic(t: string, space: char -> bool)
    requires Atomic(t, None)
    ensures Atomic(TrimRight(t, space), None)
  {
    var r := TrimRight(t, space);
    assert t == r + t[|r|..];
    AtomicParts(r, t[|r|..], None);
  }

  lemma TrimAtomic(p: string, space: char -> bool)
    requires Atomic(p, None) && !space('\'') && !space('"')
    ensures Atomic(Trim(p, space), None)
  {
    TrimLeftAtomic(p, space);
    TrimRightAtomic(TrimLeft(p, space), space);
  }

  lemma TrimTwice(p: string, space: char -> bool)
    ensures Trim(Trim(p, space), space) == Trim(p, space)
  {
    var t := TrimLeft(p, space);
    var r := TrimRight(t, space);
    if r != [] { assert r[0] == t[0]; }
  }

  /** Length of the text before the first operator. */
  function Run(s: string, q: Option<char>): (k: nat)
    ensures k <= |s|
    ensures k < |s| ==> Operator(s[k..]) > 0
    decreases |s|
  {
    if s == [] || (q.None? && Operator(s) > 0) then 0 else 1 + Run(s[1..], Quoted(q, s[0]))
  }

  lemma {:induction false} RunAtomic(s: string, q: Option<char>)
    ensures Atomic(s[..Run(s, q)], q)
    decreases |s|
  {
    var k := Run(s, q);
    if k > 0 {
      RunAtomic(s[1..], Quoted(q, s[0]));
      assert s[..k][1..] == s[1..][..k - 1];
      if q.None? {
        assert s == s[..k] + s[k..];
        OperatorOfPrefix(s[..k], s[k..]);
      }
    }
  }

  /** The pieces after the operator that ends the first k characters. */
  function Later(s: string, k: nat): seq<string>
    requires k <= |s|
  {
    if k == |s| then [] else Pieces(s[k + Operator(s[k..])..], None, [])
  }

  lemma LaterShift(s: string, k: nat)
    requires 0 < k <= |s|
    ensures Later(s[1..], k - 1) == Later(s, k)
  {
    assert s[1..][k - 1..] == s[k..];
    if k < |s| {
      var n := Operator(s[k..]);
      assert s[1..][k - 1 + n..] == s[k + n..];
    }
  }

  lemma FirstShift(s: string, buf: string, k: nat)
    requires 0 < k <= |s|
    ensures buf + [s[0]] + s[1..][..k - 1] == buf + s[..k]
  {}

  /** Nothing is lost but the operators: the first piece is the text before the first operator,
      and the others are the pieces of what follows it. */
  lemma {:induction false} PiecesByRuns(s: string, q: Option<char>, buf: string)
    ensures Pieces(s, q, buf) == [buf + s[..Run(s, q)]] + Later(s, Run(s, q))
    decreases |s|
  {
    var k := Run(s, q);
    if k == 0 {
      assert buf + s[..0] == buf && s[0..] == s;
    } else {
      PiecesByRuns(s[1..], Quoted(q, s[0]), buf + [s[0]]);
      FirstShift(s, buf, k);
      LaterShift(s, k);
    }
  }

  ghost predicate AllAtomic(pieces: seq<string>) { forall i :: 0 <= i < |pieces| ==> Atomic(pieces[i], None) }

  lemma AtomicAfter(first: string, rest: seq<string>)
    requires Atomic(first, None) && AllAtomic(rest)
    ensures AllAtomic([first] + rest)
  {}

  lemma {:induction false} PiecesAtomic(s: string)
    ensures AllAtomic(Pieces(s, None, []))
    decreases |s|
  {
    PiecesByRuns(s, None, []);
    RunAtomic(s, None);
    var k := Run(s, None);
    assert [] + s[..k] == s[..k];
    if k < |s| { PiecesAtomic(s[k + Operator(s[k..])..]); }
    AtomicAfter(s[..k], Later(s, k));
  }

  lemma {:induction false} KeptFrom(pieces: seq<string>, space: char -> bool, p: string)
    requires p in Tidy(pieces, space)
    ensures exists i :: 0 <= i < |pieces| && p == Trim(pieces[i], space) != []
  {
    var n := |pieces| - 1;
    if p in Tidy(pieces[..n], space) {
      KeptFrom(pieces[..n], space, p);
      var i :| 0 <= i < n && p == Trim(pieces[..n][i], space);
      assert pieces[i] == pieces[..n][i];
    } else {
      assert p in Kept(pieces[n], space);
    }
  }

  lemma GatherOne(p: string, keep: string -> seq<string>)
    ensures Gather([p], keep) == keep(p)
  {
    assert [p][..0] == [];
  }

  lemma AtomicSplits(p: string, space: char -> bool)
    requires Atomic(p, None) && Trim(p, space) == p != []
    ensures Split(p, space) == [p]
  {
    AtomicIsOnePiece(p, None, []);
    assert [] + p == p;
    GatherOne(p, x => Kept(x, space));
  }

  /** A sub-command is a command of its own that splits no further. */
  lemma SubcommandsAreFinal(command: string, p: string, space: char -> bool)
    requires !space('\'') && !space('"') && p in Split(command, space)
    ensures Split(p, space) == [p] && p != [] && Trim(p, space) == p
  {
    var pieces := Pieces(command, None, []);
    KeptFrom(pieces, space, p);
    var i :| 0 <= i < |pieces| && p == Trim(pieces[i], space) != [];
    PiecesAtomic(command);
    TrimAtomic(pieces[i], space);
    TrimTwice(pieces[i], space);
    AtomicSplits(p, space);
  }
}
