/**
 * Fitting a projection into a number of bytes: the longest string is halved until the printed
 * value fits, then entries of the outermost table are dropped.
 */
module HookShrink {
  import Utf8
  import opened HookProjection

  // ---- sizes ----

  /** Printed cost of each part of a tree. */
  datatype Cost = Cost(text: string -> nat, key: string -> nat, scalar: string -> nat, frame: nat, comma: nat)

  function Sum(t: Tree, c: Cost): nat
    decreases t, 1
  {
    match t
    case Scalar(x) => c.scalar(x)
    case Text(s) => c.text(s)
    case Foreign(x) => c.text(x)
    case Node(table, kids) => c.frame + SumKids(table, kids, c)
  }

  function SumKids(table: bool, kids: seq<Kid>, c: Cost): nat
    decreases kids, 0
  {
    if kids == [] then 0
    else
      var n := |kids| - 1;
      SumKids(table, kids[..n], c) + (if n > 0 then c.comma else 0) + SumKid(table, kids[n], c)
  }

  function SumKid(table: bool, kid: Kid, c: Cost): nat
    decreases kid, 0
  {
    (if table then c.key(kid.key) else 0) + Sum(kid.value, c)
  }

  /** Bytes of the characters of s when printed inside quotes; esc gives the cost of one. */
  function Escaped(s: string, esc: char -> nat): nat {
    if s == [] then 0 else Escaped(s[..|s| - 1], esc) + esc(s[|s| - 1])
  }

  /** The compact JSON form: quotes around strings, ": " after keys, ", " between items. */
  function Json(esc: char -> nat): Cost {
    Cost(s => 2 + Escaped(s, esc), s => 4 + Escaped(s, esc), s => Utf8.Bytes(s), 2, 2)
  }

  const STRINGS: Cost := Cost(s => Utf8.Bytes(s), s => 0, s => 0, 0, 0)

  /** Escaping never shortens, and leaves plain ASCII characters alone. */
  ghost predicate Escapes(esc: char -> nat) {
    && (forall c :: Utf8.Width(c) <= esc(c))
    && (forall c :: ' ' <= c <= '~' && c != '"' && c != '\\' ==> esc(c) == 1)
  }

  // ---- the longest string ----

  /** Positions on the way to a string, and its bytes; -1 bytes when there is no string. */
  datatype Best = Best(path: seq<nat>, bytes: int)

  /** The first of the longest strings. */
  function Longest(t: Tree): Best
    decreases t, 1
  {
    match t
    case Text(s) => Best([], Utf8.Bytes(s))
    case Node(_, kids) => LongestKid(kids)
    case _ => Best([], -1)
  }

  function LongestKid(kids: seq<Kid>): Best
    decreases kids, 0
  {
    if kids == [] then Best([], -1)
    else
      var n := |kids| - 1;
      var before := LongestKid(kids[..n]);
      var last := Longest(kids[n].value);
      if last.bytes > before.bytes then Best([n] + last.path, last.bytes) else before
  }

  predicate IsText(t: Tree, path: seq<nat>)
    decreases t
  {
    if path == [] then t.Text?
    else t.Node? && path[0] < |t.kids| && IsText(t.kids[path[0]].value, path[1..])
  }

  function Read(t: Tree, path: seq<nat>): string
    requires IsText(t, path)
    decreases t
  {
    if path == [] then t.s else Read(t.kids[path[0]].value, path[1..])
  }

  function Replace(t: Tree, path: seq<nat>, x: string): Tree
    requires IsText(t, path)
    decreases t
  {
    if path == [] then Text(x)
    else
      var i := path[0];
      var kid := t.kids[i];
      Node(t.table, t.kids[i := kid.(value := Replace(kid.value, path[1..], x))])
  }

  /** No string is longer than n bytes. */
  predicate AtMost(t: Tree, n: int)
    decreases t, 1
  {
    match t
    case Text(s) => Utf8.Bytes(s) <= n
    case Node(_, kids) => KidsAtMost(kids, n)
    case _ => true
  }

  predicate KidsAtMost(kids: seq<Kid>, n: int)
    decreases kids, 0
  {
    forall i :: 0 <= i < |kids| ==> AtMost(kids[i].value, n)
  }

  lemma {:induction false} AtMostGrows(t: Tree, n: int, m: int)
    requires AtMost(t, n) && n <= m
    ensures AtMost(t, m)
  {
    if t.Node? {
      forall i | 0 <= i < |t.kids| ensures AtMost(t.kids[i].value, m) { AtMostGrows(t.kids[i].value, n, m); }
    }
  }

  lemma {:induction false} AtMostRead(t: Tree, n: int, q: seq<nat>)
    requires AtMost(t, n) && IsText(t, q)
    ensures Utf8.Bytes(Read(t, q)) <= n
    decreases t
  {
    if q != [] { AtMostRead(t.kids[q[0]].value, n, q[1..]); }
  }

  ghost predicate BestOf(b: Best, t: Tree) {
    && AtMost(t, b.bytes)
    && if b.bytes < 0 then b == Best([], -1)
       else IsText(t, b.path) && Utf8.Bytes(Read(t, b.path)) == b.bytes
  }

  lemma {:induction false} LongestAtMost(t: Tree)
    ensures BestOf(Longest(t), t)
    decreases t, 1
  {
    if t.Node? { LongestKidAtMost(t.table, t.kids); }
  }

  lemma {:induction false} LongestKidAtMost(table: bool, kids: seq<Kid>)
    ensures BestOf(LongestKid(kids), Node(table, kids))
    decreases kids, 0
  {
    if kids != [] {
      var n := |kids| - 1;
      var before := LongestKid(kids[..n]);
      var last := Longest(kids[n].value);
      LongestKidAtMost(table, kids[..n]);
      LongestAtMost(kids[n].value);
      BestExtends(table, kids, before, last);
    }
  }

  lemma BestExtends(table: bool, kids: seq<Kid>, before: Best, last: Best)
    requires kids != []
    requires BestOf(before, Node(table, kids[..|kids| - 1])) && BestOf(last, kids[|kids| - 1].value)
    ensures BestOf(if last.bytes > before.bytes then Best([|kids| - 1] + last.path, last.bytes) else before,
                   Node(table, kids))
  {
    var n := |kids| - 1;
    var top := if last.bytes > before.bytes then last.bytes else before.bytes;
    assert AtMost(Node(table, kids[..n]), before.bytes) && KidsAtMost(kids[..n], before.bytes);
    forall i | 0 <= i < |kids| ensures AtMost(kids[i].value, top) {
      if i < n {
        assert kids[..n][i] == kids[i];
        AtMostGrows(kids[i].value, before.bytes, top);
      } else {
        AtMostGrows(kids[i].value, last.bytes, top);
      }
    }
    if last.bytes > before.bytes {
      var path := [n] + last.path;
      assert path[1..] == last.path;
    }
  }

  /** The longest string is a string of the tree, and no string of the tree is longer; there is
      none exactly when the tree has no string. */
  lemma LongestIsLongest(t: Tree, q: seq<nat>)
    ensures var best := Longest(t);
            && (IsText(t, q) ==> Utf8.Bytes(Read(t, q)) <= best.bytes)
            && (best.bytes >= 0 ==> IsText(t, best.path) && Utf8.Bytes(Read(t, best.path)) == best.bytes)
  {
    LongestAtMost(t);
    if IsText(t, q) { AtMostRead(t, Longest(t).bytes, q); }
  }

  // ---- replacing one string ----

  /** Exactly the string at the path changes. */
  lemma {:induction false} ReplaceFrame(t: Tree, path: seq<nat>, x: string, q: seq<nat>)
    requires IsText(t, path)
    ensures IsText(Replace(t, path, x), q) <==> IsText(t, q)
    ensures IsText(t, q) ==> Read(Replace(t, path, x), q) == if q == path then x else Read(t, q)
    decreases t
  {
    if path != [] && q != [] && path[0] == q[0] {
      ReplaceFrame(t.kids[path[0]].value, path[1..], x, q[1..]);
      assert path == [path[0]] + path[1..] && q == [q[0]] + q[1..];
    }
  }

  lemma {:induction false} SumKidsUpdate(table: bool, kids: seq<Kid>, i: nat, kid: Kid, c: Cost)
    requires i < |kids|
    ensures SumKids(table, kids[i := kid], c)
            == SumKids(table, kids, c) - SumKid(table, kids[i], c) + SumKid(table, kid, c)
  {
    var n := |kids| - 1;
    if i < n {
      SumKidsUpdate(table, kids[..n], i, kid, c);
      assert kids[i := kid][..n] == kids[..n][i := kid];
    } else {
      assert kids[i := kid][..n] == kids[..n];
    }
  }

  lemma {:induction false} ReplaceSum(t: Tree, path: seq<nat>, x: string, c: Cost)
    requires IsText(t, path)
    ensures Sum(Replace(t, path, x), c) == Sum(t, c) - c.text(Read(t, path)) + c.text(x)
    decreases t
  {
    if path != [] {
      var i := path[0];
      var kid := t.kids[i];
      ReplaceSum(kid.value, path[1..], x, c);
      SumKidsUpdate(t.table, t.kids, i, kid.(value := Replace(kid.value, path[1..], x)), c);
    }
  }

  // ---- one pass of the loop ----

  const HOOK_NAME: string := "hook_event_name"

  function Half(n: nat): nat { if n / 2 < 16 then 16 else n / 2 }

  /** Position of the last entry that may be dropped, or -1. */
  function LastRemovable(kids: seq<Kid>): (r: int)
    ensures -1 <= r < |kids|
    ensures r >= 0 ==> kids[r].key != HOOK_NAME
    ensures forall i :: r < i < |kids| ==> kids[i].key == HOOK_NAME
  {
    if kids == [] then -1
    else if kids[|kids| - 1].key != HOOK_NAME then |kids| - 1
    else LastRemovable(kids[..|kids| - 1])
  }

  const TOO_LARGE_TABLE: Tree := Node(true, [Kid("error", Text("projection_too_large"))])
  const TOO_LARGE_TEXT: Tree := Text("<projection-too-large>")

  datatype Progress = More(tree: Tree) | Done(tree: Tree)

  /** The string that the next pass cuts, if it is to cut one. */
  predicate Cuts(t: Tree) { Longest(t).path != [] && Longest(t).bytes > |Utf8.MARKER| }

  function CutLongest(t: Tree): Tree
    requires Cuts(t)
  {
    LongestAtMost(t);
    var best := Longest(t);
    Replace(t, best.path, Utf8.Truncate(Read(t, best.path), Half(best.bytes)))
  }

  function DropEntry(t: Tree): Progress {
    if t.Node? && t.table then
      var i := LastRemovable(t.kids);
      if i < 0 then Done(TOO_LARGE_TABLE) else More(Node(true, t.kids[..i] + t.kids[i + 1..]))
    else Done(TOO_LARGE_TEXT)
  }

  /** The loop condition and one execution of the loop body. */
  function Pass(t: Tree, limit: nat, c: Cost): Progress {
    if Sum(t, c) <= limit then Done(t)
    else if Cuts(t) then More(CutLongest(t))
    else DropEntry(t)
  }

  function Repeat(step: Tree -> Progress, t: Tree, n: nat): Progress
    decreases n
  {
    if n == 0 then More(t)
    else match step(t)
      case Done(r) => Done(r)
      case More(u) => Repeat(step, u, n - 1)
  }

  /** Where the loop is after at most n passes. */
  function Passes(t: Tree, n: nat, limit: nat, c: Cost): Progress {
    Repeat(u => Pass(u, limit, c), t, n)
  }

  /** Strings that a pass leaves as they are although it tries to cut them. */
  predicate Stuck(t: Tree) { Cuts(t) && Longest(t).bytes <= 16 }

  // ---- where cutting leads ----

  lemma HalfShortens(s: string)
    ensures var b := Utf8.Bytes(Utf8.Truncate(s, Half(Utf8.Bytes(s))));
            if Utf8.Bytes(s) <= 16 then Utf8.Truncate(s, Half(Utf8.Bytes(s))) == s else b < Utf8.Bytes(s)
  {
    Utf8.TruncateBytes(s, Half(Utf8.Bytes(s)));
  }

  /** A string cut again and again until it has at most 16 bytes. */
  function Settle(s: string): string
    decreases Utf8.Bytes(s)
  {
    HalfShortens(s);
    if Utf8.Bytes(s) <= 16 then s else Settle(Utf8.Truncate(s, Half(Utf8.Bytes(s))))
  }

  function Squash(t: Tree): Tree
    decreases t
  {
    match t
    case Text(s) => Text(Settle(s))
    case Node(table, kids) =>
      Node(table, seq(|kids|, i requires 0 <= i < |kids| => Kid(kids[i].key, Squash(kids[i].value))))
    case _ => t
  }

  lemma {:induction false} SquashSmall(t: Tree)
    requires AtMost(t, 16)
    ensures Squash(t) == t
  {
    if t.Node? {
      forall i | 0 <= i < |t.kids| ensures Squash(t.kids[i].value) == t.kids[i].value { SquashSmall(t.kids[i].value); }
      assert Squash(t).kids == t.kids;
    }
  }

  lemma {:induction false} SquashReplace(t: Tree, path: seq<nat>, x: string)
    requires IsText(t, path) && Settle(x) == Settle(Read(t, path))
    ensures Squash(Replace(t, path, x)) == Squash(t)
    decreases t
  {
    if path != [] {
      SquashReplace(t.kids[path[0]].value, path[1..], x);
      assert Squash(Replace(t, path, x)).kids == Squash(t).kids;
    }
  }

  ghost predicate SettleCheaper(c: Cost) { forall s :: c.text(Settle(s)) <= c.text(s) }

  lemma {:induction false} SquashSum(t: Tree, c: Cost)
    requires SettleCheaper(c)
    ensures Sum(Squash(t), c) <= Sum(t, c)
    decreases t, 1
  {
    if t.Node? { SquashSumKids(t.table, t.kids, Squash(t).kids, c); }
  }

  lemma {:induction false} SquashSumKids(table: bool, kids: seq<Kid>, small: seq<Kid>, c: Cost)
    requires SettleCheaper(c) && |small| == |kids|
    requires forall i :: 0 <= i < |kids| ==> small[i] == Kid(kids[i].key, Squash(kids[i].value))
    ensures SumKids(table, small, c) <= SumKids(table, kids, c)
    decreases kids, 0
  {
    if kids != [] {
      var n := |kids| - 1;
      SquashSumKids(table, kids[..n], small[..n], c);
      SquashSum(kids[n].value, c);
    }
  }

  // ---- progress ----

  function TopEntries(t: Tree): nat { if t.Node? then |t.kids| else 0 }

  /** Bytes in strings plus entries of the outermost structure. */
  function Measure(t: Tree): nat { Sum(t, STRINGS) + TopEntries(t) }

  lemma {:induction false} ReplaceSame(t: Tree, path: seq<nat>)
    requires IsText(t, path)
    ensures Replace(t, path, Read(t, path)) == t
    decreases t
  {
    if path != [] {
      var i := path[0];
      ReplaceSame(t.kids[i].value, path[1..]);
      assert t.kids[i := t.kids[i]] == t.kids;
    }
  }

  /** A pass that cuts makes the strings strictly shorter, unless the longest has 15 or 16 bytes:
      then it changes nothing. */
  lemma CutShortensOrNothing(t: Tree)
    requires Cuts(t)
    ensures Stuck(t) ==> CutLongest(t) == t
    ensures !Stuck(t) ==> Measure(CutLongest(t)) < Measure(t)
    ensures Squash(CutLongest(t)) == Squash(t)
  {
    LongestAtMost(t);
    var best := Longest(t);
    var old' := Read(t, best.path);
    var new' := Utf8.Truncate(old', Half(best.bytes));
    HalfShortens(old');
    if Stuck(t) {
      ReplaceSame(t, best.path);
    } else {
      ReplaceSum(t, best.path, new', STRINGS);
      SquashReplace(t, best.path, new');
    }
  }

  lemma {:induction false} SumKidsDrop(table: bool, kids: seq<Kid>, i: nat, c: Cost)
    requires i < |kids|
    ensures SumKids(table, kids[..i] + kids[i + 1..], c) <= SumKids(table, kids, c)
  {
    var n := |kids| - 1;
    var rest := kids[..i] + kids[i + 1..];
    if i < n {
      SumKidsDrop(table, kids[..n], i, c);
      assert rest[..n - 1] == kids[..n][..i] + kids[..n][i + 1..];
      assert rest[n - 1] == kids[n];
    } else {
      assert rest == kids[..n];
    }
  }

  lemma KidsAtMostDrop(kids: seq<Kid>, i: nat, n: int)
    requires i < |kids| && KidsAtMost(kids, n)
    ensures KidsAtMost(kids[..i] + kids[i + 1..], n)
  {
    var rest := kids[..i] + kids[i + 1..];
    forall j | 0 <= j < |rest| ensures AtMost(rest[j].value, n) {
      var k := if j < i then j else j + 1;
      assert rest[j] == kids[k];
    }
  }

  /** A pass that drops an entry has fewer entries and no longer strings. */
  lemma DropShrinks(t: Tree)
    requires DropEntry(t).More?
    ensures Measure(DropEntry(t).tree) < Measure(t)
    ensures AtMost(t, 14) ==> AtMost(DropEntry(t).tree, 14)
  {
    var i := LastRemovable(t.kids);
    SumKidsDrop(true, t.kids, i, STRINGS);
    if AtMost(t, 14) { KidsAtMostDrop(t.kids, i, 14); }
  }

  lemma CutsIffLong(t: Tree)
    requires t.Node?
    ensures Cuts(t) <==> !AtMost(t, 14)
    ensures Cuts(t) && !Stuck(t) <==> !AtMost(t, 16)
  {
    LongestAtMost(t);
    var best := Longest(t);
    forall n: nat ensures AtMost(t, n) <==> best.bytes <= n {
      if best.bytes <= n { AtMostGrows(t, best.bytes, n); }
      if AtMost(t, n) && best.bytes >= 0 { AtMostRead(t, n, best.path); }
    }
  }

  /** The loop will never end from t: with every string cut as far as the loop can cut it, the
      value still does not fit and some string has 15 or 16 bytes. */
  predicate Hangs(t: Tree, limit: nat, c: Cost) { limit < Sum(Squash(t), c) && Stuck(Squash(t)) }

  /** A pass keeps the verdict. */
  lemma PassKeepsVerdict(t: Tree, limit: nat, c: Cost)
    requires SettleCheaper(c) && Pass(t, limit, c).More?
    ensures Hangs(Pass(t, limit, c).tree, limit, c) <==> Hangs(t, limit, c)
    ensures !Hangs(t, limit, c) ==> Measure(Pass(t, limit, c).tree) < Measure(t)
  {
    if Cuts(t) {
      CutShortensOrNothing(t);
      if Stuck(t) {
        LongestAtMost(t);
        AtMostGrows(t, Longest(t).bytes, 16);
        SquashSmall(t);
      }
    } else {
      var u := Pass(t, limit, c).tree;
      CutsIffLong(t);
      DropShrinks(t);
      AtMostGrows(t, 14, 16);
      AtMostGrows(u, 14, 16);
      SquashSmall(t);
      SquashSmall(u);
      CutsIffLong(u);
    }
  }

  lemma HangingPassGoesOn(t: Tree, limit: nat, c: Cost)
    requires SettleCheaper(c) && Hangs(t, limit, c)
    ensures Pass(t, limit, c).More?
  {
    SquashSum(t, c);
    CutsIffLong(t);
    if AtMost(t, 14) {
      AtMostGrows(t, 14, 16);
      SquashSmall(t);
      assert false;
    }
  }

  lemma {:induction false} HangsForever(t: Tree, n: nat, limit: nat, c: Cost)
    requires SettleCheaper(c) && Hangs(t, limit, c)
    ensures Passes(t, n, limit, c).More?
    decreases n
  {
    if n > 0 {
      HangingPassGoesOn(t, limit, c);
      PassKeepsVerdict(t, limit, c);
      HangsForever(Pass(t, limit, c).tree, n - 1, limit, c);
    }
  }

  lemma {:induction false} EndsInTime(t: Tree, limit: nat, c: Cost)
    requires SettleCheaper(c) && !Hangs(t, limit, c)
    ensures Passes(t, Measure(t) + 1, limit, c).Done?
    decreases Measure(t)
  {
    var step := Pass(t, limit, c);
    if step.More? {
      PassKeepsVerdict(t, limit, c);
      EndsInTime(step.tree, limit, c);
      RepeatMore(u => Pass(u, limit, c), step.tree, Measure(step.tree) + 1, Measure(t));
    }
  }

  lemma {:induction false} RepeatMore(step: Tree -> Progress, t: Tree, n: nat, m: nat)
    requires n <= m && Repeat(step, t, n).Done?
    ensures Repeat(step, t, m) == Repeat(step, t, n)
    decreases n
  {
    if step(t).More? { RepeatMore(step, step(t).tree, n - 1, m - 1); }
  }

  /** The loop ends from t if and only if t does not hang, and then within a number of passes
      bounded by the string bytes and the entries. */
  lemma EndsIff(t: Tree, limit: nat, c: Cost)
    requires SettleCheaper(c)
    ensures (exists n: nat :: Passes(t, n, limit, c).Done?) <==> !Hangs(t, limit, c)
    ensures !Hangs(t, limit, c) ==> Passes(t, Measure(t) + 1, limit, c).Done?
  {
    if Hangs(t, limit, c) {
      forall n: nat ensures Passes(t, n, limit, c).More? { HangsForever(t, n, limit, c); }
    } else {
      EndsInTime(t, limit, c);
    }
  }

  // ---- the printed size ----

  lemma {:induction false} EscapedConcat(a: string, b: string, esc: char -> nat)
    ensures Escaped(a + b, esc) == Escaped(a, esc) + Escaped(b, esc)
  {
    if b == [] {
      assert a + b == a;
    } else {
      assert (a + b)[..|a + b| - 1] == a + b[..|b| - 1];
      EscapedConcat(a, b[..|b| - 1], esc);
    }
  }

  lemma {:induction false} EscapedAtLeastBytes(s: string, esc: char -> nat)
    requires Escapes(esc)
    ensures Utf8.Bytes(s) <= Escaped(s, esc)
  {
    if s != [] { EscapedAtLeastBytes(s[..|s| - 1], esc); }
  }

  predicate PlainText(s: string) { forall i :: 0 <= i < |s| ==> ' ' <= s[i] <= '~' && s[i] != '"' && s[i] != '\\' }

  lemma {:induction false} EscapedPlain(s: string, esc: char -> nat)
    requires Escapes(esc) && PlainText(s)
    ensures Escaped(s, esc) == |s|
  {
    if s != [] { EscapedPlain(s[..|s| - 1], esc); }
  }

  lemma MarkedIsCheaper(head: string, tail: string, esc: char -> nat)
    requires Escapes(esc) && 14 <= Utf8.Bytes(tail)
    ensures Escaped(head + Utf8.MARKER, esc) <= Escaped(head + tail, esc)
  {
    EscapedAtLeastBytes(tail, esc);
    EscapedConcat(head, tail, esc);
    EscapedConcat(head, Utf8.MARKER, esc);
    EscapedPlain(Utf8.MARKER, esc);
  }

  /** Cutting a string never makes its printed form longer. */
  lemma EscapedTruncate(s: string, limit: nat, esc: char -> nat)
    requires Escapes(esc) && 14 <= limit
    ensures Escaped(Utf8.Truncate(s, limit), esc) <= Escaped(s, esc)
  {
    if limit < Utf8.Bytes(s) {
      var head := Utf8.Fit(s, limit - 14);
      var tail := s[|head|..];
      assert s == head + tail;
      Utf8.BytesConcat(head, tail);
      MarkedIsCheaper(head, tail, esc);
    }
  }

  lemma {:induction false} EscapedSettle(s: string, esc: char -> nat)
    requires Escapes(esc)
    ensures Escaped(Settle(s), esc) <= Escaped(s, esc)
    decreases Utf8.Bytes(s)
  {
    HalfShortens(s);
    if Utf8.Bytes(s) > 16 {
      EscapedTruncate(s, Half(Utf8.Bytes(s)), esc);
      EscapedSettle(Utf8.Truncate(s, Half(Utf8.Bytes(s))), esc);
    }
  }

  lemma JsonSettles(esc: char -> nat)
    requires Escapes(esc)
    ensures SettleCheaper(Json(esc))
  {
    forall s ensures Json(esc).text(Settle(s)) <= Json(esc).text(s) { EscapedSettle(s, esc); }
  }

  lemma FallbacksAreSmall(esc: char -> nat)
    requires Escapes(esc)
    ensures Sum(TOO_LARGE_TABLE, Json(esc)) == 33 && Sum(TOO_LARGE_TEXT, Json(esc)) == 24
  {
    PlainSizes("error", "projection_too_large", esc);
    EscapedPlain("<projection-too-large>", esc);
  }

  lemma PlainSizes(key: string, s: string, esc: char -> nat)
    requires Escapes(esc) && PlainText(key) && PlainText(s)
    ensures Sum(Node(true, [Kid(key, Text(s))]), Json(esc)) == 8 + |key| + |s|
  {
    EscapedPlain(key, esc);
    EscapedPlain(s, esc);
    OneEntrySize(key, s, esc);
  }

  lemma OneEntrySize(key: string, s: string, esc: char -> nat)
    ensures Sum(Node(true, [Kid(key, Text(s))]), Json(esc)) == 8 + Escaped(key, esc) + Escaped(s, esc)
  {
    var c := Json(esc);
    var kids := [Kid(key, Text(s))];
    assert kids[..0] == [];
    assert SumKid(true, kids[0], c) == c.key(key) + Sum(Text(s), c) == 4 + Escaped(key, esc) + (2 + Escaped(s, esc));
    assert SumKids(true, kids, c) == SumKids(true, kids[..0], c) + SumKid(true, kids[0], c);
  }

  /** A result of the loop fits, given room for the two fallbacks. */
  lemma {:induction false} DoneFits(t: Tree, n: nat, limit: nat, esc: char -> nat)
    requires Escapes(esc) && 33 <= limit && Passes(t, n, limit, Json(esc)).Done?
    ensures Sum(Passes(t, n, limit, Json(esc)).tree, Json(esc)) <= limit
    decreases n
  {
    FallbacksAreSmall(esc);
    var step := Pass(t, limit, Json(esc));
    if step.More? { DoneFits(step.tree, n - 1, limit, esc); }
  }

  // ---- the loop ----

  lemma {:induction false} RepeatOnce(step: Tree -> Progress, t: Tree, n: nat, u: Tree)
    requires Repeat(step, t, n) == More(u)
    ensures Repeat(step, t, n + 1) == step(u)
    decreases n
  {
    if n > 0 { RepeatOnce(step, step(t).tree, n - 1, u); }
  }

  lemma PassesOnce(t: Tree, n: nat, u: Tree, limit: nat, c: Cost)
    requires Passes(t, n, limit, c) == More(u)
    ensures Passes(t, n + 1, limit, c) == Pass(u, limit, c)
  {
    RepeatOnce(x => Pass(x, limit, c), t, n, u);
  }

  method FindRemovable(kids: seq<Kid>) returns (i: int)
    ensures i == LastRemovable(kids)
  {
    i := |kids| - 1;
    while 0 <= i && kids[i].key == HOOK_NAME
      invariant -1 <= i < |kids|
      invariant LastRemovable(kids) == LastRemovable(kids[..i + 1])
    {
      assert kids[..i + 1][..i] == kids[..i];
      i := i - 1;
    }
  }

  method DropLast(t: Tree) returns (r: Progress)
    ensures r == DropEntry(t)
  {
    if !(t.Node? && t.table) { return Done(TOO_LARGE_TEXT); }
    var i := FindRemovable(t.kids);
    if i < 0 { return Done(TOO_LARGE_TABLE); }
    return More(Node(true, t.kids[..i] + t.kids[i + 1..]));
  }

  /** The body of the loop. */
  method ShrinkOnce(t: Tree) returns (r: Progress)
    ensures r == if Cuts(t) then More(CutLongest(t)) else DropEntry(t)
  {
    LongestAtMost(t);
    var best := Longest(t);
    if best.path == [] || best.bytes <= |Utf8.MARKER| {
      r := DropLast(t);
    } else {
      var replacement := Utf8.Truncate(Read(t, best.path), Half(best.bytes));
      r := More(Replace(t, best.path, replacement));
    }
  }

  lemma PassMoves(t: Tree, limit: nat, c: Cost)
    requires SettleCheaper(c) && Pass(t, limit, c).More? && !Stuck(t)
    ensures Measure(Pass(t, limit, c).tree) < Measure(t)
  {
    if Cuts(t) { CutShortensOrNothing(t); } else { DropShrinks(t); }
  }

  lemma StuckHangs(t: Tree, limit: nat, c: Cost)
    requires Stuck(t) && limit < Sum(t, c)
    ensures Hangs(t, limit, c) && Pass(t, limit, c) == More(t)
  {
    CutShortensOrNothing(t);
    LongestAtMost(t);
    AtMostGrows(t, Longest(t).bytes, 16);
    SquashSmall(t);
  }

  /** The result for a tree that does not hang; for one that hangs the loop is left at the state
      that it would repeat forever, and there is no result. */
  method BoundPayload(projected: Tree, limit: nat, esc: char -> nat) returns (r: Progress)
    requires Escapes(esc)
    ensures r.Done? <==> !Hangs(projected, limit, Json(esc))
    ensures exists n: nat :: Passes(projected, n, limit, Json(esc)) == r
    ensures r.More? ==> Pass(r.tree, limit, Json(esc)) == r
    ensures r.Done? && 33 <= limit ==> Sum(r.tree, Json(esc)) <= limit
  {
    var c := Json(esc);
    JsonSettles(esc);
    var t := projected;
    ghost var n: nat := 0;
    while Sum(t, c) > limit
      invariant Passes(projected, n, limit, c) == More(t)
      invariant Hangs(t, limit, c) <==> Hangs(projected, limit, c)
      decreases Measure(t)
    {
      if Stuck(t) {
        StuckHangs(t, limit, c);
        return More(t);
      }
      PassesOnce(projected, n, t, limit, c);
      r := ShrinkOnce(t);
      assert r == Pass(t, limit, c);
      if r.Done? {
        DoneDoesNotHang(t, limit, c);
        FallbacksAreSmall(esc);
        return;
      }
      PassKeepsVerdict(t, limit, c);
      PassMoves(t, limit, c);
      t, n := r.tree, n + 1;
    }
    PassesOnce(projected, n, t, limit, c);
    DoneDoesNotHang(t, limit, c);
    r := Done(t);
  }

  lemma DoneDoesNotHang(t: Tree, limit: nat, c: Cost)
    requires SettleCheaper(c) && Pass(t, limit, c).Done?
    ensures !Hangs(t, limit, c)
  {
    if Hangs(t, limit, c) { HangingPassGoesOn(t, limit, c); }
  }

  /** Every table or list that does not fit, whose strings have at most 16 bytes and one of them
      more than 14, is passed over forever. */
  lemma ShortStringsHang(t: Tree, limit: nat, c: Cost)
    requires t.Node? && AtMost(t, 16) && !AtMost(t, 14) && limit < Sum(t, c)
    ensures Hangs(t, limit, c)
  {
    SquashSmall(t);
    CutsIffLong(t);
  }

  // ---- what the passes keep ----

  lemma {:induction false} ReplaceTexts(t: Tree, path: seq<nat>, x: string, ok: string -> bool)
    requires IsText(t, path) && AllTexts(t, ok) && ok(x)
    ensures AllTexts(Replace(t, path, x), ok)
    decreases t
  {
    if path != [] { ReplaceTexts(t.kids[path[0]].value, path[1..], x, ok); }
  }

  lemma {:induction false} ReadText(t: Tree, path: seq<nat>, ok: string -> bool)
    requires IsText(t, path) && AllTexts(t, ok)
    ensures ok(Read(t, path))
    decreases t
  {
    if path != [] { ReadText(t.kids[path[0]].value, path[1..], ok); }
  }

  /** A property of strings that cutting keeps, and that the fallbacks have. */
  ghost predicate Lasting(ok: string -> bool) {
    && (forall s, n :: ok(s) ==> ok(Utf8.Truncate(s, n)))
    && ok("error") && ok("projection_too_large") && ok("<projection-too-large>")
  }

  lemma PassTexts(t: Tree, limit: nat, c: Cost, ok: string -> bool)
    requires Lasting(ok) && AllTexts(t, ok)
    ensures AllTexts(Pass(t, limit, c).tree, ok)
  {
    if limit < Sum(t, c) {
      if Cuts(t) {
        LongestAtMost(t);
        ReadText(t, Longest(t).path, ok);
        ReplaceTexts(t, Longest(t).path, Utf8.Truncate(Read(t, Longest(t).path), Half(Longest(t).bytes)), ok);
      } else if DropEntry(t).More? {
        var i := LastRemovable(t.kids);
        var rest := t.kids[..i] + t.kids[i + 1..];
        assert forall j :: 0 <= j < |rest| ==> rest[j] in t.kids;
      }
    }
  }

  /** Such a property, once true of every string of the tree, is true of every string of the
      result. */
  lemma {:induction false} PassesTexts(t: Tree, n: nat, limit: nat, c: Cost, ok: string -> bool)
    requires Lasting(ok) && AllTexts(t, ok)
    ensures AllTexts(Passes(t, n, limit, c).tree, ok)
    decreases n
  {
    if n > 0 {
      PassTexts(t, limit, c, ok);
      var step := Pass(t, limit, c);
      if step.More? { PassesTexts(step.tree, n - 1, limit, c, ok); }
    }
  }
}
