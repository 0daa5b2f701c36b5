/**
 The last resort after an overflow: cut the middle out of the largest messages.
 */
module Shrink {
  import opened Wrappers
  import opened Rounds
  import opened Text

  /** A structured projection of a code-tool result, if the message has one; `limit` in characters. */
  type CodeProjection = (Message, int) -> Option<string>

  ghost predicate WithinLimit(code: CodeProjection) {
    forall m, limit :: code(m, limit).Some? ==> |code(m, limit).value| <= limit
  }

  const BYTES_PER_TOKEN := 4

  function Evolve(m: Message, content: string, marker: Marker): Message {
    m.(content := content, compressed := marker, version := m.version + 1)
  }

  /** 23 is the length of the omission note written with four digits and one newline. */
  function FloorLength(k: nat): nat { 2 * k + 23 }

  predicate Oversize(m: Message, k: nat) {
    !IsPreserved(m) && |m.content| > FloorLength(k)
  }

  /** Keep `k` characters from each end; with `k == 0` the tail slice is the whole text. */
  function Elide(content: string, k: nat): string
    requires |content| > FloorLength(k)
  {
    content[..k] + "\n[truncated " + Decimal(|content| - 2 * k) + " chars]\n"
    + (if k == 0 then content else content[|content| - k..])
  }

  function Shrunk(m: Message, k: nat, code: CodeProjection): Message
    requires |m.content| > FloorLength(k)
  {
    var projected := code(m, FloorLength(k));
    Evolve(m, if projected.Some? && projected.value != "" then projected.value else Elide(m.content, k), PtlShrink)
  }

  // ----- One message

  lemma {:induction false} DecimalLength(n: nat)
    ensures n >= 24 ==> |Decimal(n)| <= n - 22
    ensures 1 <= |Decimal(n)|
    ensures n < 10 ==> |Decimal(n)| == 1
    ensures 10 <= n < 100 ==> |Decimal(n)| == 2
    decreases n
  {
    if n >= 10 { DecimalLength(n / 10); }
  }

  /** Cutting makes an oversize message strictly shorter when something is kept at each end ... */
  lemma ShrunkIsShorter(m: Message, k: nat, code: CodeProjection)
    requires |m.content| > FloorLength(k) && WithinLimit(code) && k >= 1
    ensures |Shrunk(m, k, code).content| < |m.content|
  {
    DecimalLength(|m.content| - 2 * k);
  }

  /** ... and strictly longer when nothing is to be kept. */
  lemma ShrunkGrowsAtZero(m: Message, code: CodeProjection)
    requires |m.content| > FloorLength(0) && code(m, FloorLength(0)) == None
    ensures |Shrunk(m, 0, code).content| > |m.content|
  {
  }

  // ----- Largest first

  ghost predicate InRange(ms: seq<Message>, order: seq<nat>) {
    forall a :: 0 <= a < |order| ==> order[a] < |ms|
  }

  /** Insert index `i` after every index whose message is at least as long. */
  function Place(ms: seq<Message>, i: nat, order: seq<nat>): seq<nat>
    requires i < |ms| && InRange(ms, order)
  {
    if order == [] then [i]
    else if |ms[order[0]].content| < |ms[i].content| then [i] + order
    else [order[0]] + Place(ms, i, order[1..])
  }

  /** The order of the pass: longer messages first, and of equally long ones the earlier first. */
  predicate Sooner(ms: seq<Message>, i: nat, j: nat)
    requires i < |ms| && j < |ms|
  {
    |ms[i].content| > |ms[j].content| || (|ms[i].content| == |ms[j].content| && i < j)
  }

  ghost predicate Descending(ms: seq<Message>, order: seq<nat>)
    requires InRange(ms, order)
  {
    order == [] || (
      && order[0] !in order[1..]
      && (forall a :: 1 <= a < |order| ==> Sooner(ms, order[0], order[a]))
      && Descending(ms, order[1..]))
  }

  lemma {:induction false} DescendingAt(ms: seq<Message>, order: seq<nat>, a: nat, b: nat)
    requires InRange(ms, order) && Descending(ms, order) && a < b < |order|
    ensures order[a] != order[b] && Sooner(ms, order[a], order[b])
  {
    if a > 0 { DescendingAt(ms, order[1..], a - 1, b - 1); } else { assert order[b] in order[1..]; }
  }

  lemma {:induction false} PlaceKeepsDescending(ms: seq<Message>, i: nat, order: seq<nat>)
    requires i < |ms| && InRange(ms, order) && Descending(ms, order) && forall j :: j in order ==> j < i
    ensures var r := Place(ms, i, order);
            InRange(ms, r) && Descending(ms, r) && forall j :: j in r <==> j == i || j in order
  {
    if order != [] {
      assert order == [order[0]] + order[1..];
      if |ms[order[0]].content| < |ms[i].content| {
        assert ([i] + order)[1..] == order;
      } else {
        assert order[0] in order && forall j :: j in order[1..] ==> j in order;
        PlaceKeepsDescending(ms, i, order[1..]);
        var rest := Place(ms, i, order[1..]);
        assert ([order[0]] + rest)[1..] == rest;
        forall a | 0 <= a < |rest| ensures Sooner(ms, order[0], rest[a]) {
          assert rest[a] in rest;
          if rest[a] != i { var b :| 0 <= b < |order[1..]| && order[1..][b] == rest[a]; }
        }
      }
    }
  }

  method SizeOrder(ms: seq<Message>) returns (order: seq<nat>)
    ensures InRange(ms, order) && Descending(ms, order)
    ensures forall i: nat :: i in order <==> i < |ms| && !IsPreserved(ms[i])
  {
    order := [];
    for i := 0 to |ms|
      invariant InRange(ms, order) && Descending(ms, order)
      invariant forall j: nat :: j in order <==> j < i && !IsPreserved(ms[j])
    {
      if !IsPreserved(ms[i]) {
        PlaceKeepsDescending(ms, i, order);
        order := Place(ms, i, order);
      }
    }
  }

  // ----- The shrink pass

  lemma {:induction false} CharsUpdate(ms: seq<Message>, i: nat, m: Message)
    requires i < |ms|
    ensures Chars(ms[i := m]) == Chars(ms) - |ms[i].content| + |m.content|
  {
    if i > 0 {
      assert ms[i := m][1..] == ms[1..][i - 1 := m];
      CharsUpdate(ms[1..], i - 1, m);
    }
  }

  /** Whole tokens' worth of characters that rewriting `m` to `m'` saves. */
  function Saved(m: Message, m': Message): nat {
    if |m.content| > |m'.content| then (|m.content| - |m'.content|) / BYTES_PER_TOKEN else 0
  }

  function Shed(before: seq<Message>, after: seq<Message>): nat
    requires |before| == |after|
  {
    if before == [] then 0 else Saved(before[0], after[0]) + Shed(before[1..], after[1..])
  }

  lemma {:induction false} ShedUpdate(before: seq<Message>, after: seq<Message>, i: nat, m: Message)
    requires |before| == |after| && i < |before| && after[i] == before[i]
    ensures Shed(before, after[i := m]) == Shed(before, after) + Saved(before[i], m)
  {
    if i > 0 {
      assert after[i := m][1..] == after[1..][i - 1 := m];
      ShedUpdate(before[1..], after[1..], i - 1, m);
    }
  }

  lemma {:induction false} ShedNothing(ms: seq<Message>)
    ensures Shed(ms, ms) == 0
  {
    if ms != [] { ShedNothing(ms[1..]); }
  }

  /** Each position is untouched, or an oversize message there has been cut. */
  ghost predicate PartlyShrunk(before: seq<Message>, after: seq<Message>, k: nat, code: CodeProjection) {
    && |after| == |before|
    && forall i :: 0 <= i < |before| ==>
         after[i] == before[i] || (Oversize(before[i], k) && after[i] == Shrunk(before[i], k, code))
  }

  /** No message was spared while a smaller one was cut, nor while an equally long one after it was. */
  ghost predicate LargestFirst(before: seq<Message>, after: seq<Message>, k: nat) {
    |after| == |before| &&
    forall i, j :: 0 <= i < |before| && 0 <= j < |before| && Oversize(before[i], k)
                   && after[i] == before[i] && after[j] != before[j] ==>
                     Sooner(before, j, i)
  }

  ghost predicate AllShrunk(before: seq<Message>, after: seq<Message>, k: nat) {
    |after| == |before| && forall i :: 0 <= i < |before| && Oversize(before[i], k) ==> after[i] != before[i]
  }

  /** Without one of its cuts the pass had not shed enough. */
  ghost predicate NoCutTooMany(before: seq<Message>, after: seq<Message>, tokensToDrop: int) {
    |after| == |before| &&
    exists i :: 0 <= i < |before| && after[i] != before[i] && Shed(before, after[i := before[i]]) < tokensToDrop
  }

  function Target(m: Message, k: nat, code: CodeProjection): Message {
    if |m.content| > FloorLength(k) then Shrunk(m, k, code) else m
  }

  /** The state of the pass after the first `p` indices of `order`. */
  ghost predicate Progress(ms: seq<Message>, order: seq<nat>, p: nat, r: seq<Message>, k: nat, code: CodeProjection)
    requires InRange(ms, order) && p <= |order|
  {
    && |r| == |ms|
    && (forall i :: 0 <= i < |r| && i !in order[..p] ==> r[i] == ms[i])
    && (forall a :: 0 <= a < p ==>
          r[order[a]] == Target(ms[order[a]], k, code))
  }

  lemma NextIsNew(ms: seq<Message>, order: seq<nat>, p: nat)
    requires InRange(ms, order) && Descending(ms, order) && p < |order|
    ensures forall a :: 0 <= a < p ==> order[a] != order[p]
    ensures order[p] !in order[..p]
    ensures forall i :: i in order[..p + 1] <==> i == order[p] || i in order[..p]
  {
    assert order[..p + 1] == order[..p] + [order[p]];
    forall a | 0 <= a < p ensures order[a] != order[p] { DescendingAt(ms, order, a, p); }
  }

  lemma ProgressStep(ms: seq<Message>, order: seq<nat>, p: nat, r: seq<Message>, k: nat, code: CodeProjection)
    requires InRange(ms, order) && Descending(ms, order) && p < |order| && Progress(ms, order, p, r, k, code)
    ensures r[order[p]] == ms[order[p]]
    ensures Progress(ms, order, p + 1, r[order[p] := Target(ms[order[p]], k, code)], k, code)
  {
    NextIsNew(ms, order, p);
    var next := r[order[p] := Target(ms[order[p]], k, code)];
    forall i | 0 <= i < |next| && i !in order[..p + 1] ensures next[i] == ms[i] {}
    forall a | 0 <= a < p + 1 ensures next[order[a]] == Target(ms[order[a]], k, code) {}
  }

  /** However far the pass got, it cut only oversize messages and the largest of them. */
  lemma ProgressMeans(ms: seq<Message>, order: seq<nat>, p: nat, r: seq<Message>, k: nat, code: CodeProjection)
    requires InRange(ms, order) && Descending(ms, order) && p <= |order| && Progress(ms, order, p, r, k, code)
    requires forall i: nat :: i in order <==> i < |ms| && !IsPreserved(ms[i])
    ensures PartlyShrunk(ms, r, k, code) && LargestFirst(ms, r, k)
    ensures p == |order| ==> AllShrunk(ms, r, k)
  {
    forall i | 0 <= i < |ms| ensures r[i] == ms[i] || (Oversize(ms[i], k) && r[i] == Shrunk(ms[i], k, code)) {
      if i in order[..p] {
        var a :| 0 <= a < p && order[a] == i;
        assert i in order;
      }
    }
    forall i, j | 0 <= i < |ms| && 0 <= j < |ms| && Oversize(ms[i], k) && r[i] == ms[i] && r[j] != ms[j]
      ensures Sooner(ms, j, i)
    {
      assert i in order && j in order[..p];
      var a :| 0 <= a < p && order[a] == j;
      var b :| 0 <= b < |order| && order[b] == i;
      assert r[order[b]] == ms[i] && b >= p;
      DescendingAt(ms, order, a, b);
    }
    if p == |order| {
      forall i | 0 <= i < |ms| && Oversize(ms[i], k) ensures r[i] != ms[i] {
        assert i in order;
        var b :| 0 <= b < |order| && order[b] == i;
        assert r[order[b]] == Shrunk(ms[i], k, code);
      }
    }
  }

  lemma CutOne(messages: seq<Message>, r: seq<Message>, i: nat, k: nat, code: CodeProjection)
    requires WithinLimit(code) && |r| == |messages| && i < |r| && r[i] == messages[i]
    requires |messages[i].content| > FloorLength(k)
    ensures var m := Shrunk(messages[i], k, code);
            && r[i := m] != messages && m != messages[i]
            && Shed(messages, r[i := m]) == Shed(messages, r) + Saved(messages[i], m)
            && (k >= 1 ==> Chars(r[i := m]) < Chars(r))
  {
    var m := Shrunk(messages[i], k, code);
    CharsUpdate(r, i, m);
    ShedUpdate(messages, r, i, m);
    if k >= 1 { ShrunkIsShorter(messages[i], k, code); }
    assert r[i := m][i].version != messages[i].version;
  }

  lemma OneMoreCut(messages: seq<Message>, r: seq<Message>, i: nat, m: Message, tokensToDrop: int)
    requires |r| == |messages| && i < |r| && r[i] == messages[i] && m != messages[i]
    requires Shed(messages, r) < tokensToDrop
    ensures NoCutTooMany(messages, r[i := m], tokensToDrop)
  {
    var next := r[i := m];
    assert next[i := messages[i]] == r && next[i] != messages[i];
  }

  /** The pass over the messages in order of size, until enough is shed. */
  method ShrinkPass(messages: seq<Message>, order: seq<nat>, tokensToDrop: int, k: nat, code: CodeProjection)
    returns (r: seq<Message>, p: nat)
    requires WithinLimit(code) && tokensToDrop > 0 && InRange(messages, order) && Descending(messages, order)
    ensures p <= |order| && Progress(messages, order, p, r, k, code)
    ensures p == |order| || Shed(messages, r) >= tokensToDrop
    ensures Shed(messages, r) >= tokensToDrop ==> r != messages
    ensures r != messages ==> NoCutTooMany(messages, r, tokensToDrop)
    ensures k >= 1 && r != messages ==> Chars(r) < Chars(messages)
  {
    r, p := messages, 0;
    var dropped := 0;
    ShedNothing(messages);
    while p < |order| && dropped < tokensToDrop
      invariant 0 <= p <= |order| && Progress(messages, order, p, r, k, code)
      invariant dropped == Shed(messages, r)
      invariant r != messages ==> NoCutTooMany(messages, r, tokensToDrop)
      invariant k >= 1 && r != messages ==> Chars(r) < Chars(messages)
    {
      var i := order[p];
      ProgressStep(messages, order, p, r, k, code);
      if |messages[i].content| > FloorLength(k) {
        CutOne(messages, r, i, k, code);
        OneMoreCut(messages, r, i, Shrunk(messages[i], k, code), tokensToDrop);
        dropped := dropped + Saved(messages[i], Shrunk(messages[i], k, code));
        r := r[i := Shrunk(messages[i], k, code)];
      } else {
        assert r == r[i := messages[i]];
      }
      p := p + 1;
    }
  }

  method ShrinkOversize(messages: seq<Message>, tokensToDrop: int, k: nat, code: CodeProjection)
    returns (result: Option<seq<Message>>)
    requires WithinLimit(code)
    ensures result.None? <==> tokensToDrop <= 0 || forall i :: 0 <= i < |messages| ==> !Oversize(messages[i], k)
    ensures result.Some? ==>
              && PartlyShrunk(messages, result.value, k, code)
              && LargestFirst(messages, result.value, k)
              && (Shed(messages, result.value) >= tokensToDrop || AllShrunk(messages, result.value, k))
              && NoCutTooMany(messages, result.value, tokensToDrop)
    ensures result.Some? && k >= 1 ==> Chars(result.value) < Chars(messages)
  {
    if tokensToDrop <= 0 { return None; }
    var order := SizeOrder(messages);
    var r, p := ShrinkPass(messages, order, tokensToDrop, k, code);
    ProgressMeans(messages, order, p, r, k, code);
    if r == messages { return None; }
    result := Some(r);
    assert exists i :: 0 <= i < |r| && r[i] != messages[i];
  }

  lemma PartlyShrunkKeepsRounds(before: seq<Message>, after: seq<Message>, k: nat, code: CodeProjection)
    requires PartlyShrunk(before, after, k, code)
    ensures SameShape(before, after) && RoundLengths(before) == RoundLengths(after)
    ensures forall i :: 0 <= i < |before| && IsPreserved(before[i]) ==> after[i] == before[i]
  {
    ShapeKeepsRounds(before, after);
  }

  /** Shrinking again and again ends, with nothing left to cut. */
  method ShrinkUntilNone(messages: seq<Message>, tokensToDrop: int, k: nat, code: CodeProjection)
    returns (r: seq<Message>)
    requires WithinLimit(code) && k >= 1 && tokensToDrop > 0
    ensures SameShape(messages, r) && Chars(r) <= Chars(messages)
    ensures forall i :: 0 <= i < |r| ==> !Oversize(r[i], k)
  {
    r := messages;
    var next := ShrinkOversize(r, tokensToDrop, k, code);
    while next.Some?
      invariant SameShape(messages, r) && Chars(r) <= Chars(messages)
      invariant next.None? ==> forall i :: 0 <= i < |r| ==> !Oversize(r[i], k)
      invariant next.Some? ==> SameShape(messages, next.value) && Chars(next.value) < Chars(r)
      decreases Chars(r), if next.Some? then 1 else 0
    {
      r := next.value;
      next := ShrinkOversize(r, tokensToDrop, k, code);
    }
  }

  /** A message is oversize when it is longer than both ends with a note of four digits and one line break. */
  lemma FloorIsEndsAndNote(k: nat)
    ensures FloorLength(k) == k + |"\n[truncated NNNN chars]"| + k
  {}

  // ----- What text a cut message holds

  function Note(n: nat): string { "\n[truncated " + Decimal(n) + " chars]\n" }

  /** The first and the last `k` characters around a note that says how many were left out; with nothing to keep,
      the whole text after the note. */
  ghost predicate MiddleOmitted(before: string, after: string, k: nat) {
    && 2 * k <= |before|
    && var note := Note(|before| - 2 * k);
       if k == 0 then after == note + before
       else
         && |after| == 2 * k + |note| && after[..k] == before[..k] && after[k..k + |note|] == note
         && after[k + |note|..] == before[|before| - k..]
  }

  lemma ElideParts(s: string, k: nat)
    requires |s| > FloorLength(k)
    ensures MiddleOmitted(s, Elide(s, k), k)
  {
    var note, tail := Note(|s| - 2 * k), if k == 0 then s else s[|s| - k..];
    var text := s[..k] + note + tail;
    assert Elide(s, k) == text;
    assert text[..k] == s[..k] && text[k..k + |note|] == note && text[k + |note|..] == tail;
  }

  /** A cut message is the same message, one version later, with its projection or with its middle left out. */
  lemma ShrunkText(m: Message, k: nat, code: CodeProjection)
    requires |m.content| > FloorLength(k)
    ensures var r, projected := Shrunk(m, k, code), code(m, FloorLength(k));
            && r == m.(content := r.content, compressed := PtlShrink, version := m.version + 1)
            && if projected.Some? && projected.value != "" then r.content == projected.value
               else MiddleOmitted(m.content, r.content, k)
  {
    ElideParts(m.content, k);
  }
}
