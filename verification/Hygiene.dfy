/**
 The per-turn hygiene stages: snip long tool results, then clear stale ones.
 */
module Hygiene {
  import opened Wrappers
  import opened Rounds

  /** A structured projection of a code-tool result: message, limit, whether text is kept. */
  type CodeProjection = (Message, int, bool) -> Option<string>

  const CLEARED := "[Old tool result content cleared]"

  function Rewrite(m: Message, projected: Option<string>, fallback: string, marker: Marker): Message {
    m.(content := if projected.Some? && projected.value != "" then projected.value else fallback,
       compressed := marker, version := m.version + 1)
  }

  // ----- Snip

  function Head(s: string, n: nat): string { if n < |s| then s[..n] else s }
  function Tail(s: string, n: nat): string { if n < |s| then s[|s| - n..] else s }

  function SnipOne(m: Message, limit: int, code: CodeProjection): Message {
    if m.compressed != Unmarked || IsPreserved(m) then m
    else if m.role == Tool && |m.content| > limit then
      var half := if limit / 2 > 100 then limit / 2 else 100;
      Rewrite(m, code(m, limit, true), Head(m.content, half) + "\n[snip]\n" + Tail(m.content, half), Rounds.Snip)
    else m
  }

  function Snip(ms: seq<Message>, limit: int, code: CodeProjection): seq<Message> {
    if ms == [] then [] else [SnipOne(ms[0], limit, code)] + Snip(ms[1..], limit, code)
  }

  // ----- Microcompact

  predicate Clearable(m: Message) {
    m.role == Tool && !m.pinned && m.compressed == Unmarked && m.content != CLEARED
  }

  function Cleared(m: Message, code: CodeProjection): Message {
    Rewrite(m, code(m, if |m.content| - 1 < 400 then |m.content| - 1 else 400, false), CLEARED, Microcompact)
  }

  function ClearIfAllowed(m: Message, code: CodeProjection): Message {
    if Clearable(m) then Cleared(m, code) else m
  }

  function Tools(ms: seq<Message>): nat {
    if ms == [] then 0 else (if ms[0].role == Tool then 1 else 0) + Tools(ms[1..])
  }

  function ToolChars(ms: seq<Message>): nat {
    if ms == [] then 0 else (if ms[0].role == Tool then |ms[0].content| else 0) + ToolChars(ms[1..])
  }

  /** A tool result with at least `keep` tool results after it is stale. */
  function ClearStale(ms: seq<Message>, keep: nat, code: CodeProjection): seq<Message> {
    if ms == [] then []
    else
      [if Tools(ms[1..]) >= keep && Clearable(ms[0]) then Cleared(ms[0], code) else ms[0]]
      + ClearStale(ms[1..], keep, code)
  }

  /** Clear from the oldest while `total` is over `budget` and a later tool result remains. */
  function ClearOverBudget(ms: seq<Message>, total: int, budget: int, code: CodeProjection): seq<Message> {
    if ms == [] || total <= budget || Tools(ms[1..]) == 0 then ms
    else
      var m := ClearIfAllowed(ms[0], code);
      [m] + ClearOverBudget(ms[1..], total - (|ms[0].content| - |m.content|), budget, code)
  }

  function MicrocompactSpec(ms: seq<Message>, keep: nat, budget: int, code: CodeProjection): seq<Message> {
    var once := ClearStale(ms, keep, code);
    if budget > 0 then ClearOverBudget(once, ToolChars(once), budget, code) else once
  }

  /** The window of recent results kept; it never falls below one. */
  function KeepWindow(base: int, aggressive: bool): nat {
    var k := if aggressive then base / 2 else base;
    if k < 1 then 1 else k
  }

  function CheapStages(ms: seq<Message>, limit: int, keep: nat, budget: int, code: CodeProjection): seq<Message> {
    MicrocompactSpec(Snip(ms, limit, code), keep, budget, code)
  }

  // ----- The loops

  lemma {:induction false} ToolsConcat(a: seq<Message>, b: seq<Message>)
    ensures Tools(a + b) == Tools(a) + Tools(b)
  {
    if a == [] {
      assert a + b == b;
    } else {
      assert (a + b)[1..] == a[1..] + b;
      ToolsConcat(a[1..], b);
    }
  }

  method SnipLoop(messages: seq<Message>, limit: int, code: CodeProjection) returns (snipped: seq<Message>)
    ensures snipped == Snip(messages, limit, code)
  {
    snipped := [];
    assert messages[0..] == messages;
    for i := 0 to |messages|
      invariant snipped + Snip(messages[i..], limit, code) == Snip(messages, limit, code)
    {
      assert messages[i..][1..] == messages[i + 1..];
      snipped := snipped + [SnipOne(messages[i], limit, code)];
    }
  }

  method ToolPositions(messages: seq<Message>) returns (positions: seq<nat>)
    ensures |positions| == Tools(messages)
    ensures forall p :: p in positions ==> p < |messages|
  {
    positions := [];
    assert messages[0..] == messages;
    for i := 0 to |messages|
      invariant |positions| + Tools(messages[i..]) == Tools(messages)
      invariant forall p :: p in positions ==> p < i
    {
      assert messages[i..][1..] == messages[i + 1..];
      if messages[i].role == Tool { positions := positions + [i]; }
    }
  }

  /** Where the stale loop is: `done` is final, the rest is untouched, and `ordinal` results are behind. */
  ghost predicate StaleAt(done: seq<Message>, messages: seq<Message>, i: nat, ordinal: nat, keep: nat,
                          code: CodeProjection, goal: seq<Message>) {
    && i <= |messages| && ordinal + Tools(messages[i..]) == Tools(messages)
    && done + ClearStale(messages[i..], keep, code) == goal
  }

  lemma StaleUnfold(messages: seq<Message>, i: nat, keep: nat, code: CodeProjection)
    requires i < |messages|
    ensures var m := messages[i];
            var next := if Tools(messages[i + 1..]) >= keep && Clearable(m) then Cleared(m, code) else m;
            ClearStale(messages[i..], keep, code) == [next] + ClearStale(messages[i + 1..], keep, code)
    ensures Tools(messages[i..]) == (if messages[i].role == Tool then 1 else 0) + Tools(messages[i + 1..])
  {
    assert messages[i..][1..] == messages[i + 1..];
  }

  lemma Shifted(done: seq<Message>, next: Message, rest: seq<Message>)
    ensures done + ([next] + rest) == done + [next] + rest
  {}

  lemma StaleAdvance(done: seq<Message>, messages: seq<Message>, i: nat, ordinal: nat, keep: nat,
                     code: CodeProjection, goal: seq<Message>, staleCount: int)
    requires StaleAt(done, messages, i, ordinal, keep, code, goal) && i < |messages|
    requires staleCount == if Tools(messages) > keep then Tools(messages) - keep else 0
    ensures var m := messages[i];
            var next := if m.role == Tool && ordinal < staleCount && Clearable(m) then Cleared(m, code) else m;
            StaleAt(done + [next], messages, i + 1, ordinal + if m.role == Tool then 1 else 0, keep, code, goal)
  {
    var m := messages[i];
    StaleUnfold(messages, i, keep, code);
    ghost var cleared := Cleared(m, code);
    ghost var next := if Tools(messages[i + 1..]) >= keep && Clearable(m) then cleared else m;
    Shifted(done, next, ClearStale(messages[i + 1..], keep, code));
    assert m.role == Tool ==> (Tools(messages[i + 1..]) >= keep <==> ordinal < staleCount);
  }

  method StaleLoop(messages: seq<Message>, keep: nat, code: CodeProjection) returns (compacted: seq<Message>)
    ensures compacted == ClearStale(messages, keep, code)
  {
    var positions := ToolPositions(messages);
    var staleCount := if |positions| > keep then |positions| - keep else 0;
    compacted := [];
    var ordinal := 0;
    ghost var goal := ClearStale(messages, keep, code);
    assert messages[0..] == messages;
    for i := 0 to |messages|
      invariant StaleAt(compacted, messages, i, ordinal, keep, code, goal)
    {
      StaleAdvance(compacted, messages, i, ordinal, keep, code, goal, staleCount);
      var message := messages[i];
      var stale := message.role == Tool && ordinal < staleCount;
      compacted := compacted + [if stale && Clearable(message) then Cleared(message, code) else message];
      if message.role == Tool { ordinal := ordinal + 1; }
    }
  }

  /** One turn of the budget loop, in terms of what is done and what is left. */
  lemma BudgetStep(done: seq<Message>, messages: seq<Message>, index: nat, total: int, budget: int,
      code: CodeProjection)
    requires index < |messages| && |done| == index && total > budget && Tools(messages[index + 1..]) > 0
    ensures var m := ClearIfAllowed(messages[index], code);
            && done + ClearOverBudget(messages[index..], total, budget, code)
               == done + [m] + ClearOverBudget(messages[index + 1..],
                   total - (|messages[index].content| - |m.content|), budget, code)
            && (done + messages[index..])[index := m] == done + [m] + messages[index + 1..]
            && (m == messages[index] ==> done + messages[index..] == done + [m] + messages[index + 1..])
  {
    assert messages[index..] == [messages[index]] + messages[index + 1..];
  }

  /** Where the budget loop is: `done` is final, the rest is untouched. */
  ghost predicate BudgetAt(done: seq<Message>, compacted: seq<Message>, messages: seq<Message>, index: nat,
                           total: int, budget: int, code: CodeProjection, goal: seq<Message>) {
    && index <= |messages| && |done| == index && compacted == done + messages[index..]
    && done + ClearOverBudget(messages[index..], total, budget, code) == goal
  }

  ghost predicate ClearedTo(m: Message, next: Message, code: CodeProjection) { next == ClearIfAllowed(m, code) }

  lemma BudgetAdvance(done: seq<Message>, compacted: seq<Message>, messages: seq<Message>, index: nat,
                      total: int, budget: int, code: CodeProjection, goal: seq<Message>, m: Message)
    requires BudgetAt(done, compacted, messages, index, total, budget, code, goal)
    requires index < |messages| && total > budget && Tools(messages[index + 1..]) > 0
    requires ClearedTo(compacted[index], m, code)
    ensures BudgetAt(done + [m], compacted[index := m], messages, index + 1,
                     total - (|compacted[index].content| - |m.content|), budget, code, goal)
  {
    BudgetStep(done, messages, index, total, budget, code);
  }

  lemma BudgetEnd(done: seq<Message>, compacted: seq<Message>, messages: seq<Message>, index: nat,
                  total: int, budget: int, code: CodeProjection, goal: seq<Message>)
    requires BudgetAt(done, compacted, messages, index, total, budget, code, goal)
    requires index == |messages| || total <= budget || Tools(messages[index + 1..]) == 0
    ensures compacted == goal
  {
    if index < |messages| { assert messages[index..][1..] == messages[index + 1..]; }
  }

  lemma BudgetStart(messages: seq<Message>, total: int, budget: int, code: CodeProjection)
    ensures BudgetAt([], messages, messages, 0, total, budget, code, ClearOverBudget(messages, total, budget, code))
  {
    assert messages[0..] == messages;
  }

  /** The body of the budget loop. */
  method ClearOne(compacted: seq<Message>, index: nat, total: int, code: CodeProjection)
    returns (next: seq<Message>, rest: int)
    requires index < |compacted|
    ensures |next| == |compacted| && ClearedTo(compacted[index], next[index], code)
    ensures next == compacted[index := next[index]]
    ensures rest == total - (|compacted[index].content| - |next[index].content|)
  {
    next, rest := compacted, total;
    var message := compacted[index];
    if Clearable(message) {
      var content := Cleared(message, code).content;
      next := compacted[index := Cleared(message, code)];
      rest := total - (|message.content| - |content|);
    }
  }

  method ClearWhileOver(messages: seq<Message>, initial: int, budget: int, code: CodeProjection,
      ghost goal: seq<Message>)
    returns (compacted: seq<Message>)
    requires BudgetAt([], messages, messages, 0, initial, budget, code, goal)
    ensures compacted == goal
  {
    compacted := messages;
    var total, index := initial, 0;
    ghost var done := [];
    while index < |messages| && total > budget && Tools(messages[index + 1..]) > 0
      invariant 0 <= index <= |messages| && |compacted| == |messages|
      invariant BudgetAt(done, compacted, messages, index, total, budget, code, goal)
      decreases |messages| - index
    {
      ghost var before, left := compacted, total;
      compacted, total := ClearOne(compacted, index, total, code);
      BudgetAdvance(done, before, messages, index, left, budget, code, goal, compacted[index]);
      done := done + [compacted[index]];
      index := index + 1;
    }
    BudgetEnd(done, compacted, messages, index, total, budget, code, goal);
  }

  method BudgetLoop(messages: seq<Message>, budget: int, code: CodeProjection) returns (compacted: seq<Message>)
    ensures compacted == ClearOverBudget(messages, ToolChars(messages), budget, code)
  {
    var total := ToolChars(messages);
    BudgetStart(messages, total, budget, code);
    compacted := ClearWhileOver(messages, total, budget, code, ClearOverBudget(messages, total, budget, code));
  }

  method RunCheapStages(messages: seq<Message>, maxMessageChars: int, keepRecent: int, budget: int,
                        aggressive: bool, code: CodeProjection)
    returns (current: seq<Message>)
    ensures current == CheapStages(messages, if aggressive then maxMessageChars / 2 else maxMessageChars,
                                   KeepWindow(keepRecent, aggressive), budget, code)
  {
    var limit := if aggressive then maxMessageChars / 2 else maxMessageChars;
    current := SnipLoop(messages, limit, code);
    current := StaleLoop(current, KeepWindow(keepRecent, aggressive), code);
    if budget > 0 { current := BudgetLoop(current, budget, code); }
  }

  // ----- Idempotence

  /** No message would be snipped again. */
  ghost predicate SnipStable(ms: seq<Message>, limit: int, code: CodeProjection) {
    ms == [] || (SnipOne(ms[0], limit, code) == ms[0] && SnipStable(ms[1..], limit, code))
  }

  /** No stale result is left to clear. */
  ghost predicate Settled(ms: seq<Message>, keep: nat) {
    ms == [] || ((Tools(ms[1..]) >= keep ==> !Clearable(ms[0])) && Settled(ms[1..], keep))
  }

  lemma {:induction false} SnipIsStable(ms: seq<Message>, limit: int, code: CodeProjection)
    ensures SnipStable(Snip(ms, limit, code), limit, code)
  {
    if ms != [] { SnipIsStable(ms[1..], limit, code); }
  }

  lemma {:induction false} StableIsFixed(ms: seq<Message>, limit: int, code: CodeProjection)
    requires SnipStable(ms, limit, code)
    ensures Snip(ms, limit, code) == ms
  {
    if ms != [] { StableIsFixed(ms[1..], limit, code); }
  }

  lemma {:induction false} ClearStaleSettles(ms: seq<Message>, keep: nat, limit: int, code: CodeProjection)
    ensures var r := ClearStale(ms, keep, code);
            && Tools(r) == Tools(ms) && Settled(r, keep)
            && (SnipStable(ms, limit, code) ==> SnipStable(r, limit, code))
  {
    if ms != [] {
      ClearStaleSettles(ms[1..], keep, limit, code);
      assert ClearStale(ms, keep, code)[1..] == ClearStale(ms[1..], keep, code);
    }
  }

  lemma {:induction false} SettledIsFixed(ms: seq<Message>, keep: nat, code: CodeProjection)
    requires Settled(ms, keep)
    ensures ClearStale(ms, keep, code) == ms
  {
    if ms != [] { SettledIsFixed(ms[1..], keep, code); }
  }

  lemma {:induction false} BudgetKeepsSettled(ms: seq<Message>, total: int, budget: int, keep: nat, limit: int,
      code: CodeProjection)
    requires Settled(ms, keep) && SnipStable(ms, limit, code)
    ensures var r := ClearOverBudget(ms, total, budget, code);
            Tools(r) == Tools(ms) && Settled(r, keep) && SnipStable(r, limit, code)
    decreases |ms|
  {
    if !(ms == [] || total <= budget || Tools(ms[1..]) == 0) {
      var total' := total - (|ms[0].content| - |ClearIfAllowed(ms[0], code).content|);
      BudgetKeepsSettled(ms[1..], total', budget, keep, limit, code);
      assert ClearOverBudget(ms, total, budget, code)[1..] == ClearOverBudget(ms[1..], total', budget, code);
    }
  }

  /** Running the budget pass again from the total it ended with changes nothing. */
  lemma {:induction false} BudgetIsIdempotent(ms: seq<Message>, total: int, budget: int, code: CodeProjection)
    ensures var r := ClearOverBudget(ms, total, budget, code);
            && Tools(r) == Tools(ms)
            && ClearOverBudget(r, total + ToolChars(r) - ToolChars(ms), budget, code) == r
    decreases |ms|
  {
    if !(ms == [] || total <= budget || Tools(ms[1..]) == 0) {
      var total' := total - (|ms[0].content| - |ClearIfAllowed(ms[0], code).content|);
      BudgetIsIdempotent(ms[1..], total', budget, code);
      assert ClearOverBudget(ms, total, budget, code)[1..] == ClearOverBudget(ms[1..], total', budget, code);
    }
  }

  /** The hygiene pass with fixed parameters changes nothing the second time, versions included. */
  lemma CheapStagesIdempotent(ms: seq<Message>, limit: int, keep: nat, budget: int, code: CodeProjection)
    ensures var once := CheapStages(ms, limit, keep, budget, code);
            CheapStages(once, limit, keep, budget, code) == once
  {
    var snipped := Snip(ms, limit, code);
    SnipIsStable(ms, limit, code);
    ClearStaleSettles(snipped, keep, limit, code);
    var stale := ClearStale(snipped, keep, code);
    var once := CheapStages(ms, limit, keep, budget, code);
    if budget > 0 {
      BudgetKeepsSettled(stale, ToolChars(stale), budget, keep, limit, code);
      BudgetIsIdempotent(stale, ToolChars(stale), budget, code);
    }
    StableIsFixed(once, limit, code);
    SettledIsFixed(once, keep, code);
  }

  // ----- What the pass leaves alone

  lemma {:induction false} SnipKeepsShape(ms: seq<Message>, limit: int, code: CodeProjection)
    ensures SameShape(ms, Snip(ms, limit, code))
  {
    if ms != [] {
      SnipKeepsShape(ms[1..], limit, code);
      var r := Snip(ms, limit, code);
      assert forall i :: 1 <= i < |ms| ==> ms[i] == ms[1..][i - 1] && r[i] == r[1..][i - 1];
    }
  }

  /** A message with no tool result after it is unchanged. */
  ghost predicate KeepsLast(ms: seq<Message>, r: seq<Message>) {
    |r| == |ms| && forall i :: 0 <= i < |ms| && Tools(ms[i + 1..]) == 0 ==> r[i] == ms[i]
  }

  lemma KeepsLastCons(ms: seq<Message>, m: Message, rest: seq<Message>)
    requires ms != [] && KeepsLast(ms[1..], rest) && (Tools(ms[1..]) == 0 ==> m == ms[0])
    ensures KeepsLast(ms, [m] + rest)
  {
    var r := [m] + rest;
    forall i | 0 <= i < |ms| && Tools(ms[i + 1..]) == 0 ensures r[i] == ms[i] {
      if i > 0 {
        assert ms[i + 1..] == ms[1..][i - 1 + 1..];
        assert rest[i - 1] == ms[1..][i - 1];
      }
    }
  }

  lemma SameShapeCons(ms: seq<Message>, m: Message, rest: seq<Message>)
    requires ms != [] && SameShape(ms[1..], rest) && SameShape([ms[0]], [m])
    ensures SameShape(ms, [m] + rest)
  {
    assert ms == [ms[0]] + ms[1..];
  }

  lemma ClearedShape(m: Message, code: CodeProjection)
    ensures SameShape([m], [Cleared(m, code)])
  {}

  lemma {:induction false} StaleKeepsShape(ms: seq<Message>, keep: nat, code: CodeProjection)
    requires keep >= 1
    ensures SameShape(ms, ClearStale(ms, keep, code)) && KeepsLast(ms, ClearStale(ms, keep, code))
  {
    if ms != [] {
      StaleKeepsShape(ms[1..], keep, code);
      ClearedShape(ms[0], code);
      var m := if Tools(ms[1..]) >= keep && Clearable(ms[0]) then Cleared(ms[0], code) else ms[0];
      KeepsLastCons(ms, m, ClearStale(ms[1..], keep, code));
      SameShapeCons(ms, m, ClearStale(ms[1..], keep, code));
    }
  }

  lemma {:induction false} BudgetKeepsShape(ms: seq<Message>, total: int, budget: int, code: CodeProjection)
    ensures SameShape(ms, ClearOverBudget(ms, total, budget, code))
    ensures KeepsLast(ms, ClearOverBudget(ms, total, budget, code))
    decreases |ms|
  {
    if !(ms == [] || total <= budget || Tools(ms[1..]) == 0) {
      var m := ClearIfAllowed(ms[0], code);
      var total' := total - (|ms[0].content| - |m.content|);
      BudgetKeepsShape(ms[1..], total', budget, code);
      ClearedShape(ms[0], code);
      KeepsLastCons(ms, m, ClearOverBudget(ms[1..], total', budget, code));
      SameShapeCons(ms, m, ClearOverBudget(ms[1..], total', budget, code));
    }
  }

  lemma SameShapeTrans(a: seq<Message>, b: seq<Message>, c: seq<Message>)
    requires SameShape(a, b) && SameShape(b, c)
    ensures SameShape(a, c)
  {}

  lemma SameShapeTools(a: seq<Message>, b: seq<Message>, n: nat)
    requires SameShape(a, b) && n <= |a|
    ensures Tools(a[n..]) == Tools(b[n..])
  {
    SameShapeRest(a, b, n);
    ShapeKeepsTools(a[n..], b[n..]);
  }

  lemma {:induction false} ShapeKeepsTools(a: seq<Message>, b: seq<Message>)
    requires SameShape(a, b)
    ensures Tools(a) == Tools(b)
  {
    if a != [] { ShapeKeepsTools(a[1..], b[1..]); }
  }

  /** Hygiene keeps every message in its place and its round, and never clears the most recent
      tool result, neither as stale nor over budget. */
  lemma CheapStagesKeepStructure(ms: seq<Message>, limit: int, keep: nat, budget: int, code: CodeProjection, i: nat)
    requires keep >= 1 && i < |ms|
    ensures var r := CheapStages(ms, limit, keep, budget, code);
            && SameShape(ms, r) && RoundLengths(ms) == RoundLengths(r)
            && (Tools(ms[i + 1..]) == 0 ==> r[i] == SnipOne(ms[i], limit, code))
  {
    var snipped := Snip(ms, limit, code);
    var stale := ClearStale(snipped, keep, code);
    var r := CheapStages(ms, limit, keep, budget, code);
    SnipKeepsShape(ms, limit, code);
    SnipAt(ms, limit, code, i);
    StaleKeepsShape(snipped, keep, code);
    BudgetKeepsShape(stale, ToolChars(stale), budget, code);
    SameShapeTrans(ms, snipped, stale);
    if budget > 0 { SameShapeTrans(ms, stale, r); }
    SameShapeTools(ms, snipped, i + 1);
    SameShapeTools(snipped, stale, i + 1);
    ShapeKeepsRounds(ms, r);
  }

  lemma {:induction false} SnipAt(ms: seq<Message>, limit: int, code: CodeProjection, i: nat)
    requires i < |ms|
    ensures |Snip(ms, limit, code)| == |ms| && Snip(ms, limit, code)[i] == SnipOne(ms[i], limit, code)
  {
    if |ms| > 1 { SnipAt(ms[1..], limit, code, if i > 0 then i - 1 else 0); }
  }

  // ----- What the budget pass achieves

  ghost predicate NothingClearableBeforeLast(ms: seq<Message>) {
    forall i :: 0 <= i < |ms| && Tools(ms[i + 1..]) > 0 ==> !Clearable(ms[i])
  }

  lemma NothingClearableCons(m: Message, rest: seq<Message>)
    requires !Clearable(m) && NothingClearableBeforeLast(rest)
    ensures NothingClearableBeforeLast([m] + rest)
  {
    var r := [m] + rest;
    assert r[1..] == rest;
    forall i | 1 <= i < |r| && Tools(r[i + 1..]) > 0 ensures !Clearable(r[i]) {
      assert r[i] == rest[i - 1] && r[i + 1..] == rest[i - 1 + 1..];
    }
  }

  lemma OnlyLastLeft(ms: seq<Message>)
    requires ms != [] && Tools(ms[1..]) == 0
    ensures NothingClearableBeforeLast(ms)
  {
    forall j | 1 <= j <= |ms| ensures Tools(ms[j..]) == 0 {
      assert ms[1..] == ms[1..j] + ms[j..];
      ToolsConcat(ms[1..j], ms[j..]);
    }
  }

  lemma ClearedIsNotClearable(m: Message, code: CodeProjection)
    ensures !Clearable(ClearIfAllowed(m, code))
  {}

  /** After the budget pass the results fit, or only the most recent could still be cleared. */
  lemma {:induction false} BudgetMetOrExhausted(ms: seq<Message>, total: int, budget: int, code: CodeProjection)
    ensures var r := ClearOverBudget(ms, total, budget, code);
            total + ToolChars(r) - ToolChars(ms) <= budget || NothingClearableBeforeLast(r)
    decreases |ms|
  {
    if ms != [] && total > budget {
      if Tools(ms[1..]) == 0 {
        OnlyLastLeft(ms);
      } else {
        var m := ClearIfAllowed(ms[0], code);
        var total' := total - (|ms[0].content| - |m.content|);
        var rest := ClearOverBudget(ms[1..], total', budget, code);
        BudgetMetOrExhausted(ms[1..], total', budget, code);
        ClearedIsNotClearable(ms[0], code);
        CharsOfClear(ms, m, rest, code);
        if NothingClearableBeforeLast(rest) { NothingClearableCons(m, rest); }
      }
    }
  }

  lemma CharsOfClear(ms: seq<Message>, m: Message, rest: seq<Message>, code: CodeProjection)
    requires ms != [] && m == ClearIfAllowed(ms[0], code)
    ensures ToolChars([m] + rest) - ToolChars(ms)
            == ToolChars(rest) - ToolChars(ms[1..]) - (|ms[0].content| - |m.content|)
  {
    assert ([m] + rest)[1..] == rest;
  }

  // ----- What text a rewritten result holds

  const SNIPPED := "\n[snip]\n"

  /** The first and the last `n` characters of the old text, or all of it if it has fewer, around the note. */
  ghost predicate EndsKept(before: string, after: string, n: nat) {
    && |after| == 2 * n + |SNIPPED|
    && n <= |before| && after[..n] == before[..n]
    && after[n..n + |SNIPPED|] == SNIPPED
    && after[n + |SNIPPED|..] == before[|before| - n..]
  }

  /** The number of characters that snipping keeps at each end. */
  function Side(before: string, limit: int): nat {
    var half := if limit < 200 then 100 else limit / 2;
    if half < |before| then half else |before|
  }

  /** The text is the projection when there is one that is not empty, and otherwise as `other` says. */
  ghost predicate Projects(projected: Option<string>, text: string, other: bool) {
    if projected.Some? && projected.value != "" then text == projected.value else other
  }

  lemma EndsAround(s: string, half: nat)
    ensures EndsKept(s, Head(s, half) + SNIPPED + Tail(s, half), if half < |s| then half else |s|)
  {
    var n := if half < |s| then half else |s|;
    var text := Head(s, half) + SNIPPED + Tail(s, half);
    assert Head(s, half) == s[..n] && Tail(s, half) == s[|s| - n..];
    assert text[..n] == Head(s, half) && text[n..n + |SNIPPED|] == SNIPPED && text[n + |SNIPPED|..] == Tail(s, half);
  }

  /** Exactly the long tool results that are neither marked nor preserved are snipped; each holds its projection or
      its two ends around the note. */
  lemma SnippedText(ms: seq<Message>, limit: int, code: CodeProjection, i: nat)
    requires i < |ms|
    ensures |Snip(ms, limit, code)| == |ms|
    ensures var m, r := ms[i], Snip(ms, limit, code)[i];
            && (r != m <==> m.role == Tool && m.compressed == Unmarked && !IsPreserved(m) && |m.content| > limit)
            && (r != m ==>
                  && r == m.(content := r.content, compressed := Rounds.Snip, version := m.version + 1)
                  && Projects(code(m, limit, true), r.content,
                              EndsKept(m.content, r.content, Side(m.content, limit))))
  {
    SnipAt(ms, limit, code, i);
    var m := ms[i];
    EndsAround(m.content, if limit < 200 then 100 else limit / 2);
  }

  /** Without a projection a snipped text is shorter than it was if and only if what falls between the two ends is
      longer than the note, and longer if and only if that is shorter than the note. */
  lemma SnipShorterIff(before: string, after: string, limit: int)
    requires |before| > limit && EndsKept(before, after, Side(before, limit))
    ensures |after| < |before| <==> |before| > 2 * (if limit < 200 then 100 else limit / 2) + 8
    ensures |after| > |before| <==> |before| < 2 * (if limit < 200 then 100 else limit / 2) + 8
  {}

  /** A pass that clears: every message is as it was, or was clearable and is cleared. */
  ghost predicate OnlyCleared(ms: seq<Message>, r: seq<Message>, code: CodeProjection) {
    && |r| == |ms|
    && forall i :: 0 <= i < |ms| ==> r[i] == ms[i] || (Clearable(ms[i]) && r[i] == Cleared(ms[i], code))
  }

  lemma OnlyClearedCons(ms: seq<Message>, m: Message, rest: seq<Message>, code: CodeProjection)
    requires ms != [] && OnlyCleared(ms[1..], rest, code)
    requires m == ms[0] || (Clearable(ms[0]) && m == Cleared(ms[0], code))
    ensures OnlyCleared(ms, [m] + rest, code)
  {
    forall i | 1 <= i < |ms| ensures ms[i] == ms[1..][i - 1] && ([m] + rest)[i] == rest[i - 1] {}
  }

  lemma {:induction false} StaleOnlyClears(ms: seq<Message>, keep: nat, code: CodeProjection)
    ensures OnlyCleared(ms, ClearStale(ms, keep, code), code)
  {
    if ms != [] {
      StaleOnlyClears(ms[1..], keep, code);
      var m := if Tools(ms[1..]) >= keep && Clearable(ms[0]) then Cleared(ms[0], code) else ms[0];
      OnlyClearedCons(ms, m, ClearStale(ms[1..], keep, code), code);
    }
  }

  lemma {:induction false} BudgetOnlyClears(ms: seq<Message>, total: int, budget: int, code: CodeProjection)
    ensures OnlyCleared(ms, ClearOverBudget(ms, total, budget, code), code)
    decreases |ms|
  {
    if !(ms == [] || total <= budget || Tools(ms[1..]) == 0) {
      var m := ClearIfAllowed(ms[0], code);
      var total' := total - (|ms[0].content| - |m.content|);
      BudgetOnlyClears(ms[1..], total', budget, code);
      OnlyClearedCons(ms, m, ClearOverBudget(ms[1..], total', budget, code), code);
    }
  }

  /** A cleared message is not cleared again. */
  lemma OnlyClearedTrans(a: seq<Message>, b: seq<Message>, c: seq<Message>, code: CodeProjection)
    requires OnlyCleared(a, b, code) && OnlyCleared(b, c, code)
    ensures OnlyCleared(a, c, code)
  {}

  /** After the whole pass a message is as it was, or snipped, or cleared, and never both; a cleared one was a tool
      result and holds its projection or the fixed text. */
  lemma CheapStagesText(ms: seq<Message>, limit: int, keep: nat, budget: int, code: CodeProjection, i: nat)
    requires i < |ms|
    ensures |CheapStages(ms, limit, keep, budget, code)| == |Snip(ms, limit, code)| == |ms|
    ensures var m, r := ms[i], CheapStages(ms, limit, keep, budget, code)[i];
            || r == Snip(ms, limit, code)[i]
            || (&& Snip(ms, limit, code)[i] == m && m.role == Tool && !m.pinned && m.compressed == Unmarked
                && m.content != CLEARED
                && r == m.(content := r.content, compressed := Microcompact, version := m.version + 1)
                && Projects(code(m, if |m.content| > 400 then 400 else |m.content| - 1, false), r.content,
                            r.content == CLEARED))
  {
    SnipAt(ms, limit, code, i);
    CompactOnlyClears(Snip(ms, limit, code), keep, budget, code);
  }

  lemma CompactOnlyClears(ms: seq<Message>, keep: nat, budget: int, code: CodeProjection)
    ensures OnlyCleared(ms, MicrocompactSpec(ms, keep, budget, code), code)
  {
    var stale := ClearStale(ms, keep, code);
    StaleOnlyClears(ms, keep, code);
    if budget > 0 {
      BudgetOnlyClears(stale, ToolChars(stale), budget, code);
      OnlyClearedTrans(ms, stale, ClearOverBudget(stale, ToolChars(stale), budget, code), code);
    }
  }

  // ----- Which results are stale

  /** The tool results from position `i` on. */
  ghost function ToolsFrom(ms: seq<Message>, i: int): set<int> { set j | i <= j < |ms| && 0 <= j && ms[j].role == Tool }

  lemma {:induction false} ToolsIsCount(ms: seq<Message>, i: nat)
    requires i <= |ms|
    ensures Tools(ms[i..]) == |ToolsFrom(ms, i)|
    decreases |ms| - i
  {
    if i < |ms| {
      ToolsIsCount(ms, i + 1);
      assert ms[i..][1..] == ms[i + 1..];
      assert ToolsFrom(ms, i) == ToolsFrom(ms, i + 1) + if ms[i].role == Tool then {i} else {};
    } else {
      assert ToolsFrom(ms, i) == {};
    }
  }

  /** Exactly those results are cleared as stale that at least `keep` tool results follow, and that are neither
      pinned nor marked nor cleared already. */
  lemma StaleClearsIff(ms: seq<Message>, keep: nat, code: CodeProjection, i: nat)
    requires i < |ms|
    ensures |ClearStale(ms, keep, code)| == |ms|
    ensures var m, r := ms[i], ClearStale(ms, keep, code)[i];
            r != m <==> && |ToolsFrom(ms, i + 1)| >= keep && m.role == Tool && !m.pinned
                        && m.compressed == Unmarked && m.content != CLEARED
  {
    StaleClears(ms, keep, code, i);
    ToolsIsCount(ms, i + 1);
  }

  lemma {:induction false} StaleClears(ms: seq<Message>, keep: nat, code: CodeProjection, i: nat)
    requires i < |ms|
    ensures |ClearStale(ms, keep, code)| == |ms|
    ensures ClearStale(ms, keep, code)[i] ==
            if Tools(ms[i + 1..]) >= keep && Clearable(ms[i]) then Cleared(ms[i], code) else ms[i]
  {
    if |ms| > 1 {
      StaleClears(ms[1..], keep, code, if i > 0 then i - 1 else 0);
      if i > 0 { assert ms[1..][i..] == ms[i + 1..]; }
    } else {
      assert ClearStale(ms[1..], keep, code) == [];
    }
  }

  /** An aggressive pass keeps half as many recent results, and never none. */
  lemma WindowHalves(base: int)
    ensures base >= 2 ==> KeepWindow(base, false) == base && 2 * KeepWindow(base, true) in {base - 1, base}
    ensures base < 2 ==> KeepWindow(base, false) == KeepWindow(base, true) == 1
  {}
}
