/**
 A hierarchical summary: map calls over the chunks, then one synthesis call, all of them and
 their retries within the output and input budgets.
 */
module SummaryFold {
  import opened Wrappers
  import opened Rounds
  import opened Text
  import opened SummaryBudget
  import opened SummaryCall

  // ----- _synthesis_messages

  /** What the synthesis reads of the map summary at `index`. */
  function ChunkText(summary: string, index: nat, allowance: nat): string {
    var header := "Chronological chunk " + Decimal(index + 1) + ":\n";
    Take(header + TimelineExcerpt(summary, Max(0, allowance - |header|)), allowance)
  }

  /** An even share of what remains, and at least one character. */
  function Share(remaining: int, items: int): int
    requires items > 0
  {
    Max(1, remaining / items)
  }

  lemma ShareLeavesRoom(remaining: int, items: int)
    requires remaining > 0 && items > 0
    ensures 1 <= Share(remaining, items) <= remaining
    ensures remaining >= items ==> remaining - Share(remaining, items) >= items - 1
  {
    var q := remaining / items;
    assert 0 <= q * items <= remaining;
    assert q * items == q * (items - 1) + q;
    MulMonotone(0, q, items - 1);
    if remaining >= items {
      DivAtLeast(remaining, items, 1);
      MulMonotone(1, q, items - 1);
    }
  }

  type Excerpt = (string, nat, int) -> string

  function Excerpts(): Excerpt {
    (summary: string, index: nat, allowance: int) => ChunkText(summary, index, Max(0, allowance))
  }

  ghost predicate Short(excerpt: Excerpt) {
    forall summary, index, allowance :: allowance >= 0 ==> |excerpt(summary, index, allowance)| <= allowance
  }

  lemma ExcerptsAreShort()
    ensures Short(Excerpts())
  {}

  /** One message per map summary from `index` on, sharing `remaining` characters evenly. */
  function Spread(summaries: seq<string>, index: nat, remaining: int, excerpt: Excerpt): seq<Message>
    requires index <= |summaries|
    decreases |summaries| - index
  {
    if index == |summaries| || remaining <= 0 then []
    else
      var content := excerpt(summaries[index], index, Share(remaining, |summaries| - index));
      [Projection(content)] + Spread(summaries, index + 1, remaining - |content|, excerpt)
  }

  function Synthesis(summaries: seq<string>, limit: int): seq<Message> { Spread(summaries, 0, limit, Excerpts()) }

  lemma CharsCons(m: Message, ms: seq<Message>)
    ensures Chars([m] + ms) == |m.content| + Chars(ms)
  {
    CharsConcat([m], ms);
    assert [m][1..] == [];
  }

  lemma {:induction false} SpreadWithin(summaries: seq<string>, index: nat, remaining: int, excerpt: Excerpt)
    requires index <= |summaries| && Short(excerpt)
    ensures var ms := Spread(summaries, index, remaining, excerpt);
            && Chars(ms) <= Max(0, remaining) && |ms| <= |summaries| - index
            && (ms != [] <==> remaining > 0 && index < |summaries|)
            && (remaining >= |summaries| - index ==> |ms| == |summaries| - index)
    decreases |summaries| - index
  {
    if index < |summaries| && remaining > 0 {
      var allowance := Share(remaining, |summaries| - index);
      ShareLeavesRoom(remaining, |summaries| - index);
      var content := excerpt(summaries[index], index, allowance);
      SpreadWithin(summaries, index + 1, remaining - |content|, excerpt);
      CharsCons(Projection(content), Spread(summaries, index + 1, remaining - |content|, excerpt));
    }
  }

  /** The synthesis input is within its limit, oldest first; it is empty only without room or
      summaries, and leaves no summary out when there is a character for each. */
  lemma SynthesisWithin(summaries: seq<string>, limit: int)
    ensures var ms := Synthesis(summaries, limit);
            && Chars(ms) <= Max(0, limit) && |ms| <= |summaries|
            && (ms != [] <==> limit > 0 && summaries != [])
            && (limit >= |summaries| ==> |ms| == |summaries|)
  {
    ExcerptsAreShort();
    SpreadWithin(summaries, 0, limit, Excerpts());
  }

  function Header(index: nat): string { "Chronological chunk " + Decimal(index + 1) + ":\n" }

  /** A summary with its header is given whole when it fits its share, and a prefix of header and summary
      is given when not even the header leaves room. */
  lemma ChunkTextWhole(summary: string, index: nat, allowance: nat)
    ensures |Header(index)| + |summary| <= allowance ==> ChunkText(summary, index, allowance) == Header(index) + summary
    ensures |Header(index)| <= allowance ==> Header(index) <= ChunkText(summary, index, allowance)
    ensures allowance < |Header(index)| ==> ChunkText(summary, index, allowance) == Header(index)[..allowance]
  {
    var header := Header(index);
    if allowance < |header| { assert header + "" == header; }
  }

  /** The message at each place is about the summary at that place, with an even share of what the earlier
      ones left. */
  lemma {:induction false} SpreadAt(summaries: seq<string>, index: nat, remaining: int, excerpt: Excerpt, i: nat)
    requires index <= |summaries| && i < |Spread(summaries, index, remaining, excerpt)|
    ensures var ms := Spread(summaries, index, remaining, excerpt);
            && index + i < |summaries|
            && ms[i] == Projection(excerpt(summaries[index + i], index + i,
                                           Share(remaining - Chars(ms[..i]), |summaries| - index - i)))
    decreases |summaries| - index
  {
    var ms := Spread(summaries, index, remaining, excerpt);
    var content := excerpt(summaries[index], index, Share(remaining, |summaries| - index));
    var rest := Spread(summaries, index + 1, remaining - |content|, excerpt);
    if i == 0 {
      assert ms[..0] == [];
    } else {
      SpreadAt(summaries, index + 1, remaining - |content|, excerpt, i - 1);
      assert ms[..i] == [Projection(content)] + rest[..i - 1];
      CharsCons(Projection(content), rest[..i - 1]);
    }
  }

  lemma MessageMoved(goal: seq<Message>, done: seq<Message>, m: Message, rest: seq<Message>)
    requires goal == done + ([m] + rest)
    ensures goal == done + [m] + rest
  {}

  method SpreadOut(summaries: seq<string>, limit: int, excerpt: Excerpt) returns (messages: seq<Message>)
    ensures messages == Spread(summaries, 0, limit, excerpt)
  {
    messages := [];
    ghost var goal := Spread(summaries, 0, limit, excerpt);
    var remaining, index := limit, 0;
    while index < |summaries| && remaining > 0
      invariant 0 <= index <= |summaries| && goal == messages + Spread(summaries, index, remaining, excerpt)
    {
      var content := excerpt(summaries[index], index, Share(remaining, |summaries| - index));
      MessageMoved(goal, messages, Projection(content), Spread(summaries, index + 1, remaining - |content|, excerpt));
      messages := messages + [Projection(content)];
      remaining := remaining - |content|;
      index := index + 1;
    }
  }

  method SynthesisMessages(summaries: seq<string>, limit: int) returns (messages: seq<Message>)
    ensures messages == Synthesis(summaries, limit)
    ensures Chars(messages) <= Max(0, limit) && (messages != [] <==> limit > 0 && summaries != [])
  {
    messages := SpreadOut(summaries, limit, Excerpts());
    SynthesisWithin(summaries, limit);
  }

  // ----- Calls

  datatype Call = Call(input: seq<Message>, budget: int, attempts: seq<int>, reply: Reply)

  datatype Outcome = Summary(text: string) | TokensExhausted | InputExhausted | ProviderFailed

  /** Output tokens asked for, over every provider attempt of every call. */
  function Asked(calls: seq<Call>): int {
    if calls == [] then 0 else Sum(calls[0].attempts) + Asked(calls[1..])
  }

  /** Output tokens set aside for the calls. */
  function Allotted(calls: seq<Call>): int {
    if calls == [] then 0 else calls[0].budget + Allotted(calls[1..])
  }

  function Sent(calls: seq<Call>): nat {
    if calls == [] then 0 else Chars(calls[0].input) + Sent(calls[1..])
  }

  /** Provider attempts made by the calls. */
  function Attempted(calls: seq<Call>): nat {
    if calls == [] then 0 else |calls[0].attempts| + Attempted(calls[1..])
  }

  lemma {:induction false} CallsSnoc(calls: seq<Call>, c: Call)
    ensures Asked(calls + [c]) == Asked(calls) + Sum(c.attempts)
    ensures Allotted(calls + [c]) == Allotted(calls) + c.budget
    ensures Sent(calls + [c]) == Sent(calls) + Chars(c.input)
    ensures Attempted(calls + [c]) == Attempted(calls) + |c.attempts|
  {
    if calls == [] {
      assert calls + [c] == [c];
    } else {
      assert (calls + [c])[1..] == calls[1..] + [c];
      CallsSnoc(calls[1..], c);
    }
  }

  function TotalOutput(config: Config): int { Max(1, config.totalOutputTokens) }

  function OutputReserve(config: Config): int {
    Min(Max(1, config.startTokens), Max(1, TotalOutput(config) / 2))
  }

  /** What is held back for the synthesis is the first tier, but at most half of all output, and at least one. */
  lemma OutputReserveIs(config: Config)
    ensures var r, half := OutputReserve(config), TotalOutput(config) / 2;
            && 1 <= r && (r == 1 || (r <= half && r <= config.startTokens))
            && (1 <= half && 1 <= config.startTokens ==> r == half || r == config.startTokens)
  {}

  /** What a map call may use when `spent` is set aside already. */
  function MapBudget(config: Config, spent: int): int {
    Min(config.mapTokens, Max(0, TotalOutput(config) - spent - OutputReserve(config)))
  }

  /** One call: the ladder under the injected cap, retried within that cap. */
  function OneCall(config: Config, ceiling: int, input: seq<Message>, budget: int, provider: nat -> Reply,
                   serial: nat): Call
  {
    var t := Retry(Ladder(config, ceiling, Some(budget)), Some(budget), provider, serial, NO_REPLY);
    Call(input, budget, t.attempts, t.reply)
  }

  /** A call climbs its ladder within its budget, and asks at all if the model has a ceiling. */
  lemma OneCallClimbs(config: Config, ceiling: int, input: seq<Message>, budget: int, provider: nat -> Reply,
                      serial: nat)
    requires budget > 0
    ensures var c := OneCall(config, ceiling, input, budget, provider, serial);
            && Climbs(Ladder(config, ceiling, Some(budget)), Some(budget), provider, serial, Tried(c.attempts, c.reply),
                      NO_REPLY)
            && Sum(c.attempts) <= budget && (c.attempts != [] <==> ceiling > 0)
  {
    var ladder := Ladder(config, ceiling, Some(budget));
    LadderOfTiers(config, ceiling, Some(budget));
    assert forall i :: 0 <= i < |ladder| ==> ladder[i] in ladder;
    RetryClimbs(ladder, Some(budget), provider, serial, NO_REPLY);
  }

  method RunCall(config: Config, ceiling: int, input: seq<Message>, budget: int, provider: nat -> Reply, serial: nat)
    returns (call: Call)
    requires budget > 0
    ensures call == OneCall(config, ceiling, input, budget, provider, serial)
  {
    var ladder := BudgetLadder(config, ceiling, Some(budget));
    LadderOfTiers(config, ceiling, Some(budget));
    assert forall i :: 0 <= i < |ladder| ==> ladder[i] in ladder;
    var attempts, reply := Summarize(ladder, Some(budget), provider, serial);
    call := Call(input, budget, attempts, reply);
  }

  // ----- The map calls

  /** A call by its input, budget and first provider attempt. */
  type Caller = (seq<Message>, int, nat) -> Call

  function CallerOf(config: Config, ceiling: int, provider: nat -> Reply): Caller {
    (input: seq<Message>, budget: int, serial: nat) => OneCall(config, ceiling, input, budget, provider, serial)
  }

  ghost predicate Honest(caller: Caller) {
    forall input, budget, serial :: budget > 0 ==>
      var c := caller(input, budget, serial);
      c.input == input && c.budget == budget && Sum(c.attempts) <= budget
  }

  lemma CallersAreHonest(config: Config, ceiling: int, provider: nat -> Reply)
    ensures Honest(CallerOf(config, ceiling, provider))
  {
    forall input: seq<Message>, budget: int, serial: nat | budget > 0
      ensures var c := CallerOf(config, ceiling, provider)(input, budget, serial);
              c.input == input && c.budget == budget && Sum(c.attempts) <= budget
    {
      OneCallClimbs(config, ceiling, input, budget, provider, serial);
    }
  }

  /** One call per chunk, until the next one would have no budget. */
  function MapCalls(config: Config, chunks: seq<seq<Message>>, spent: int, serial: nat, caller: Caller): seq<Call>
    decreases |chunks|
  {
    var budget := MapBudget(config, spent);
    if chunks == [] || budget <= 0 then []
    else
      var c := caller(chunks[0], budget, serial);
      [c] + MapCalls(config, chunks[1..], spent + budget, serial + |c.attempts|, caller)
  }

  /** The call at `i` reads its own chunk, has exactly the budget that the earlier ones and the
      reserve leave, and goes on with the provider where the last one stopped. */
  ghost predicate CallAt(config: Config, chunks: seq<seq<Message>>, spent: int, serial: nat, caller: Caller,
                         calls: seq<Call>, i: nat)
    requires i < |calls|
  {
    var budget := MapBudget(config, spent + Allotted(calls[..i]));
    && i < |chunks| && 0 < budget
    && calls[i] == caller(chunks[i], budget, serial + Attempted(calls[..i]))
  }

  lemma CallAtCons(config: Config, chunks: seq<seq<Message>>, spent: int, serial: nat, caller: Caller,
                   c: Call, rest: seq<Call>, i: nat)
    requires 0 < i <= |rest| && chunks != []
    requires CallAt(config, chunks[1..], spent + c.budget, serial + |c.attempts|, caller, rest, i - 1)
    ensures CallAt(config, chunks, spent, serial, caller, [c] + rest, i)
  {
    CallsPrefix(c, rest, i);
    assert chunks[1..][i - 1] == chunks[i];
  }

  /** Every map call is as described. */
  lemma {:induction false} MapCallAt(config: Config, chunks: seq<seq<Message>>, spent: int, serial: nat,
      caller: Caller, i: nat)
    requires Honest(caller) && i < |MapCalls(config, chunks, spent, serial, caller)|
    ensures CallAt(config, chunks, spent, serial, caller, MapCalls(config, chunks, spent, serial, caller), i)
    decreases |chunks|
  {
    var calls := MapCalls(config, chunks, spent, serial, caller);
    if i == 0 {
      assert calls[..0] == [];
    } else {
      var c := calls[0];
      MapCallAt(config, chunks[1..], spent + c.budget, serial + |c.attempts|, caller, i - 1);
      CallAtCons(config, chunks, spent, serial, caller, c,
          MapCalls(config, chunks[1..], spent + c.budget, serial + |c.attempts|, caller), i);
    }
  }

  lemma CallsPrefix(c: Call, rest: seq<Call>, i: nat)
    requires 0 < i <= |rest| + 1
    ensures Allotted(([c] + rest)[..i]) == c.budget + Allotted(rest[..i - 1])
    ensures Attempted(([c] + rest)[..i]) == |c.attempts| + Attempted(rest[..i - 1])
  {
    assert ([c] + rest)[..i][1..] == rest[..i - 1];
  }

  /** They stop early only where no budget is left. */
  lemma {:induction false} MapStopsWithoutBudget(config: Config, chunks: seq<seq<Message>>, spent: int, serial: nat,
      caller: Caller)
    requires Honest(caller)
    ensures var calls := MapCalls(config, chunks, spent, serial, caller);
            && |calls| <= |chunks|
            && (|calls| == |chunks| || MapBudget(config, spent + Allotted(calls)) <= 0)
    decreases |chunks|
  {
    var calls := MapCalls(config, chunks, spent, serial, caller);
    if calls != [] {
      var c, rest := calls[0], calls[1..];
      MapStopsWithoutBudget(config, chunks[1..], spent + c.budget, serial + |c.attempts|, caller);
      assert rest == MapCalls(config, chunks[1..], spent + c.budget, serial + |c.attempts|, caller);
    }
  }

  /** They ask for no more than they are allotted, leave the synthesis reserve, and send no more
      than the chunks. */
  lemma {:induction false} MapWithinBudget(config: Config, chunks: seq<seq<Message>>, spent: int, serial: nat,
      caller: Caller)
    requires Honest(caller)
    ensures var calls := MapCalls(config, chunks, spent, serial, caller);
            && Asked(calls) <= Allotted(calls)
            && (calls != [] ==> spent + Allotted(calls) <= TotalOutput(config) - OutputReserve(config))
            && Sent(calls) <= TotalChars(chunks)
    decreases |chunks|
  {
    var calls := MapCalls(config, chunks, spent, serial, caller);
    if calls != [] {
      var c, rest := calls[0], calls[1..];
      MapWithinBudget(config, chunks[1..], spent + c.budget, serial + |c.attempts|, caller);
      assert rest == MapCalls(config, chunks[1..], spent + c.budget, serial + |c.attempts|, caller);
    }
  }

  /** The text a map call contributes: the reply, or the deterministic summary of its chunk. */
  function MapText(config: Config, count: nat, chunk: seq<Message>, reply: Reply,
      fallback: seq<Message> -> string): string {
    CapText(if reply.Fails? || reply.blank then fallback(chunk) else reply.content,
            Max(256, config.inputMaxChars / Max(1, count)))
  }

  function MapTexts(config: Config, chunks: seq<seq<Message>>, calls: seq<Call>,
      fallback: seq<Message> -> string): seq<string>
    requires |calls| <= |chunks|
  {
    seq(|calls|, i requires 0 <= i < |calls| => MapText(config, |chunks|, chunks[i], calls[i].reply, fallback))
  }

  lemma CallMoved(goal: seq<Call>, done: seq<Call>, c: Call, rest: seq<Call>)
    requires goal == done + ([c] + rest)
    ensures goal == done + [c] + rest
  {}

  /** Where the map loop is: `done` has run, the chunks from `i` on are ahead. */
  ghost predicate MapAt(config: Config, chunks: seq<seq<Message>>, i: nat, spent: int, serial: nat, caller: Caller,
                        goal: seq<Call>, done: seq<Call>)
    requires i <= |chunks|
  {
    && spent == Allotted(done) && serial == Attempted(done)
    && goal == done + MapCalls(config, chunks[i..], spent, serial, caller)
  }

  lemma MapAdvance(config: Config, chunks: seq<seq<Message>>, i: nat, spent: int, serial: nat, caller: Caller,
                   goal: seq<Call>, done: seq<Call>, c: Call)
    requires i < |chunks| && MapAt(config, chunks, i, spent, serial, caller, goal, done)
    requires MapBudget(config, spent) > 0 && c == caller(chunks[i], MapBudget(config, spent), serial)
    requires c.budget == MapBudget(config, spent)
    ensures MapAt(config, chunks, i + 1, spent + c.budget, serial + |c.attempts|, caller, goal, done + [c])
  {
    assert chunks[i..][1..] == chunks[i + 1..];
    CallMoved(goal, done, c, MapCalls(config, chunks[i + 1..], spent + c.budget, serial + |c.attempts|, caller));
    CallsSnoc(done, c);
  }

  lemma MapEnds(config: Config, chunks: seq<seq<Message>>, i: nat, spent: int, serial: nat, caller: Caller,
                goal: seq<Call>, done: seq<Call>)
    requires i <= |chunks| && MapAt(config, chunks, i, spent, serial, caller, goal, done)
    requires i == |chunks| || MapBudget(config, spent) <= 0
    ensures goal == done
  {}

  lemma MapBegins(config: Config, chunks: seq<seq<Message>>, caller: Caller)
    ensures MapAt(config, chunks, 0, 0, 0, caller, MapCalls(config, chunks, 0, 0, caller), [])
  {
    assert chunks[0..] == chunks;
  }

  method RunMapCall(config: Config, ceiling: int, input: seq<Message>, budget: int, provider: nat -> Reply, serial: nat,
                    ghost caller: Caller)
    returns (call: Call)
    requires budget > 0 && caller == CallerOf(config, ceiling, provider)
    ensures call == caller(input, budget, serial) && call.budget == budget
  {
    call := RunCall(config, ceiling, input, budget, provider, serial);
  }

  lemma MapAtMoved(config: Config, chunks: seq<seq<Message>>, i: nat, spent: int, serial: nat, caller: Caller,
                   goal: seq<Call>, calls: seq<Call>, call: Call, next: seq<Call>, spent': int, serial': nat)
    requires i < |chunks| && MapAt(config, chunks, i, spent, serial, caller, goal, calls)
    requires MapBudget(config, spent) > 0 && call.budget == MapBudget(config, spent)
    requires call == caller(chunks[i], MapBudget(config, spent), serial)
    requires next == calls + [call] && spent' == spent + call.budget && serial' == serial + |call.attempts|
    ensures MapAt(config, chunks, i + 1, spent', serial', caller, goal, next)
  {
    MapAdvance(config, chunks, i, spent, serial, caller, goal, calls, call);
  }

  /** The body of the map loop. */
  method MapOne(config: Config, ceiling: int, chunks: seq<seq<Message>>, i: nat, spent: int, serial: nat,
                provider: nat -> Reply, ghost caller: Caller, ghost goal: seq<Call>, calls: seq<Call>)
    returns (next: seq<Call>, spent': int, serial': nat)
    requires caller == CallerOf(config, ceiling, provider) && i < |chunks| && MapBudget(config, spent) > 0
    requires MapAt(config, chunks, i, spent, serial, caller, goal, calls)
    ensures MapAt(config, chunks, i + 1, spent', serial', caller, goal, next)
  {
    var budget := MapBudget(config, spent);
    var call := RunMapCall(config, ceiling, chunks[i], budget, provider, serial, caller);
    next, spent', serial' := calls + [call], spent + call.budget, serial + |call.attempts|;
    MapAtMoved(config, chunks, i, spent, serial, caller, goal, calls, call, next, spent', serial');
  }

  method MapLoop(config: Config, ceiling: int, chunks: seq<seq<Message>>, provider: nat -> Reply, ghost caller: Caller,
                 ghost goal: seq<Call>)
    returns (calls: seq<Call>, spent: int, serial: nat)
    requires caller == CallerOf(config, ceiling, provider) && MapAt(config, chunks, 0, 0, 0, caller, goal, [])
    ensures calls == goal && spent == Allotted(calls) && serial == Attempted(calls)
  {
    calls, spent, serial := [], 0, 0;
    var i := 0;
    while i < |chunks| && MapBudget(config, spent) > 0
      invariant 0 <= i <= |chunks| && MapAt(config, chunks, i, spent, serial, caller, goal, calls)
    {
      calls, spent, serial := MapOne(config, ceiling, chunks, i, spent, serial, provider, caller, goal, calls);
      i := i + 1;
    }
    MapEnds(config, chunks, i, spent, serial, caller, goal, calls);
  }

  method MapPhase(config: Config, ceiling: int, chunks: seq<seq<Message>>, provider: nat -> Reply)
    returns (calls: seq<Call>, spent: int, serial: nat)
    ensures calls == Maps(config, ceiling, chunks, provider)
    ensures spent == Allotted(calls) && serial == Attempted(calls)
  {
    ghost var caller := CallerOf(config, ceiling, provider);
    MapBegins(config, chunks, caller);
    calls, spent, serial := MapLoop(config, ceiling, chunks, provider, caller, MapCalls(config, chunks, 0, 0, caller));
  }

  method MapSummaries(config: Config, chunks: seq<seq<Message>>, calls: seq<Call>, fallback: seq<Message> -> string)
    returns (texts: seq<string>)
    requires |calls| <= |chunks|
    ensures texts == MapTexts(config, chunks, calls, fallback)
  {
    texts := [];
    for i := 0 to |calls|
      invariant |texts| == i
      invariant forall k :: 0 <= k < i ==>
                  texts[k] == MapText(config, |chunks|, chunks[k], calls[k].reply, fallback)
    {
      var reply := calls[i].reply;
      var value := if reply.Fails? || reply.blank then fallback(chunks[i]) else reply.content;
      texts := texts + [CapText(value, Max(256, config.inputMaxChars / Max(1, |chunks|)))];
    }
  }

  // ----- The fold

  /** The synthesis call's share of the input budget. */
  function SynthesisLimit(config: Config, sent: nat): int {
    Min(PerCall(config), Max(0, config.totalInputMaxChars - sent))
  }

  function OutcomeOf(reply: Reply): Outcome { if reply.Fails? then ProviderFailed else Summary(reply.content) }

  datatype Folded = Folded(outcome: Outcome, calls: seq<Call>, synthesised: bool)

  function Maps(config: Config, ceiling: int, chunks: seq<seq<Message>>, provider: nat -> Reply): seq<Call> {
    MapCalls(config, chunks, 0, 0, CallerOf(config, ceiling, provider))
  }

  /** One call for one chunk; otherwise the map calls and, if they left texts and room, the call
      that joins them. */
  function FoldAll(config: Config, ceiling: int, chunks: seq<seq<Message>>, provider: nat -> Reply,
                   fallback: seq<Message> -> string): Folded
  {
    if |chunks| == 1 then
      var c := OneCall(config, ceiling, chunks[0], TotalOutput(config), provider, 0);
      Folded(OutcomeOf(c.reply), [c], false)
    else
      var maps := Maps(config, ceiling, chunks, provider);
      if maps == [] then Folded(TokensExhausted, [], false)
      else
        MapsAreHonest(config, ceiling, chunks, provider);
        var input := Synthesis(MapTexts(config, chunks, maps, fallback), SynthesisLimit(config, Sent(maps)));
        if input == [] then Folded(InputExhausted, maps, false)
        else
          var last := OneCall(config, ceiling, input, TotalOutput(config) - Allotted(maps), provider,
              Attempted(maps));
          Folded(OutcomeOf(last.reply), maps + [last], true)
  }

  lemma MapsAreHonest(config: Config, ceiling: int, chunks: seq<seq<Message>>, provider: nat -> Reply)
    ensures var maps := Maps(config, ceiling, chunks, provider);
            && |maps| <= |chunks| && Asked(maps) <= Allotted(maps) && Sent(maps) <= TotalChars(chunks)
            && (maps != [] ==> Allotted(maps) <= TotalOutput(config) - OutputReserve(config))
            && (maps != [] <==> chunks != [] && config.mapTokens > 0 && config.totalOutputTokens > 1)
            && (|maps| == |chunks| || MapBudget(config, Allotted(maps)) <= 0)
  {
    var caller := CallerOf(config, ceiling, provider);
    CallersAreHonest(config, ceiling, provider);
    MapWithinBudget(config, chunks, 0, 0, caller);
    MapStopsWithoutBudget(config, chunks, 0, 0, caller);
  }

  /** When each way of ending occurs, and what the synthesis call has: exactly the total less what
      the map calls were allotted, which is at least its reserve. */
  lemma FoldEnds(config: Config, ceiling: int, chunks: seq<seq<Message>>, provider: nat -> Reply,
                 fallback: seq<Message> -> string)
    ensures var f := FoldAll(config, ceiling, chunks, provider, fallback);
            var maps := Maps(config, ceiling, chunks, provider);
            && (|chunks| == 1 ==> |f.calls| == 1 && f.calls[0].budget == TotalOutput(config))
            && (f.synthesised <==> |chunks| != 1 && !f.outcome.TokensExhausted? && !f.outcome.InputExhausted?)
            && (f.outcome.TokensExhausted? <==>
                  |chunks| != 1 && (chunks == [] || config.mapTokens <= 0 || config.totalOutputTokens <= 1))
            && (f.outcome.InputExhausted? <==>
                  |chunks| != 1 && maps != [] && config.totalInputMaxChars <= Sent(maps))
            && (|chunks| != 1 ==> f.calls[..|f.calls| - (if f.synthesised then 1 else 0)] == maps)
            && (f.synthesised ==>
                  f.calls[|f.calls| - 1].budget == TotalOutput(config) - Allotted(maps) >= OutputReserve(config) >= 1)
  {
    MapsAreHonest(config, ceiling, chunks, provider);
    var maps := Maps(config, ceiling, chunks, provider);
    if |chunks| != 1 && maps != [] {
      SynthesisWithin(MapTexts(config, chunks, maps, fallback), SynthesisLimit(config, Sent(maps)));
    }
  }

  lemma OneWithinOutput(c: Call)
    requires Sum(c.attempts) <= c.budget
    ensures Asked([c]) <= c.budget
  {
    assert [c][1..] == [];
  }

  lemma ManyWithinOutput(config: Config, maps: seq<Call>, last: Call)
    requires Asked(maps) <= Allotted(maps) && Sum(last.attempts) <= last.budget == TotalOutput(config) - Allotted(maps)
    ensures Asked(maps + [last]) <= TotalOutput(config)
  {
    CallsSnoc(maps, last);
  }

  /** All attempts of all calls together ask for no more than the output total. */
  lemma FoldWithinOutput(config: Config, ceiling: int, chunks: seq<seq<Message>>, provider: nat -> Reply,
                         fallback: seq<Message> -> string)
    ensures Asked(FoldAll(config, ceiling, chunks, provider, fallback).calls) <= TotalOutput(config)
  {
    MapsAreHonest(config, ceiling, chunks, provider);
    var f, maps := FoldAll(config, ceiling, chunks, provider, fallback), Maps(config, ceiling, chunks, provider);
    if |chunks| == 1 {
      OneCallClimbs(config, ceiling, chunks[0], TotalOutput(config), provider, 0);
      OneWithinOutput(f.calls[0]);
    } else if f.synthesised {
      var input := Synthesis(MapTexts(config, chunks, maps, fallback), SynthesisLimit(config, Sent(maps)));
      OneCallClimbs(config, ceiling, input, TotalOutput(config) - Allotted(maps), provider, Attempted(maps));
      ManyWithinOutput(config, maps, f.calls[|maps|]);
    }
  }

  lemma SentIn(calls: seq<Call>, chunks: seq<seq<Message>>, config: Config, caller: Caller)
    requires Honest(caller) && calls == MapCalls(config, chunks, 0, 0, caller)
    ensures forall c :: c in calls ==> exists i :: 0 <= i < |chunks| && Chars(c.input) == Chars(chunks[i])
  {
    forall c | c in calls ensures exists i :: 0 <= i < |chunks| && Chars(c.input) == Chars(chunks[i]) {
      var i: nat :| i < |calls| && calls[i] == c;
      MapCallAt(config, chunks, 0, 0, caller, i);
    }
  }

  lemma OneChunkWithinInput(config: Config, ceiling: int, chunk: seq<Message>, provider: nat -> Reply)
    requires WithinInput(config, [chunk]) && config.totalInputMaxChars >= 1
    ensures var c := OneCall(config, ceiling, chunk, TotalOutput(config), provider, 0);
            Sent([c]) <= config.totalInputMaxChars && Chars(c.input) <= PerCall(config)
  {
    assert [chunk][1..] == [] && [chunk][0] in [chunk];
    var c := OneCall(config, ceiling, chunk, TotalOutput(config), provider, 0);
    assert [c][1..] == [];
  }

  /** Map calls within the input leave room, and a synthesis call within its limit fits that room. */
  lemma ManyWithinInput(config: Config, maps: seq<Call>, last: Call)
    requires Sent(maps) < config.totalInputMaxChars && Chars(last.input) <= SynthesisLimit(config, Sent(maps))
    requires forall c :: c in maps ==> Chars(c.input) <= PerCall(config)
    ensures Sent(maps + [last]) <= config.totalInputMaxChars
    ensures forall c :: c in maps + [last] ==> Chars(c.input) <= PerCall(config)
  {
    CallsSnoc(maps, last);
  }

  lemma MapsLeaveInput(config: Config, ceiling: int, chunks: seq<seq<Message>>, provider: nat -> Reply)
    requires WithinInput(config, chunks) && config.totalInputMaxChars >= 1 && |chunks| > 1
    ensures var maps := Maps(config, ceiling, chunks, provider);
            Sent(maps) < config.totalInputMaxChars && forall c :: c in maps ==> Chars(c.input) <= PerCall(config)
  {
    MapsAreHonest(config, ceiling, chunks, provider);
    CallersAreHonest(config, ceiling, provider);
    SentIn(Maps(config, ceiling, chunks, provider), chunks, config, CallerOf(config, ceiling, provider));
    assert forall i :: 0 <= i < |chunks| ==> chunks[i] in chunks;
  }

  lemma SynthesisReads(config: Config, ceiling: int, chunks: seq<seq<Message>>, provider: nat -> Reply,
                       fallback: seq<Message> -> string)
    ensures var f := FoldAll(config, ceiling, chunks, provider, fallback);
            var maps := Maps(config, ceiling, chunks, provider);
            f.synthesised ==>
              f.calls == maps + [f.calls[|maps|]] && Chars(f.calls[|maps|].input) <= SynthesisLimit(config, Sent(maps))
  {
    MapsAreHonest(config, ceiling, chunks, provider);
    var maps := Maps(config, ceiling, chunks, provider);
    if maps != [] { SynthesisWithin(MapTexts(config, chunks, maps, fallback), SynthesisLimit(config, Sent(maps))); }
  }

  /** With chunks that respect the input budget, so do all calls, and input is never exhausted. */
  lemma FoldWithinInput(config: Config, ceiling: int, chunks: seq<seq<Message>>, provider: nat -> Reply,
                        fallback: seq<Message> -> string)
    requires WithinInput(config, chunks) && config.totalInputMaxChars >= 1
    ensures var f := FoldAll(config, ceiling, chunks, provider, fallback);
            && Sent(f.calls) <= config.totalInputMaxChars
            && (forall c :: c in f.calls ==> Chars(c.input) <= PerCall(config))
            && !f.outcome.InputExhausted?
  {
    var f, maps := FoldAll(config, ceiling, chunks, provider, fallback), Maps(config, ceiling, chunks, provider);
    FoldEnds(config, ceiling, chunks, provider, fallback);
    if |chunks| == 1 {
      assert chunks == [chunks[0]];
      OneChunkWithinInput(config, ceiling, chunks[0], provider);
    } else if maps != [] {
      MapsLeaveInput(config, ceiling, chunks, provider);
      SynthesisReads(config, ceiling, chunks, provider, fallback);
      ManyWithinInput(config, maps, f.calls[|maps|]);
    }
  }

  // ----- What is returned

  /** Every fold that is not exhausted made a call, and returns what the last call replied: its content, or
      a failure exactly when that reply failed. */
  lemma FoldReturnsLast(config: Config, ceiling: int, chunks: seq<seq<Message>>, provider: nat -> Reply,
                        fallback: seq<Message> -> string)
    ensures var f := FoldAll(config, ceiling, chunks, provider, fallback);
            !f.outcome.TokensExhausted? && !f.outcome.InputExhausted? ==>
              && f.calls != []
              && var last := f.calls[|f.calls| - 1];
                 && (f.outcome.ProviderFailed? <==> last.reply.Fails?)
                 && (last.reply.Replies? ==> f.outcome == Summary(last.reply.content))
  {
    MapsAreHonest(config, ceiling, chunks, provider);
  }

  /** The one call for a single chunk reads that chunk. */
  lemma SingleReads(config: Config, ceiling: int, chunk: seq<Message>, provider: nat -> Reply,
                    fallback: seq<Message> -> string)
    ensures FoldAll(config, ceiling, [chunk], provider, fallback).calls
            == [OneCall(config, ceiling, chunk, TotalOutput(config), provider, 0)]
  {}

  /** The last call of a longer fold reads the synthesis of the map texts. */
  lemma SynthesisIsLast(config: Config, ceiling: int, chunks: seq<seq<Message>>, provider: nat -> Reply,
                        fallback: seq<Message> -> string)
    ensures var f := FoldAll(config, ceiling, chunks, provider, fallback);
            var maps := Maps(config, ceiling, chunks, provider);
            && |maps| <= |chunks|
            && (f.synthesised ==>
                  && |f.calls| == |maps| + 1
                  && f.calls[|maps|].input ==
                     Synthesis(MapTexts(config, chunks, maps, fallback), SynthesisLimit(config, Sent(maps))))
  {
    MapsAreHonest(config, ceiling, chunks, provider);
  }

  /** It goes on with the provider where the map calls stopped, up the ladder of its own budget. */
  lemma SynthesisClimbs(config: Config, ceiling: int, chunks: seq<seq<Message>>, provider: nat -> Reply,
                        fallback: seq<Message> -> string)
    requires FoldAll(config, ceiling, chunks, provider, fallback).synthesised
    ensures var f := FoldAll(config, ceiling, chunks, provider, fallback);
            var maps := Maps(config, ceiling, chunks, provider);
            && |f.calls| == |maps| + 1
            && var last := f.calls[|maps|];
               Climbs(Ladder(config, ceiling, Some(last.budget)), Some(last.budget), provider, Attempted(maps),
                      Tried(last.attempts, last.reply), NO_REPLY)
  {
    MapsAreHonest(config, ceiling, chunks, provider);
    var maps := Maps(config, ceiling, chunks, provider);
    var input := Synthesis(MapTexts(config, chunks, maps, fallback), SynthesisLimit(config, Sent(maps)));
    OneCallClimbs(config, ceiling, input, TotalOutput(config) - Allotted(maps), provider, Attempted(maps));
  }

  /** A chunk contributes what was replied about it, as it is when that fits; or the deterministic summary
      when the call failed or said nothing. */
  lemma MapTextIs(config: Config, chunks: seq<seq<Message>>, calls: seq<Call>, fallback: seq<Message> -> string, i: nat)
    requires |calls| <= |chunks| && i < |calls|
    ensures var limit := Max(256, config.inputMaxChars / Max(1, |chunks|));
            var reply, text := calls[i].reply, MapTexts(config, chunks, calls, fallback)[i];
            && |text| <= limit
            && (reply.Replies? && !reply.blank && |reply.content| <= limit ==> text == reply.content)
            && (reply.Replies? && !reply.blank && |reply.content| > limit ==>
                  text == reply.content[..limit - 28] + CUT_MARKER)
            && ((reply.Fails? || reply.blank) && |fallback(chunks[i])| <= limit ==> text == fallback(chunks[i]))
  {
    var limit := Max(256, config.inputMaxChars / Max(1, |chunks|));
    var reply := calls[i].reply;
    CapTextWithinLimit(if reply.Fails? || reply.blank then fallback(chunks[i]) else reply.content, limit);
    assert |CUT_MARKER| == 28;
  }

  method Fold(config: Config, ceiling: int, chunks: seq<seq<Message>>, provider: nat -> Reply,
              fallback: seq<Message> -> string)
    returns (outcome: Outcome, calls: seq<Call>, synthesised: bool)
    ensures Folded(outcome, calls, synthesised) == FoldAll(config, ceiling, chunks, provider, fallback)
  {
    if |chunks| == 1 {
      var call := RunCall(config, ceiling, chunks[0], TotalOutput(config), provider, 0);
      return OutcomeOf(call.reply), [call], false;
    }
    var spent, serial;
    calls, spent, serial := MapPhase(config, ceiling, chunks, provider);
    MapsAreHonest(config, ceiling, chunks, provider);
    if calls == [] { return TokensExhausted, [], false; }
    var texts := MapSummaries(config, chunks, calls, fallback);
    var synthesis := SynthesisMessages(texts, SynthesisLimit(config, Sent(calls)));
    if synthesis == [] { return InputExhausted, calls, false; }
    var call := RunCall(config, ceiling, synthesis, TotalOutput(config) - spent, provider, serial);
    return OutcomeOf(call.reply), calls + [call], true;
  }

  /** The whole fold of a prefix: what is asked of the provider, within both budgets over every call
      and every retry. */
  method SummarizeHierarchical(config: Config, ceiling: int, prefix: seq<Message>, project: Projector,
                               provider: nat -> Reply, fallback: seq<Message> -> string)
    returns (outcome: Outcome, calls: seq<Call>, synthesised: bool, ghost chunks: seq<seq<Message>>)
    requires prefix != []
    ensures chunks == Chunks(config, prefix, project).0
    ensures Folded(outcome, calls, synthesised) == FoldAll(config, ceiling, chunks, provider, fallback)
    ensures Asked(calls) <= TotalOutput(config)
    ensures Roomy(config, |Group(prefix)|) && config.totalInputMaxChars >= 1 ==>
              && Sent(calls) <= config.totalInputMaxChars
              && (forall c :: c in calls ==> Chars(c.input) <= PerCall(config))
              && !outcome.InputExhausted?
  {
    var cut, projected := SummaryChunks(config, prefix, project);
    chunks := cut;
    outcome, calls, synthesised := Fold(config, ceiling, cut, provider, fallback);
    FoldWithinOutput(config, ceiling, chunks, provider, fallback);
    if Roomy(config, |Group(prefix)|) && config.totalInputMaxChars >= 1 {
      ChunksWithinInput(config, prefix, project);
      FoldWithinInput(config, ceiling, chunks, provider, fallback);
    }
  }
}
