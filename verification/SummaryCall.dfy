/**
 One summary call: the ladder of output budgets and the retries that climb it.
 */
module SummaryCall {
  import opened Wrappers
  import opened Text
  import opened SummaryBudget

  function Sum(xs: seq<int>): int {
    if xs == [] then 0 else xs[0] + Sum(xs[1..])
  }

  // ----- The escalation ladder

  ghost predicate Ascending(xs: seq<int>) {
    forall i, j :: 0 <= i < j < |xs| ==> xs[i] < xs[j]
  }

  /** Sorted insertion; a value already present is not added twice. */
  function InsertTier(x: int, xs: seq<int>): (r: seq<int>)
    requires Ascending(xs)
    ensures Ascending(r) && |r| <= |xs| + 1
    ensures forall y :: y in r <==> y == x || y in xs
  {
    if xs == [] then [x]
    else if x == xs[0] then xs
    else if x < xs[0] then [x] + xs
    else
      var rest := InsertTier(x, xs[1..]);
      assert xs == [xs[0]] + xs[1..];
      assert forall y :: y in rest ==> xs[0] < y;
      assert forall i :: 0 <= i < |rest| ==> rest[i] in rest;
      [xs[0]] + rest
  }

  /** The positive values among `tiers`, ascending and without repetition. */
  function SortTiers(tiers: seq<int>): (r: seq<int>)
    ensures Ascending(r) && |r| <= |tiers|
    ensures forall y :: y in r <==> 0 < y && y in tiers
  {
    if tiers == [] then []
    else
      var n := |tiers| - 1;
      assert tiers == tiers[..n] + [tiers[n]];
      var before := SortTiers(tiers[..n]);
      if tiers[n] > 0 then InsertTier(tiers[n], before) else before
  }

  function EffectiveCeiling(ceiling: int, cap: Option<int>): int {
    if cap.Some? then Min(ceiling, cap.value) else ceiling
  }

  /** Where a call starts, the cap of a compaction, and the model's ceiling. */
  function Tiers(config: Config, limit: int): seq<int> {
    [Min(config.startTokens, limit), Min(config.maxOutputTokens, limit), limit]
  }

  function First(xs: seq<int>, n: nat): seq<int> { if n < |xs| then xs[..n] else xs }

  /** The tiers in order, as many as the first attempt and its retries may use. */
  function Ladder(config: Config, ceiling: int, cap: Option<int>): seq<int> {
    First(SortTiers(Tiers(config, EffectiveCeiling(ceiling, cap))), 1 + Max(0, config.outputRetries))
  }

  lemma TopIsLast(xs: seq<int>, top: int)
    requires Ascending(xs) && top in xs && forall y :: y in xs ==> y <= top
    ensures xs[|xs| - 1] == top
  {
    var k :| 0 <= k < |xs| && xs[k] == top;
    assert xs[|xs| - 1] in xs;
  }

  /** A cut keeps the lowest values. */
  lemma FirstIsLowest(full: seq<int>, n: nat, y: int, z: int)
    requires Ascending(full) && y in First(full, n) && z in full && z < y
    ensures z in First(full, n)
  {
    var i :| 0 <= i < |First(full, n)| && First(full, n)[i] == y;
    var k :| 0 <= k < |full| && full[k] == z;
    assert k < i;
    assert First(full, n)[k] == z;
  }

  /** The ladder holds only positive tiers, ascending, within the ceiling; it is empty only without
      a positive ceiling, and no longer than the first attempt and its retries. */
  lemma LadderOfTiers(config: Config, ceiling: int, cap: Option<int>)
    ensures var limit := EffectiveCeiling(ceiling, cap); var ladder := Ladder(config, ceiling, cap);
            && Ascending(ladder) && |ladder| <= 1 + Max(0, config.outputRetries) && |ladder| <= 3
            && (ladder != [] <==> limit > 0)
            && forall y :: y in ladder ==> y in Tiers(config, limit) && 0 < y <= limit
  {
    var tiers := Tiers(config, EffectiveCeiling(ceiling, cap));
    assert tiers[2] in tiers && forall y :: y in tiers ==> y <= tiers[2];
    var full := SortTiers(tiers);
    var ladder := Ladder(config, ceiling, cap);
    assert forall y :: y in ladder ==> y in full;
    if tiers[2] > 0 { assert tiers[2] in full; }
    if ladder != [] { assert ladder[0] in ladder; }
  }

  /** It holds the lowest of them, and with two retries every one, ending at the ceiling. */
  lemma LadderIsLowest(config: Config, ceiling: int, cap: Option<int>, z: int)
    requires 0 < z && z in Tiers(config, EffectiveCeiling(ceiling, cap))
    ensures var limit := EffectiveCeiling(ceiling, cap); var ladder := Ladder(config, ceiling, cap);
            && (config.outputRetries >= 2 ==> z in ladder && ladder[|ladder| - 1] == limit)
            && forall y :: y in ladder && z < y ==> z in ladder
  {
    var limit := EffectiveCeiling(ceiling, cap);
    var tiers := Tiers(config, limit);
    var full := SortTiers(tiers);
    assert tiers[2] == limit && limit in full && forall y :: y in full ==> y <= limit;
    TopIsLast(full, limit);
    forall y | y in Ladder(config, ceiling, cap) && z < y ensures z in Ladder(config, ceiling, cap) {
      FirstIsLowest(full, 1 + Max(0, config.outputRetries), y, z);
    }
  }

  /** The loop over the tiers, the sort and the cut. */
  method BudgetLadder(config: Config, ceiling: int, cap: Option<int>) returns (ladder: seq<int>)
    ensures ladder == Ladder(config, ceiling, cap)
  {
    var limit := EffectiveCeiling(ceiling, cap);
    var tiers := [Min(config.startTokens, limit), Min(config.maxOutputTokens, limit), limit];
    ladder := [];
    for i := 0 to 3
      invariant ladder == SortTiers(tiers[..i])
    {
      assert tiers[..i + 1][..i] == tiers[..i];
      if tiers[i] > 0 { ladder := InsertTier(tiers[i], ladder); }
    }
    assert tiers[..3] == tiers;
    var attempts := 1 + Max(0, config.outputRetries);
    if |ladder| > attempts { ladder := ladder[..attempts]; }
  }

  // ----- The retries

  /** A provider reply: it fails, or returns text that may have been cut at the token limit. */
  datatype Reply = Fails | Replies(content: string, blank: bool, cut: bool)

  const NO_REPLY: Reply := Replies("", true, false)

  /** A reply after which the next tier is tried. */
  predicate WasCut(r: Reply) { r.Replies? && r.cut }

  datatype Tried = Tried(attempts: seq<int>, reply: Reply)

  /** What an attempt asks for: its tier, or what is left if the call is capped. */
  function Ask(tier: int, left: Option<int>): int { if left.Some? then Min(tier, left.value) else tier }

  function Less(left: Option<int>, spent: int): Option<int> {
    if left.Some? then Some(left.value - spent) else None
  }

  /** Budgets asked for and the last reply; `serial` numbers provider attempts over a whole fold. */
  function Retry(ladder: seq<int>, left: Option<int>, provider: nat -> Reply, serial: nat, last: Reply): Tried
    decreases |ladder|
  {
    if ladder == [] || Ask(ladder[0], left) <= 0 then Tried([], last)
    else
      var budget, reply := Ask(ladder[0], left), provider(serial);
      if !WasCut(reply) then Tried([budget], reply)
      else
        var rest := Retry(ladder[1..], Less(left, budget), provider, serial + 1, reply);
        Tried([budget] + rest.attempts, rest.reply)
  }

  ghost predicate Positive(xs: seq<int>) { forall i :: 0 <= i < |xs| ==> 0 < xs[i] }

  /** Each attempt asks for its tier, or what the earlier ones left of the cap. */
  ghost predicate Asks(ladder: seq<int>, cap: Option<int>, attempts: seq<int>) {
    && |attempts| <= |ladder| && Positive(attempts) && (cap.Some? ==> Sum(attempts) <= cap.value)
    && forall i :: 0 <= i < |attempts| ==> attempts[i] == Ask(ladder[i], Less(cap, Sum(attempts[..i])))
  }

  predicate CutAt(provider: nat -> Reply, serial: nat) { provider(serial).Replies? && provider(serial).cut }

  /** Every reply before the last was cut, and the last one is the result. */
  ghost predicate Answers(provider: nat -> Reply, serial: nat, t: Tried, last: Reply) {
    && (forall n: nat :: serial <= n < serial + |t.attempts| - 1 ==> CutAt(provider, n))
    && t.reply == (if t.attempts == [] then last else provider(serial + |t.attempts| - 1))
  }

  /** It ends at a reply that was not cut, at the end of the ladder, or at the end of the cap. */
  ghost predicate Stops(ladder: seq<int>, cap: Option<int>, t: Tried) {
    || |t.attempts| == |ladder|
    || (cap.Some? && Sum(t.attempts) == cap.value)
    || (t.attempts != [] && (t.reply.Fails? || !t.reply.cut))
  }

  /** How retries climb a ladder. */
  ghost predicate Climbs(ladder: seq<int>, cap: Option<int>, provider: nat -> Reply, serial: nat, t: Tried,
      last: Reply) {
    Asks(ladder, cap, t.attempts) && Answers(provider, serial, t, last) && Stops(ladder, cap, t)
  }

  /** There may be an attempt: the call is not capped, or something is left. */
  predicate Open(left: Option<int>) { left.Some? ==> left.value > 0 }

  lemma AsksCons(ladder: seq<int>, cap: Option<int>, rest: seq<int>)
    requires ladder != [] && Positive(ladder) && Open(cap)
    requires Asks(ladder[1..], Less(cap, Ask(ladder[0], cap)), rest)
    ensures Asks(ladder, cap, [Ask(ladder[0], cap)] + rest)
    ensures Sum([Ask(ladder[0], cap)] + rest) == Ask(ladder[0], cap) + Sum(rest)
  {
    var budget := Ask(ladder[0], cap);
    var all := [budget] + rest;
    assert all[1..] == rest;
    forall i | 0 <= i < |all| ensures all[i] == Ask(ladder[i], Less(cap, Sum(all[..i]))) {
      if i > 0 {
        assert all[..i][1..] == rest[..i - 1];
        assert rest[i - 1] == Ask(ladder[1..][i - 1], Less(Less(cap, budget), Sum(rest[..i - 1])));
      }
    }
  }

  lemma AnswersCons(provider: nat -> Reply, serial: nat, budget: int, rest: Tried)
    requires CutAt(provider, serial) && Answers(provider, serial + 1, rest, provider(serial))
    ensures forall last :: Answers(provider, serial, Tried([budget] + rest.attempts, rest.reply), last)
  {}

  /** The retry loop does this, whatever the provider replies. */
  lemma {:induction false} RetryClimbs(ladder: seq<int>, cap: Option<int>, provider: nat -> Reply, serial: nat,
      last: Reply)
    requires Positive(ladder) && (cap.Some? ==> cap.value >= 0)
    ensures Climbs(ladder, cap, provider, serial, Retry(ladder, cap, provider, serial, last), last)
    decreases |ladder|
  {
    if ladder != [] && Open(cap) {
      var budget, reply := Ask(ladder[0], cap), provider(serial);
      if WasCut(reply) {
        var rest := Retry(ladder[1..], Less(cap, budget), provider, serial + 1, reply);
        RetryClimbs(ladder[1..], Less(cap, budget), provider, serial + 1, reply);
        ClimbsOn(ladder, cap, provider, serial, rest, last);
      } else {
        ClimbsOnce(ladder, cap, provider, serial, last);
      }
    }
  }

  lemma ClimbsOn(ladder: seq<int>, cap: Option<int>, provider: nat -> Reply, serial: nat, rest: Tried, last: Reply)
    requires ladder != [] && Positive(ladder) && Open(cap) && CutAt(provider, serial)
    requires Climbs(ladder[1..], Less(cap, Ask(ladder[0], cap)), provider, serial + 1, rest, provider(serial))
    ensures Climbs(ladder, cap, provider, serial, Tried([Ask(ladder[0], cap)] + rest.attempts, rest.reply), last)
  {
    AsksCons(ladder, cap, rest.attempts);
    AnswersCons(provider, serial, Ask(ladder[0], cap), rest);
  }

  lemma ClimbsOnce(ladder: seq<int>, cap: Option<int>, provider: nat -> Reply, serial: nat, last: Reply)
    requires ladder != [] && Positive(ladder) && Open(cap) && !CutAt(provider, serial)
    ensures Climbs(ladder, cap, provider, serial, Tried([Ask(ladder[0], cap)], provider(serial)), last)
  {
    var all := [Ask(ladder[0], cap)];
    assert all[..0] == [] && all[1..] == [];
  }

  lemma AttemptMoved(goal: Tried, done: seq<int>, budget: int, rest: Tried)
    requires goal == Tried(done + ([budget] + rest.attempts), rest.reply)
    ensures goal == Tried(done + [budget] + rest.attempts, rest.reply)
  {}

  /** Where the loop is: `done` asked for, the rest of the ladder ahead. */
  ghost predicate RetryAt(goal: Tried, done: seq<int>, ladder: seq<int>, left: Option<int>, provider: nat -> Reply,
                          serial: nat, reply: Reply) {
    var rest := Retry(ladder, left, provider, serial, reply);
    goal == Tried(done + rest.attempts, rest.reply)
  }

  lemma RetryAdvance(goal: Tried, done: seq<int>, ladder: seq<int>, left: Option<int>, provider: nat -> Reply,
                     serial: nat, reply: Reply)
    requires ladder != [] && RetryAt(goal, done, ladder, left, provider, serial, reply)
    ensures var budget := Ask(ladder[0], left);
            && (budget <= 0 ==> goal == Tried(done, reply))
            && (budget > 0 && !WasCut(provider(serial)) ==> goal == Tried(done + [budget], provider(serial)))
            && (budget > 0 && WasCut(provider(serial)) ==>
                  RetryAt(goal, done + [budget], ladder[1..], Less(left, budget), provider, serial + 1,
                      provider(serial)))
  {
    var budget := Ask(ladder[0], left);
    if budget > 0 && WasCut(provider(serial)) {
      AttemptMoved(goal, done, budget, Retry(ladder[1..], Less(left, budget), provider, serial + 1, provider(serial)));
    }
  }

  method ClimbLadder(ladder: seq<int>, cap: Option<int>, provider: nat -> Reply, serial: nat, ghost goal: Tried)
    returns (attempts: seq<int>, reply: Reply)
    requires cap.Some? ==> cap.value >= 0
    requires RetryAt(goal, [], ladder, cap, provider, serial, NO_REPLY)
    ensures Tried(attempts, reply) == goal
  {
    attempts, reply := [], NO_REPLY;
    var left := cap;
    assert ladder[0..] == ladder;
    var i := 0;
    while i < |ladder|
      invariant 0 <= i <= |ladder| && (left.Some? ==> left.value >= 0)
      invariant RetryAt(goal, attempts, ladder[i..], left, provider, serial + i, reply)
    {
      RetryAdvance(goal, attempts, ladder[i..], left, provider, serial + i, reply);
      assert ladder[i..][1..] == ladder[i + 1..];
      var budget := if left.None? then ladder[i] else Min(ladder[i], left.value);
      if budget <= 0 { return; }
      attempts := attempts + [budget];
      reply := provider(serial + i);
      if !WasCut(reply) { return; }
      if left.Some? { left := Some(Max(0, left.value - budget)); }
      i := i + 1;
    }
    assert attempts + [] == attempts;
  }

  /** The retry loop of one call: it asks at least once if it may ask at all, and all its attempts
      together ask for no more than the cap, if there is one. */
  method Summarize(ladder: seq<int>, cap: Option<int>, provider: nat -> Reply, serial: nat)
    returns (attempts: seq<int>, reply: Reply)
    requires Open(cap) && Positive(ladder)
    ensures Tried(attempts, reply) == Retry(ladder, cap, provider, serial, NO_REPLY)
    ensures Climbs(ladder, cap, provider, serial, Tried(attempts, reply), NO_REPLY)
    ensures attempts == [] <==> ladder == []
  {
    ghost var goal := Retry(ladder, cap, provider, serial, NO_REPLY);
    RetryClimbs(ladder, cap, provider, serial, NO_REPLY);
    assert [] + goal.attempts == goal.attempts;
    attempts, reply := ClimbLadder(ladder, cap, provider, serial, goal);
  }
}
