/**
 Dropping the oldest whole rounds after a "prompt is too long" error.
 */
module HeadTruncation {
  import opened Wrappers
  import opened Rounds

  const RETRY_TEXT := "[earlier conversation truncated to fit the context window]"

  /** A synthetic user turn standing for dropped rounds, as a fresh message of this form. */
  predicate IsRetryMarker(m: Message) {
    m.role == User && m.retryMarker && !m.pinned && !m.ephemeral && m.compressed == Unmarked && m.callIds == {}
  }

  type RetryMarker = m: Message | IsRetryMarker(m)
    witness Message(User, RETRY_TEXT, {}, "", false, false, true, Unmarked, 1)

  type Estimator = seq<Message> -> nat

  // ----- Counting progress

  /** Messages that are not the synthetic retry marker. */
  function Genuine(ms: seq<Message>): nat {
    if ms == [] then 0 else (if ms[0].retryMarker then 0 else 1) + Genuine(ms[1..])
  }

  lemma {:induction false} GenuineConcat(a: seq<Message>, b: seq<Message>)
    ensures Genuine(a + b) == Genuine(a) + Genuine(b)
  {
    if a == [] {
      assert a + b == b;
    } else {
      assert (a + b)[1..] == a[1..] + b;
      GenuineConcat(a[1..], b);
    }
  }

  lemma {:induction false} PartsGenuine(ms: seq<Message>)
    ensures Genuine(Select(Front, ms)) + Genuine(Select(Talk, ms)) + Genuine(Select(Control, ms)) == Genuine(ms)
  {
    if ms != [] { PartsGenuine(ms[1..]); }
  }

  // ----- The user-first repair

  ghost predicate UserFirst(ms: seq<Message>) {
    ms == [] || ms[0].role == User || (ms[0].role == System && UserFirst(ms[1..]))
  }

  /** Position of the first message that is not a system message. */
  function FrontLength(ms: seq<Message>): (n: nat)
    ensures n <= |ms| && (forall k :: 0 <= k < n ==> ms[k].role == System) && (n < |ms| ==> ms[n].role != System)
  {
    if ms != [] && ms[0].role == System then 1 + FrontLength(ms[1..]) else 0
  }

  function EnsureUserFirst(ms: seq<Message>, marker: RetryMarker): seq<Message> {
    var n := FrontLength(ms);
    if n == |ms| || ms[n].role == User then ms else ms[..n] + [marker] + ms[n..]
  }

  lemma {:induction false} UserFirstAt(ms: seq<Message>, n: nat)
    requires n <= |ms| && (forall k :: 0 <= k < n ==> ms[k].role == System)
    requires n < |ms| ==> ms[n].role == User
    ensures UserFirst(ms)
    decreases n
  {
    if n > 0 { UserFirstAt(ms[1..], n - 1); }
  }

  lemma MarkerInserted(a: seq<Message>, marker: RetryMarker, b: seq<Message>)
    ensures Genuine(a + [marker] + b) == Genuine(a + b)
    ensures multiset(a + [marker] + b) == multiset(a + b) + multiset{marker}
  {
    GenuineConcat(a + [marker], b);
    GenuineConcat(a, [marker]);
    GenuineConcat(a, b);
    assert Genuine([marker]) == 0;
  }

  /** The repair only ever adds the marker, and the result opens with a user turn. */
  lemma EnsureUserFirstRepairs(ms: seq<Message>, marker: RetryMarker)
    ensures var r := EnsureUserFirst(ms, marker);
            && UserFirst(r) && Genuine(r) == Genuine(ms)
            && (r == ms || multiset(r) == multiset(ms) + multiset{marker})
  {
    var n, r := FrontLength(ms), EnsureUserFirst(ms, marker);
    UserFirstAt(r, n);
    assert ms == ms[..n] + ms[n..];
    MarkerInserted(ms[..n], marker, ms[n..]);
  }

  // ----- How many rounds to drop

  function Spend(estimate: Estimator, rounds: seq<Round>): nat {
    if rounds == [] then 0 else estimate(rounds[0]) + Spend(estimate, rounds[1..])
  }

  lemma {:induction false} SpendSnoc(estimate: Estimator, rounds: seq<Round>, r: Round)
    ensures Spend(estimate, rounds + [r]) == Spend(estimate, rounds) + estimate(r)
  {
    if rounds == [] {
      assert rounds + [r] == [r];
    } else {
      assert (rounds + [r])[1..] == rounds[1..] + [r];
      SpendSnoc(estimate, rounds[1..], r);
    }
  }

  /** `drop` is the least positive number of leading rounds whose estimates reach `gap`,
      or one less than all rounds when no smaller number does. */
  ghost predicate LeastCover(estimate: Estimator, rounds: seq<Round>, gap: int, drop: nat) {
    && 1 <= drop < |rounds|
    && (forall k :: 1 <= k < drop ==> Spend(estimate, rounds[..k]) < gap)
    && (Spend(estimate, rounds[..drop]) >= gap || drop == |rounds| - 1)
  }

  method CountGapRounds(estimate: Estimator, rounds: seq<Round>, gap: int) returns (drop: nat)
    requires |rounds| >= 2
    ensures 1 <= drop <= |rounds|
    ensures forall k :: 1 <= k < drop ==> Spend(estimate, rounds[..k]) < gap
    ensures Spend(estimate, rounds[..drop]) >= gap || drop == |rounds|
  {
    drop := 0;
    var acc := 0;
    while drop < |rounds|
      invariant 0 <= drop <= |rounds| && acc == Spend(estimate, rounds[..drop])
      invariant forall k :: 1 <= k <= drop ==> Spend(estimate, rounds[..k]) < gap
    {
      assert rounds[..drop + 1] == rounds[..drop] + [rounds[drop]];
      SpendSnoc(estimate, rounds[..drop], rounds[drop]);
      acc := acc + estimate(rounds[drop]);
      drop := drop + 1;
      if acc >= gap { break; }
    }
  }

  // ----- truncate_head_for_ptl_retry

  /** What is left once the first `drop` rounds of the conversation are gone. */
  function Truncated(ms: seq<Message>, drop: nat, marker: RetryMarker): seq<Message>
    requires drop <= |Group(Select(Talk, ms))|
  {
    EnsureUserFirst(Select(Front, ms) + Flatten(Group(Select(Talk, ms))[drop..]) + Select(Control, ms), marker)
  }

  /** How many of the rounds a retry drops. */
  ghost predicate DropCount(estimate: Estimator, rounds: seq<Round>, gap: Option<int>, fraction: real, drop: nat)
  {
    if gap.Some? && gap.value > 0 then LeastCover(estimate, rounds, gap.value, drop)
    else
      var n, wanted := |rounds|, (|rounds| as real * fraction).Floor;
      1 <= drop < n && drop == if wanted < 1 then 1 else if wanted < n then wanted else n - 1
  }

  method CountDropped(estimate: Estimator, rounds: seq<Round>, gap: Option<int>, fraction: real) returns (drop: nat)
    requires |rounds| >= 2
    ensures DropCount(estimate, rounds, gap, fraction, drop) && 1 <= drop < |rounds|
  {
    if gap.Some? && gap.value > 0 {
      drop := CountGapRounds(estimate, rounds, gap.value);
    } else {
      var wanted := (|rounds| as real * fraction).Floor;
      drop := if wanted < 1 then 1 else wanted;
    }
    if drop > |rounds| - 1 { drop := |rounds| - 1; }
  }

  method TruncateHead(messages: seq<Message>, gap: Option<int>, fraction: real, estimate: Estimator,
                      marker: RetryMarker)
    returns (result: Option<seq<Message>>)
    ensures result.None? <==> |Group(Select(Talk, messages))| < 2
    ensures result.Some? ==> exists drop: nat ::
              && drop < |Group(Select(Talk, messages))|
              && DropCount(estimate, Group(Select(Talk, messages)), gap, fraction, drop)
              && result.value == Truncated(messages, drop, marker)
  {
    var rounds := GroupIntoRounds(Select(Talk, messages));
    if |rounds| < 2 { return None; }
    var drop := CountDropped(estimate, rounds, gap, fraction);
    result := Some(EnsureUserFirst(Select(Front, messages) + Flatten(rounds[drop..]) + Select(Control, messages),
        marker));
    assert result.value == Truncated(messages, drop, marker);
  }

  // ----- What truncation guarantees

  lemma PartsWithoutDropped(ms: seq<Message>, dropped: seq<Message>, kept: seq<Message>)
    requires Select(Talk, ms) == dropped + kept
    ensures var joined := Select(Front, ms) + kept + Select(Control, ms);
            Genuine(joined) + Genuine(dropped) == Genuine(ms) && multiset(joined) + multiset(dropped) == multiset(ms)
  {
    PartsPartition(ms);
    PartsGenuine(ms);
    GenuineConcat(Select(Front, ms) + kept, Select(Control, ms));
    GenuineConcat(Select(Front, ms), kept);
    GenuineConcat(dropped, kept);
    assert multiset(dropped + kept) == multiset(dropped) + multiset(kept);
  }

  /** Exactly the dropped rounds are lost; the result opens with a user turn; and the number of
      genuine messages falls by the genuine messages dropped. */
  lemma TruncationLosesOnlyDropped(ms: seq<Message>, drop: nat, marker: RetryMarker)
    requires drop <= |Group(Select(Talk, ms))|
    ensures var dropped, r := Flatten(Group(Select(Talk, ms))[..drop]), Truncated(ms, drop, marker);
            && UserFirst(r)
            && Genuine(r) == Genuine(ms) - Genuine(dropped)
            && (multiset(r) + multiset(dropped) == multiset(ms)
                || multiset(r) + multiset(dropped) == multiset(ms) + multiset{marker})
  {
    var rounds := Group(Select(Talk, ms));
    var dropped, kept := Flatten(rounds[..drop]), Flatten(rounds[drop..]);
    GroupIsMaximal(Select(Talk, ms));
    SplitRounds(rounds, drop);
    PartsWithoutDropped(ms, dropped, kept);
    EnsureUserFirstRepairs(Select(Front, ms) + kept + Select(Control, ms), marker);
  }

  /** A retry makes progress (fewer genuine messages) unless all it drops is retry markers. */
  lemma {:induction false} ProgressIffGenuineDropped(ms: seq<Message>, drop: nat, marker: RetryMarker)
    requires drop <= |Group(Select(Talk, ms))|
    ensures var dropped := Flatten(Group(Select(Talk, ms))[..drop]);
            Genuine(Truncated(ms, drop, marker)) < Genuine(ms) <==>
                exists i :: 0 <= i < |dropped| && !dropped[i].retryMarker
  {
    TruncationLosesOnlyDropped(ms, drop, marker);
    GenuinePositive(Flatten(Group(Select(Talk, ms))[..drop]));
  }

  lemma {:induction false} GenuinePositive(ms: seq<Message>)
    ensures Genuine(ms) > 0 <==> exists i :: 0 <= i < |ms| && !ms[i].retryMarker
  {
    if ms != [] {
      GenuinePositive(ms[1..]);
      if Genuine(ms[1..]) > 0 {
        var i :| 0 <= i < |ms[1..]| && !ms[1..][i].retryMarker;
        assert !ms[i + 1].retryMarker;
      }
      if i :| 0 <= i < |ms| && !ms[i].retryMarker {
        assert i == 0 || ms[1..][i - 1] == ms[i];
      }
    }
  }

  lemma {:induction false} SelectAll(part: Part, ms: seq<Message>)
    requires forall m :: m in ms ==> PartOf(m) == Talk
    ensures Select(part, ms) == if part == Talk then ms else []
  {
    if ms != [] {
      assert ms[0] in ms && forall m :: m in ms[1..] ==> m in ms;
      SelectAll(part, ms[1..]);
    }
  }

  /** A retry drops one round exactly when there are two, or the first one covers the gap, or without
      a gap the fraction asks for fewer than two. */
  lemma DropsOneIff(estimate: Estimator, rounds: seq<Round>, gap: Option<int>, fraction: real)
    requires |rounds| >= 2
    ensures DropCount(estimate, rounds, gap, fraction, 1) <==>
            || |rounds| == 2
            || (if gap.Some? && gap.value > 0 then estimate(rounds[0]) >= gap.value
                else (|rounds| as real * fraction).Floor < 2)
  {
    assert rounds[..1] == [rounds[0]] && [rounds[0]][1..] == [];
    assert Spend(estimate, rounds[..1]) == estimate(rounds[0]);
  }

  /** With the default fraction that is so below ten rounds. */
  lemma DefaultDropsOne(estimate: Estimator, rounds: seq<Round>)
    requires 2 <= |rounds| < 10
    ensures DropCount(estimate, rounds, None, 0.2, 1)
  {
    DropsOneIff(estimate, rounds, None, 0.2);
  }

  /** The exception is real: a history that opens with the marker is truncated to itself whenever the
      turn after the marker is not a user's and one round is dropped; so without a gap below ten
      rounds, and with a gap that the marker's estimate covers. */
  lemma TruncationCanStall(rest: seq<Message>, marker: RetryMarker, estimate: Estimator, gap: int)
    requires rest != [] && (rest[0].role == Assistant || rest[0].role == Tool)
    requires forall m :: m in rest ==> PartOf(m) == Talk
    ensures var ms := [marker] + rest;
            var rounds := Group(Select(Talk, ms));
            && |rounds| >= 2 && Truncated(ms, 1, marker) == ms
            && (|rounds| < 10 ==> DropCount(estimate, rounds, None, 0.2, 1))
            && (0 < gap <= estimate([marker]) ==> DropCount(estimate, rounds, Some(gap), 0.2, 1))
  {
    var ms := [marker] + rest;
    MarkerIsRound(rest, marker);
    TruncatedToItself(rest, marker);
    OneIsDropped(Group(ms), marker, estimate, gap);
  }

  lemma TruncatedToItself(rest: seq<Message>, marker: RetryMarker)
    requires rest != [] && (rest[0].role == Assistant || rest[0].role == Tool)
    requires forall m :: m in rest ==> PartOf(m) == Talk
    ensures var ms := [marker] + rest;
            Select(Talk, ms) == ms && |Group(ms)| >= 2 && Truncated(ms, 1, marker) == ms
  {
    AllTalk(rest, marker);
    MarkerIsRound(rest, marker);
    OnlyTalkLeft([marker] + rest, rest, marker);
    MarkerRestored(rest, marker);
  }

  lemma OnlyTalkLeft(ms: seq<Message>, kept: seq<Message>, marker: RetryMarker)
    requires Select(Front, ms) == [] && Select(Control, ms) == []
    requires Group(Select(Talk, ms)) != [] && Flatten(Group(Select(Talk, ms))[1..]) == kept
    ensures Truncated(ms, 1, marker) == EnsureUserFirst(kept, marker)
  {
    NothingAround(Select(Front, ms), Flatten(Group(Select(Talk, ms))[1..]), Select(Control, ms));
  }

  lemma NothingAround(a: seq<Message>, b: seq<Message>, c: seq<Message>)
    requires a == [] && c == []
    ensures a + b + c == b
  {}

  lemma AllTalk(rest: seq<Message>, marker: RetryMarker)
    requires forall m :: m in rest ==> PartOf(m) == Talk
    ensures var ms := [marker] + rest; Select(Front, ms) == [] && Select(Talk, ms) == ms && Select(Control, ms) == []
  {
    var ms := [marker] + rest;
    SelectAll(Front, ms);
    SelectAll(Talk, ms);
    SelectAll(Control, ms);
  }

  lemma OneIsDropped(rounds: seq<Round>, marker: RetryMarker, estimate: Estimator, gap: int)
    requires |rounds| >= 2 && rounds[0] == [marker]
    ensures |rounds| < 10 ==> DropCount(estimate, rounds, None, 0.2, 1)
    ensures 0 < gap <= estimate([marker]) ==> DropCount(estimate, rounds, Some(gap), 0.2, 1)
  {
    if |rounds| < 10 { DefaultDropsOne(estimate, rounds); }
    DropsOneIff(estimate, rounds, Some(gap), 0.2);
  }

  lemma MarkerIsRound(rest: seq<Message>, marker: RetryMarker)
    requires rest != []
    ensures var rounds := Group([marker] + rest);
            |rounds| >= 2 && rounds[0] == [marker] && Flatten(rounds[1..]) == rest
  {
    GroupCons([marker], rest);
    GroupIsMaximal(rest);
    assert Group([marker] + rest)[1..] == Group(rest);
  }

  lemma MarkerRestored(rest: seq<Message>, marker: RetryMarker)
    requires rest != [] && (rest[0].role == Assistant || rest[0].role == Tool)
    ensures EnsureUserFirst(rest, marker) == [marker] + rest
  {
    assert FrontLength(rest) == 0;
    assert rest[..0] + [marker] + rest[0..] == [marker] + rest;
  }

  // ----- Order

  /** The repair changes nothing when the first message that is not a system message is a user turn; otherwise it
      puts the marker just before that message. */
  lemma RepairIff(ms: seq<Message>, marker: RetryMarker)
    ensures EnsureUserFirst(ms, marker) == ms <==> UserFirst(ms)
    ensures !UserFirst(ms) ==>
              exists n :: && 0 <= n < |ms| && (forall k :: 0 <= k < n ==> ms[k].role == System)
                          && ms[n].role in {Assistant, Tool}
                          && EnsureUserFirst(ms, marker) == ms[..n] + [marker] + ms[n..]
  {
    var n := FrontLength(ms);
    if n == |ms| || ms[n].role == User {
      UserFirstAt(ms, n);
    } else {
      NotUserFirstAt(ms, n);
      assert |ms[..n] + [marker] + ms[n..]| == |ms| + 1;
    }
  }

  lemma {:induction false} NotUserFirstAt(ms: seq<Message>, n: nat)
    requires n < |ms| && (forall k :: 0 <= k < n ==> ms[k].role == System) && ms[n].role in {Assistant, Tool}
    ensures !UserFirst(ms)
    decreases n
  {
    if n > 0 { NotUserFirstAt(ms[1..], n - 1); }
  }

  lemma {:induction false} SelectTwice(part: Part, other: Part, ms: seq<Message>)
    ensures Select(part, Select(other, ms)) == if part == other then Select(part, ms) else []
  {
    if ms != [] {
      SelectTwice(part, other, ms[1..]);
      if PartOf(ms[0]) == other { assert Select(other, ms)[1..] == Select(other, ms[1..]); }
    }
  }

  /** The parts of what is left before the repair. */
  lemma PartsOfRemainder(ms: seq<Message>, dropped: seq<Message>, kept: seq<Message>, part: Part)
    requires Select(Talk, ms) == dropped + kept
    ensures Select(part, Select(Front, ms) + kept + Select(Control, ms)) ==
            if part == Talk then kept else Select(part, ms)
  {
    SelectConcat(part, Select(Front, ms) + kept, Select(Control, ms));
    SelectConcat(part, Select(Front, ms), kept);
    SelectTwice(part, Front, ms);
    SelectTwice(part, Control, ms);
    TalkOnly(ms, dropped, kept);
    SelectAll(part, kept);
  }

  lemma TalkOnly(ms: seq<Message>, dropped: seq<Message>, kept: seq<Message>)
    requires Select(Talk, ms) == dropped + kept
    ensures forall m :: m in kept ==> PartOf(m) == Talk
  {
    forall m | m in kept ensures PartOf(m) == Talk {
      assert m in Select(Talk, ms);
      SelectIn(Talk, ms, m);
    }
  }

  /** The messages with the marker put in somewhere after system messages only. */
  ghost predicate MarkedAfterSystem(before: seq<Message>, marker: Message, after: seq<Message>) {
    exists k :: && 0 <= k <= |before| && (forall j :: 0 <= j < k ==> before[j].role == System)
                && after == before[..k] + [marker] + before[k..]
  }

  lemma PartsAroundMarker(ms: seq<Message>, n: nat, marker: RetryMarker, part: Part)
    requires n <= |ms| && forall k :: 0 <= k < n ==> ms[k].role == System
    ensures var r, before := Select(part, ms[..n] + [marker] + ms[n..]), Select(part, ms);
            if part == Talk then MarkedAfterSystem(before, marker, r) else r == before
  {
    assert ms == ms[..n] + ms[n..];
    SelectConcat(part, ms[..n], ms[n..]);
    SelectConcat(part, ms[..n] + [marker], ms[n..]);
    SelectConcat(part, ms[..n], [marker]);
    assert PartOf(marker) == Talk && [marker][1..] == [];
    var front, back := Select(part, ms[..n]), Select(part, ms[n..]);
    if part == Talk {
      var before := front + back;
      assert before[..|front|] == front && before[|front|..] == back;
      forall j | 0 <= j < |front| ensures before[j].role == System {
        SelectIn(part, ms[..n], front[j]);
      }
    } else {
      assert front + [] == front;
    }
  }

  /** What is left keeps its order: preserved and control messages as they were, and of the conversation exactly the
      rounds after the dropped ones, with the marker at most after leading system messages. */
  lemma TruncationKeepsOrder(ms: seq<Message>, drop: nat, marker: RetryMarker)
    requires drop <= |Group(Select(Talk, ms))|
    ensures var r, kept := Truncated(ms, drop, marker), Flatten(Group(Select(Talk, ms))[drop..]);
            && Select(Front, r) == Select(Front, ms) && Select(Control, r) == Select(Control, ms)
            && (Select(Talk, r) == kept || MarkedAfterSystem(kept, marker, Select(Talk, r)))
  {
    var rounds := Group(Select(Talk, ms));
    var dropped, kept := Flatten(rounds[..drop]), Flatten(rounds[drop..]);
    GroupIsMaximal(Select(Talk, ms));
    SplitRounds(rounds, drop);
    var joined := Select(Front, ms) + kept + Select(Control, ms);
    var n := FrontLength(joined);
    forall part: Part ensures Select(part, joined) == if part == Talk then kept else Select(part, ms) {
      PartsOfRemainder(ms, dropped, kept, part);
    }
    forall part: Part
      ensures var r := Select(part, joined[..n] + [marker] + joined[n..]);
              if part == Talk then MarkedAfterSystem(Select(part, joined), marker, r) else r == Select(part, joined)
    {
      PartsAroundMarker(joined, n, marker, part);
    }
  }

  /** A message that is pinned, ephemeral, or a system message other than a summary is never dropped. */
  lemma ImportantIsKept(ms: seq<Message>, drop: nat, marker: RetryMarker, m: Message)
    requires drop <= |Group(Select(Talk, ms))| && m in ms
    requires m.pinned || m.ephemeral || (m.role == System && m.compressed !in {ContextCollapse, LlmSummary})
    ensures m in Truncated(ms, drop, marker)
  {
    TruncationKeepsOrder(ms, drop, marker);
    var r := Truncated(ms, drop, marker);
    SelectIn(PartOf(m), ms, m);
    SelectIn(PartOf(m), r, m);
  }
}
