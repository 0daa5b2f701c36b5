/**
 Messages and API rounds: an assistant message that issued tool calls is glued to the tool
 results that directly follow it and answer one of those calls.
 */
module Rounds {

  datatype Role = System | User | Assistant | Tool

  /** The `compressed` marker a rewritten message carries. */
  datatype Marker = Unmarked | Snip | Microcompact | PtlShrink | ContextCollapse | LlmSummary

  /**
   The parts of a message that compaction reads or writes.  `callIds` are the ids of the
   tool calls listed in the metadata; `resultOf` is the `tool_call_id` of a tool result;
   `ephemeral` stands for the deadline-wrapup and ephemeral-control flags.
   */
  datatype Message = Message(
    role: Role, content: string, callIds: set<string>, resultOf: string,
    pinned: bool, ephemeral: bool, retryMarker: bool, compressed: Marker, version: nat)

  type Round = seq<Message>

  function CallIds(m: Message): set<string> {
    if m.role == Assistant then m.callIds else {}
  }

  predicate Answers(call: Message, m: Message) {
    m.role == Tool && m.resultOf in CallIds(call)
  }

  predicate IsPreserved(m: Message) {
    !m.ephemeral && (m.pinned || (m.role == System && m.compressed != ContextCollapse && m.compressed != LlmSummary))
  }

  function Flatten(rounds: seq<Round>): seq<Message> {
    if rounds == [] then [] else rounds[0] + Flatten(rounds[1..])
  }

  function Chars(ms: seq<Message>): nat {
    if ms == [] then 0 else |ms[0].content| + Chars(ms[1..])
  }

  // ----- What a grouping must be

  /** One round: a single message, or a call followed only by answers to it. */
  ghost predicate WellGlued(r: Round) {
    |r| >= 1 && forall k :: 1 <= k < |r| ==> Answers(r[0], r[k])
  }

  /** A list of rounds in which no round could have taken the first message of the next. */
  ghost predicate Maximal(rounds: seq<Round>) {
    rounds == [] || (
      && WellGlued(rounds[0])
      && Maximal(rounds[1..])
      && (|rounds| > 1 ==> !Answers(rounds[0][0], rounds[1][0])))
  }

  // ----- The grouping itself

  /** How many messages from the front of `ms` answer `call` without a gap. */
  function Glued(call: Message, ms: seq<Message>): (n: nat)
    ensures n <= |ms|
    ensures forall k :: 0 <= k < n ==> Answers(call, ms[k])
    ensures n < |ms| ==> !Answers(call, ms[n])
  {
    if ms != [] && Answers(call, ms[0]) then 1 + Glued(call, ms[1..]) else 0
  }

  /** The rounds of a message list, by taking one round off the front. */
  function Group(ms: seq<Message>): (rounds: seq<Round>)
    decreases |ms|
  {
    if ms == [] then []
    else
      var n := 1 + Glued(ms[0], ms[1..]);
      [ms[..n]] + Group(ms[n..])
  }

  /** The first round takes at least one message and ends before the first that does not answer. */
  lemma FirstRound(ms: seq<Message>) returns (n: nat)
    requires ms != []
    ensures 1 <= n <= |ms| && WellGlued(ms[..n]) && (n < |ms| ==> !Answers(ms[0], ms[n]))
    ensures Group(ms) == [ms[..n]] + Group(ms[n..])
  {
    n := 1 + Glued(ms[0], ms[1..]);
    var first := ms[..n];
    forall k | 1 <= k < n ensures Answers(first[0], first[k]) { assert first[k] == ms[1..][k - 1]; }
    if n < |ms| { assert ms[n] == ms[1..][n - 1]; }
  }

  lemma MaximalCons(first: Round, rest: seq<Round>)
    requires WellGlued(first) && Maximal(rest) && (rest != [] ==> !Answers(first[0], rest[0][0]))
    ensures Maximal([first] + rest)
  {
    assert ([first] + rest)[1..] == rest;
  }

  lemma {:induction false} GroupFlattens(ms: seq<Message>)
    ensures Flatten(Group(ms)) == ms
    decreases |ms|
  {
    if ms != [] {
      var n := FirstRound(ms);
      GroupFlattens(ms[n..]);
      FlattenWhole(ms, n, Group(ms[n..]));
    }
  }

  lemma FlattenWhole(ms: seq<Message>, n: nat, rest: seq<Round>)
    requires n <= |ms| && Flatten(rest) == ms[n..]
    ensures Flatten([ms[..n]] + rest) == ms
  {
    assert ([ms[..n]] + rest)[1..] == rest;
  }

  lemma GroupStarts(ms: seq<Message>)
    requires ms != []
    ensures Group(ms) != [] && Group(ms)[0] != [] && Group(ms)[0][0] == ms[0]
  {
    var n := FirstRound(ms);
    assert ms[..n][0] == ms[0];
  }

  lemma {:induction false} GroupMaximal(ms: seq<Message>)
    ensures Maximal(Group(ms))
    decreases |ms|
  {
    if ms != [] {
      var n := FirstRound(ms);
      var first, rest := ms[..n], Group(ms[n..]);
      GroupMaximal(ms[n..]);
      if n < |ms| { GroupStarts(ms[n..]); }
      MaximalCons(first, rest);
    }
  }

  /** Rounds concatenate to the messages, are glued, and could not be longer. */
  lemma GroupIsMaximal(ms: seq<Message>)
    ensures Flatten(Group(ms)) == ms
    ensures Maximal(Group(ms))
    ensures ms != [] ==> Group(ms) != [] && Group(ms)[0] != [] && Group(ms)[0][0] == ms[0]
  {
    GroupFlattens(ms);
    GroupMaximal(ms);
    if ms != [] { GroupStarts(ms); }
  }

  lemma {:induction false} GluedExactly(call: Message, own: seq<Message>, rest: seq<Message>)
    requires forall k :: 0 <= k < |own| ==> Answers(call, own[k])
    requires rest != [] ==> !Answers(call, rest[0])
    ensures Glued(call, own + rest) == |own|
  {
    if own == [] {
      assert own + rest == rest;
    } else {
      assert (own + rest)[1..] == own[1..] + rest;
      GluedExactly(call, own[1..], rest);
    }
  }

  lemma GroupCons(r: Round, rest: seq<Message>)
    requires WellGlued(r) && (rest != [] ==> !Answers(r[0], rest[0]))
    ensures Group(r + rest) == [r] + Group(rest)
  {
    var ms := r + rest;
    assert ms[1..] == r[1..] + rest;
    GluedExactly(r[0], r[1..], rest);
    assert ms[..|r|] == r && ms[|r|..] == rest;
  }

  /** A maximal grouping is the only one: grouping its messages gives it back. */
  lemma {:induction false} GroupUnique(rounds: seq<Round>)
    requires Maximal(rounds)
    ensures Group(Flatten(rounds)) == rounds
  {
    if rounds != [] {
      GroupUnique(rounds[1..]);
      GroupCons(rounds[0], Flatten(rounds[1..]));
    }
  }

  lemma {:induction false} MaximalSlice(rounds: seq<Round>, i: nat, j: nat)
    requires Maximal(rounds) && i <= j <= |rounds|
    ensures Maximal(rounds[i..j])
  {
    if i > 0 {
      assert rounds[i..j] == rounds[1..][i - 1..j - 1];
      MaximalSlice(rounds[1..], i - 1, j - 1);
    } else if j > 0 {
      assert rounds[0..j][1..] == rounds[1..][0..j - 1];
      MaximalSlice(rounds[1..], 0, j - 1);
    }
  }

  /** Regrouping any run of whole rounds gives back exactly those rounds. */
  lemma RegroupSlice(ms: seq<Message>, i: nat, j: nat)
    requires i <= j <= |Group(ms)|
    ensures Group(Flatten(Group(ms)[i..j])) == Group(ms)[i..j]
  {
    GroupIsMaximal(ms);
    MaximalSlice(Group(ms), i, j);
    GroupUnique(Group(ms)[i..j]);
  }

  // ----- group_into_rounds

  method GatherRound(messages: seq<Message>, index: nat) returns (group: Round, cursor: nat)
    requires index < |messages|
    ensures index < cursor <= |messages| && messages[index..] == group + messages[cursor..]
    ensures WellGlued(group) && group[0] == messages[index]
    ensures cursor < |messages| ==> !Answers(messages[index], messages[cursor])
  {
    var message := messages[index];
    group, cursor := [message], index + 1;
    if CallIds(message) != {} {
      while cursor < |messages| && Answers(message, messages[cursor])
        invariant index + 1 <= cursor <= |messages|
        invariant group == messages[index..cursor] && WellGlued(group)
      {
        group := group + [messages[cursor]];
        cursor := cursor + 1;
      }
    }
  }

  lemma RoundsMoved(goal: seq<Round>, done: seq<Round>, group: Round, rest: seq<Round>)
    requires goal == done + ([group] + rest)
    ensures goal == done + [group] + rest
  {}

  method GroupIntoRounds(messages: seq<Message>) returns (rounds: seq<Round>)
    ensures rounds == Group(messages)
  {
    rounds := [];
    var index := 0;
    ghost var goal := Group(messages);
    assert messages[0..] == messages;
    while index < |messages|
      invariant index <= |messages|
      invariant goal == rounds + Group(messages[index..])
    {
      var group, cursor := GatherRound(messages, index);
      GroupCons(group, messages[cursor..]);
      RoundsMoved(goal, rounds, group, Group(messages[cursor..]));
      rounds, index := rounds + [group], cursor;
    }
    assert messages[index..] == [];
  }

  // ----- split_on_round_boundary

  /** A call at `i` and a later result at `j` with only answers to the call in between. */
  ghost predicate GluedPair(ms: seq<Message>, i: nat, j: nat) {
    i < j < |ms| && forall k :: i < k <= j ==> Answers(ms[i], ms[k])
  }

  /** A cut at message position `at` that separates no call from its glued results. */
  ghost predicate CleanCut(ms: seq<Message>, at: nat) {
    forall i: nat, j: nat :: i < at <= j ==> !GluedPair(ms, i, j)
  }

  lemma CutCons(r: Round, ms: seq<Message>, at: nat)
    requires WellGlued(r) && (ms != [] ==> !Answers(r[0], ms[0])) && CleanCut(ms, at)
    ensures CleanCut(r + ms, |r| + at)
  {
    var all := r + ms;
    forall i: nat, j: nat | i < |r| + at <= j ensures !GluedPair(all, i, j) {
      if i < |r| {
        if |r| <= j < |all| {
          if i > 0 { assert Answers(r[0], r[i]); }
          assert !Answers(all[i], all[|r|]);
        }
      } else if GluedPair(all, i, j) {
        forall k | i - |r| < k <= j - |r| ensures Answers(ms[i - |r|], ms[k]) { assert all[k + |r|] == ms[k]; }
        assert GluedPair(ms, i - |r|, j - |r|);
      }
    }
  }

  /** Between any two rounds there is a clean cut. */
  lemma {:induction false} RoundCutIsClean(pre: seq<Round>, post: seq<Round>)
    requires Maximal(pre + post)
    ensures Flatten(pre + post) == Flatten(pre) + Flatten(post)
    ensures CleanCut(Flatten(pre + post), |Flatten(pre)|)
    decreases |pre|
  {
    if pre == [] {
      assert pre + post == post;
    } else {
      var rest := pre[1..] + post;
      assert (pre + post)[1..] == rest;
      RoundCutIsClean(pre[1..], post);
      if rest != [] { assert Flatten(rest)[0] == rest[0][0]; }
      CutCons(pre[0], Flatten(rest), |Flatten(pre[1..])|);
    }
  }

  /** Cutting the rounds anywhere loses nothing, and each part regroups to its own rounds. */
  lemma SplitRounds(rounds: seq<Round>, b: nat)
    requires Maximal(rounds) && b <= |rounds|
    ensures var prefix, recent := Flatten(rounds[..b]), Flatten(rounds[b..]);
            && prefix + recent == Flatten(rounds) && CleanCut(prefix + recent, |prefix|)
            && Group(prefix) == rounds[..b] && Group(recent) == rounds[b..]
  {
    assert rounds == rounds[..b] + rounds[b..];
    RoundCutIsClean(rounds[..b], rounds[b..]);
    MaximalSlice(rounds, 0, b);
    MaximalSlice(rounds, b, |rounds|);
    assert rounds[b..|rounds|] == rounds[b..] && rounds[0..b] == rounds[..b];
    GroupUnique(rounds[..b]);
    GroupUnique(rounds[b..]);
  }

  /** Splitting off the fewest whole rounds from the end that hold at least `keep` messages. */
  method SplitOnRoundBoundary(conversation: seq<Message>, keep: int)
    returns (prefix: seq<Message>, recent: seq<Message>)
    ensures prefix + recent == conversation
    ensures Group(prefix) + Group(recent) == Group(conversation)
    ensures CleanCut(conversation, |prefix|)
    ensures keep <= 0 && conversation != [] ==> recent == []
    ensures keep >= |conversation| ==> prefix == []
    ensures 0 < keep < |conversation| ==>
              |recent| >= keep && Group(recent) != [] && |Flatten(Group(recent)[1..])| < keep
  {
    if keep <= 0 || keep >= |conversation| {
      if keep >= |conversation| { return [], conversation; }
      return conversation, [];
    }
    var rounds := GroupIntoRounds(conversation);
    GroupIsMaximal(conversation);
    var boundary := FindBoundary(rounds, keep);
    SplitRounds(rounds, boundary);
    prefix, recent := Flatten(rounds[..boundary]), Flatten(rounds[boundary..]);
    assert rounds[boundary..][1..] == rounds[boundary + 1..];
  }

  method FindBoundary(rounds: seq<Round>, keep: int) returns (boundary: nat)
    requires 0 < keep <= |Flatten(rounds)|
    ensures boundary < |rounds|
    ensures |Flatten(rounds[boundary + 1..])| < keep <= |Flatten(rounds[boundary..])|
  {
    assert rounds[|rounds|..] == [] && rounds[0..] == rounds;
    boundary := |rounds|;
    while |Flatten(rounds[boundary..])| < keep
      invariant 0 <= boundary <= |rounds|
      invariant boundary < |rounds| ==> |Flatten(rounds[boundary + 1..])| < keep
      decreases boundary
    {
      boundary := boundary - 1;
    }
  }

  // ----- Rewriting contents keeps the rounds

  /** Two lists that differ only in what a rewrite of contents and markers may change. */
  ghost predicate SameShape(a: seq<Message>, b: seq<Message>) {
    && |a| == |b|
    && forall i :: 0 <= i < |a| ==>
         && a[i].role == b[i].role && a[i].callIds == b[i].callIds && a[i].resultOf == b[i].resultOf
         && a[i].pinned == b[i].pinned && a[i].ephemeral == b[i].ephemeral && a[i].retryMarker == b[i].retryMarker
  }

  function RoundLengths(ms: seq<Message>): seq<nat> {
    Lengths(Group(ms))
  }

  function Lengths(rounds: seq<Round>): seq<nat> {
    if rounds == [] then [] else [|rounds[0]|] + Lengths(rounds[1..])
  }

  lemma {:induction false} GluedSameShape(call: Message, call': Message, a: seq<Message>, b: seq<Message>)
    requires SameShape([call] + a, [call'] + b)
    ensures Glued(call, a) == Glued(call', b)
    decreases |a|
  {
    var x, y := [call] + a, [call'] + b;
    assert x[0] == call && y[0] == call';
    if a != [] {
      assert x[1] == a[0] && y[1] == b[0];
      assert SameShape([call] + a[1..], [call'] + b[1..]) by {
        forall i | 1 <= i < |a| ensures ([call] + a[1..])[i] == x[i + 1] && ([call'] + b[1..])[i] == y[i + 1] {}
      }
      GluedSameShape(call, call', a[1..], b[1..]);
    }
  }

  lemma SameShapeRest(a: seq<Message>, b: seq<Message>, n: nat)
    requires SameShape(a, b) && n <= |a|
    ensures SameShape(a[n..], b[n..])
  {}

  lemma LengthsCons(ms: seq<Message>, n: nat)
    requires ms != [] && n == 1 + Glued(ms[0], ms[1..])
    ensures n <= |ms| && RoundLengths(ms) == [n] + RoundLengths(ms[n..])
  {
    assert Group(ms) == [ms[..n]] + Group(ms[n..]);
    assert Group(ms)[1..] == Group(ms[n..]);
  }

  /** Rounds keep their sizes, so a rewrite never moves a message into another round. */
  lemma {:induction false} ShapeKeepsRounds(a: seq<Message>, b: seq<Message>)
    requires SameShape(a, b)
    ensures RoundLengths(a) == RoundLengths(b)
    decreases |a|
  {
    if a != [] {
      assert a == [a[0]] + a[1..] && b == [b[0]] + b[1..];
      GluedSameShape(a[0], b[0], a[1..], b[1..]);
      var n := 1 + Glued(a[0], a[1..]);
      LengthsCons(a, n);
      LengthsCons(b, n);
      SameShapeRest(a, b, n);
      ShapeKeepsRounds(a[n..], b[n..]);
    }
  }

  // ----- The three parts of a history

  /** `Front`: preserved system or pinned messages; `Control`: ephemeral control messages;
      `Talk`: the conversation, which alone may be folded or dropped. */
  datatype Part = Front | Talk | Control

  function PartOf(m: Message): Part {
    if m.ephemeral then Control else if IsPreserved(m) then Front else Talk
  }

  function Select(part: Part, ms: seq<Message>): seq<Message> {
    if ms == [] then []
    else if PartOf(ms[0]) == part then [ms[0]] + Select(part, ms[1..])
    else Select(part, ms[1..])
  }

  /** Every message is in exactly one part. */
  lemma {:induction false} PartsPartition(ms: seq<Message>)
    ensures multiset(Select(Front, ms)) + multiset(Select(Talk, ms)) + multiset(Select(Control, ms)) == multiset(ms)
  {
    if ms != [] {
      assert ms == [ms[0]] + ms[1..];
      PartsPartition(ms[1..]);
    }
  }

  lemma {:induction false} SelectConcat(part: Part, a: seq<Message>, b: seq<Message>)
    ensures Select(part, a + b) == Select(part, a) + Select(part, b)
  {
    if a == [] {
      assert a + b == b;
    } else {
      assert (a + b)[1..] == a[1..] + b;
      SelectConcat(part, a[1..], b);
    }
  }

  lemma {:induction false} SelectIn(part: Part, ms: seq<Message>, m: Message)
    ensures m in Select(part, ms) <==> m in ms && PartOf(m) == part
  {
    if ms != [] { SelectIn(part, ms[1..], m); }
  }
}
