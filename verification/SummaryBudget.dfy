/**
 Input budgets of a hierarchical summary: how the text to be folded is cut into calls.
 */
module SummaryBudget {
  import opened Wrappers
  import opened Rounds
  import opened Text

  datatype Config = Config(
    startTokens: int, maxOutputTokens: int, outputRetries: int,
    mapTokens: int, totalOutputTokens: int,
    inputMaxChars: int, totalInputMaxChars: int, maxChunks: int)

  // ----- Text caps

  const CUT_MARKER := "\n[... summary truncated ...]"

  function CapText(value: string, limit: int): string {
    if limit <= 0 || |value| <= limit then value
    else Take(value, Max(0, limit - |CUT_MARKER|)) + CUT_MARKER
  }

  /** The cap is respected exactly when nothing is cut or the limit has room for the marker. */
  lemma CapTextWithinLimit(value: string, limit: int)
    requires limit > 0
    ensures |CapText(value, limit)| <= limit <==> |value| <= limit || limit >= 28
    ensures |value| > limit ==> |CapText(value, limit)| == Max(28, limit)
  {
    assert |CUT_MARKER| == 28;
  }

  /** Head, middle and tail of a text, within `limit` characters. */
  function TimelineExcerpt(value: string, limit: int): (r: string)
    ensures |r| <= Max(0, limit)
    ensures |value| <= limit ==> r == value
  {
    if limit <= 0 then ""
    else if |value| <= limit then value
    else if limit < 64 then value[..limit]
    else
      var usable := limit - 10;
      var head, middle := usable / 3, usable / 3;
      var tail := usable - head - middle;
      var from := Max(0, |value| / 2 - middle / 2);
      Take(value[..head] + " ... " + Take(value[from..], middle) + " ... " + value[|value| - tail..], limit)
  }

  /** A longer text of which at least 64 characters are wanted gives its first and last third and a third from its
      middle, in order and to the limit; of a shorter excerpt the first characters are given. */
  lemma ExcerptParts(value: string, limit: int) returns (from: nat)
    requires 0 < limit < |value|
    ensures limit < 64 ==> TimelineExcerpt(value, limit) == value[..limit]
    ensures limit >= 64 ==>
              var r, third := TimelineExcerpt(value, limit), (limit - 10) / 3;
              && |r| == limit && from + third <= |value| && |value| - 1 <= 2 * from + third <= |value| + 1
              && r[..third] == value[..third] && r[third..third + 5] == " ... "
              && r[third + 5..2 * third + 5] == value[from..from + third] && r[2 * third + 5..2 * third + 10] == " ... "
              && r[2 * third + 10..] == value[|value| - (limit - 10 - 2 * third)..]
  {
    var third := (limit - 10) / 3;
    from := 0;
    if limit >= 64 {
      from := |value| / 2 - third / 2;
      MiddleThird(|value|, limit, third, from);
      var tail := limit - 10 - 2 * third;
      ExcerptIs(value, limit, third, from, tail);
      FiveParts(value[..third], value[from..from + third], value[|value| - tail..], third);
    }
  }

  lemma MiddleThird(n: nat, limit: int, third: int, from: int)
    requires 64 <= limit < n && third == (limit - 10) / 3 && from == n / 2 - third / 2
    ensures 0 <= from && from + third <= n && n - 1 <= 2 * from + third <= n + 1
    ensures 0 <= third && third <= limit - 10 - 2 * third <= n
  {}

  lemma ExcerptIs(value: string, limit: int, third: nat, from: nat, tail: nat)
    requires 64 <= limit < |value| && third == (limit - 10) / 3 && from == |value| / 2 - third / 2
    requires tail == limit - 10 - 2 * third && from + third <= |value| && tail <= |value|
    ensures TimelineExcerpt(value, limit) ==
            value[..third] + " ... " + value[from..from + third] + " ... " + value[|value| - tail..]
  {
    assert Take(value[from..], third) == value[from..from + third];
    var whole := value[..third] + " ... " + value[from..from + third] + " ... " + value[|value| - tail..];
    assert |whole| == limit;
    assert Take(whole, limit) == whole;
  }

  lemma FiveParts(a: string, b: string, c: string, n: nat)
    requires |a| == |b| == n
    ensures var r := a + " ... " + b + " ... " + c;
            && r[..n] == a && r[n..n + 5] == " ... " && r[n + 5..2 * n + 5] == b
            && r[2 * n + 5..2 * n + 10] == " ... " && r[2 * n + 10..] == c
  {}

  // ----- Cutting the prefix into calls

  function RenderOverhead(gross: int): int { Min(384, Max(0, gross - 800)) }
  function PerCall(config: Config): int { Max(1, config.inputMaxChars - RenderOverhead(config.inputMaxChars)) }
  function TotalCap(config: Config): int { Max(1, config.totalInputMaxChars) }

  /** Characters plus the role label that rendering adds to each message. */
  function Rendered(ms: seq<Message>): nat { Chars(ms) + 4 * |ms| }

  /** Rendering takes up to 384 characters of an input limit, as long as that leaves 800; one call may hold the rest,
      and at least one character. */
  lemma PerCallLeavesOverhead(config: Config)
    ensures var gross := config.inputMaxChars;
            && 0 <= RenderOverhead(gross) <= 384 && PerCall(config) >= 1
            && (gross >= 1 ==> PerCall(config) + RenderOverhead(gross) == gross)
            && (gross < 1 ==> PerCall(config) == 1)
            && (RenderOverhead(gross) > 0 ==> PerCall(config) >= 800)
            && (RenderOverhead(gross) == 384 || gross <= 800 || PerCall(config) == 800)
  {}

  lemma RenderedAdds(a: seq<Message>, b: seq<Message>, m: Message)
    ensures Rendered(a + b) == Rendered(a) + Rendered(b) && Rendered([]) == 0
    ensures Rendered([m]) == |m.content| + 4
  {
    CharsConcat(a, b);
    assert [m][1..] == [];
  }

  function Join(chunks: seq<seq<Message>>): seq<Message> {
    if chunks == [] then [] else chunks[0] + Join(chunks[1..])
  }

  function TotalChars(chunks: seq<seq<Message>>): nat {
    if chunks == [] then 0 else Chars(chunks[0]) + TotalChars(chunks[1..])
  }

  lemma {:induction false} CharsConcat(a: seq<Message>, b: seq<Message>)
    ensures Chars(a + b) == Chars(a) + Chars(b)
  {
    if a == [] {
      assert a + b == b;
    } else {
      assert (a + b)[1..] == a[1..] + b;
      CharsConcat(a[1..], b);
    }
  }

  lemma {:induction false} JoinSnoc(chunks: seq<seq<Message>>, c: seq<Message>)
    ensures Join(chunks + [c]) == Join(chunks) + c
    ensures TotalChars(chunks + [c]) == TotalChars(chunks) + Chars(c)
  {
    if chunks == [] {
      assert chunks + [c] == [c];
    } else {
      assert (chunks + [c])[1..] == chunks[1..] + [c];
      JoinSnoc(chunks[1..], c);
    }
  }

  lemma {:induction false} TotalIsJoined(chunks: seq<seq<Message>>)
    ensures TotalChars(chunks) == Chars(Join(chunks))
  {
    if chunks != [] {
      TotalIsJoined(chunks[1..]);
      CharsConcat(chunks[0], Join(chunks[1..]));
    }
  }

  /** Greedy packing of whole rounds into calls of at most `perCall` rendered characters; `current`
      is the call being filled. */
  function Pack(rounds: seq<Round>, current: seq<Message>, perCall: int): seq<seq<Message>>
    decreases |rounds|
  {
    if rounds == [] then (if current == [] then [] else [current])
    else if current != [] && Rendered(current) + Rendered(rounds[0]) > perCall then
      [current] + Pack(rounds[1..], rounds[0], perCall)
    else Pack(rounds[1..], current + rounds[0], perCall)
  }

  /** Packing loses nothing. */
  lemma {:induction false} PackLossless(rounds: seq<Round>, current: seq<Message>, perCall: int)
    ensures Join(Pack(rounds, current, perCall)) == current + Flatten(rounds)
    decreases |rounds|
  {
    if rounds == [] {
      if current != [] { assert [current][1..] == []; }
    } else if current != [] && Rendered(current) + Rendered(rounds[0]) > perCall {
      PackLossless(rounds[1..], rounds[0], perCall);
      JoinCons(current, Pack(rounds[1..], rounds[0], perCall));
    } else {
      PackLossless(rounds[1..], current + rounds[0], perCall);
      assert current + rounds[0] + Flatten(rounds[1..]) == current + (rounds[0] + Flatten(rounds[1..]));
    }
  }

  lemma JoinCons(c: seq<Message>, chunks: seq<seq<Message>>)
    ensures Join([c] + chunks) == c + Join(chunks)
  {
    assert ([c] + chunks)[1..] == chunks;
  }

  lemma PackAdvance(goal: seq<seq<Message>>, done: seq<seq<Message>>, rounds: seq<Round>, i: nat,
      current: seq<Message>, perCall: int)
    requires i < |rounds| && goal == done + Pack(rounds[i..], current, perCall)
    ensures if current != [] && Rendered(current) + Rendered(rounds[i]) > perCall
            then goal == done + [current] + Pack(rounds[i + 1..], rounds[i], perCall)
            else goal == done + Pack(rounds[i + 1..], current + rounds[i], perCall)
  {
    assert rounds[i..][1..] == rounds[i + 1..];
    if current != [] && Rendered(current) + Rendered(rounds[i]) > perCall {
      var rest := Pack(rounds[i + 1..], rounds[i], perCall);
      assert done + ([current] + rest) == done + [current] + rest;
    }
  }

  method PackRounds(rounds: seq<Round>, perCall: int) returns (chunks: seq<seq<Message>>)
    ensures chunks == Pack(rounds, [], perCall)
    ensures Join(chunks) == Flatten(rounds)
    ensures forall c :: c in chunks ==> c != []
    ensures forall c :: c in chunks && Rendered(c) > perCall ==> c in rounds
  {
    chunks := [];
    var current: seq<Message> := [];
    ghost var goal := Pack(rounds, [], perCall);
    PackLossless(rounds, [], perCall);
    assert rounds[0..] == rounds;
    for i := 0 to |rounds|
      invariant goal == chunks + Pack(rounds[i..], current, perCall)
      invariant forall c :: c in chunks ==> c != [] && (Rendered(c) > perCall ==> c in rounds)
      invariant current != [] && Rendered(current) > perCall ==> current in rounds
    {
      var r := rounds[i];
      PackAdvance(goal, chunks, rounds, i, current, perCall);
      CharsConcat(current, r);
      if current != [] && Rendered(current) + Rendered(r) > perCall {
        chunks := chunks + [current];
        current := r;
      } else {
        if current == [] { assert current + r == r; }
        current := current + r;
      }
    }
    assert rounds[|rounds|..] == [];
    if current != [] { chunks := chunks + [current]; }
  }

  // ----- Bands: the whole chronology in a bounded number of calls

  function BandStart(n: nat, b: nat, count: nat): nat
    requires count > 0
  {
    n * b / count
  }

  lemma MulMonotone(a: int, b: int, d: nat)
    requires a <= b
    ensures a * d <= b * d
  {
    assert (b - a) * d >= 0;
  }

  lemma DivAtLeast(x: nat, d: nat, k: nat)
    requires d > 0 && k * d <= x
    ensures k <= x / d
  {
    var q := x / d;
    assert (q + 1) * d == q * d + d;
    assert x < (q + 1) * d;
    if q < k { MulMonotone(q + 1, k, d); }
  }

  lemma DivGrows(x: nat, y: nat, d: nat)
    requires d > 0 && y + d <= x
    ensures y / d < x / d
  {
    var q := y / d;
    assert (q + 1) * d == q * d + d;
    DivAtLeast(x, d, q + 1);
  }

  lemma DivAtMost(x: nat, d: nat, k: nat)
    requires d > 0 && x <= k * d
    ensures x / d <= k
  {
    var q := x / d;
    assert q * d <= k * d;
    assert (k + 1) * d == k * d + d;
    if q > k { MulMonotone(k + 1, q, d); }
  }

  /** Bands are contiguous by definition; none is empty and together they cover every round. */
  lemma BandsCover(n: nat, count: nat, b: nat)
    requires 1 <= count <= n && b < count
    ensures BandStart(n, 0, count) == 0 && BandStart(n, count, count) == n
    ensures BandStart(n, b, count) < BandStart(n, b + 1, count) <= n
  {
    var here, next, all := n * b, n * (b + 1), n * count;
    assert next == here + n;
    MulMonotone(b + 1, count, n);
    DivGrows(next, here, count);
    DivAtMost(next, count, n);
    DivAtMost(all, count, n);
    DivAtLeast(all, count, n);
  }

  function BandCount(config: Config, n: nat): int { Min(config.maxChunks, Max(1, n)) }

  /** There are as many bands as rounds, but no more than allowed. */
  lemma BandCountIs(config: Config, n: nat)
    requires config.maxChunks >= 1 && n >= 1
    ensures var count := BandCount(config, n);
            1 <= count <= config.maxChunks && count <= n && (count == n || count == config.maxChunks)
  {}

  /** Input characters held back for the synthesis call when there are `count` map calls. */
  function Reserve(config: Config, count: int): int {
    if count > 1 then Min(PerCall(config), Max(1, TotalCap(config) / (count + 1))) else 0
  }

  function MapTotal(config: Config, count: int): int { Max(1, TotalCap(config) - Reserve(config, count)) }

  function Allowance(config: Config, count: nat, b: nat): int
    requires count > 0
  {
    var share := MapTotal(config, count);
    Min(PerCall(config), Max(1, share / count + if b < share % count then 1 else 0))
  }

  /** Every band has room for the cut marker. */
  ghost predicate Roomy(config: Config, n: nat) {
    var count := BandCount(config, n);
    forall b: nat :: b < count ==> Allowance(config, count, b) >= 28
  }

  type Projector = (Round, int) -> string

  function BandLines(rounds: seq<Round>, from: nat, to: nat, perRound: int, project: Projector): string
    requires from <= to <= |rounds|
    decreases |rounds| - from
  {
    if from == to then ""
    else
      "[round " + Decimal(from + 1) + "] " + project(rounds[from], perRound)
      + (if from + 1 == to then "" else "\n") + BandLines(rounds, from + 1, to, perRound, project)
  }

  /** The lines of a band stand one after the other, with a line break between two of them and none at the end. */
  lemma {:induction false} BandLinesJoin(rounds: seq<Round>, from: nat, mid: nat, to: nat, perRound: int,
      project: Projector)
    requires from < mid < to <= |rounds|
    ensures BandLines(rounds, from, to, perRound, project) ==
            BandLines(rounds, from, mid, perRound, project) + "\n" + BandLines(rounds, mid, to, perRound, project)
    decreases mid - from
  {
    if from + 1 < mid { BandLinesJoin(rounds, from + 1, mid, to, perRound, project); }
  }

  /** The line of one round. */
  lemma BandLineOfOne(rounds: seq<Round>, i: nat, perRound: int, project: Projector)
    requires i < |rounds|
    ensures BandLines(rounds, i, i + 1, perRound, project) ==
            "[round " + Decimal(i + 1) + "] " + project(rounds[i], perRound)
  {}

  /** What is held back for the synthesis is an even share of all input, the synthesis counting as one more call, or
      what one call may hold if that is less. */
  lemma ReserveIsShare(config: Config, count: int)
    requires count > 1 && TotalCap(config) > count
    ensures var r := Reserve(config, count);
            && r <= PerCall(config) && (count + 1) * r <= TotalCap(config)
            && (r == PerCall(config) || (count + 1) * (r + 1) > TotalCap(config))
  {
    var n := count + 1;
    var q := TotalCap(config) / n;
    assert TotalCap(config) == n * q + TotalCap(config) % n;
    var r := Reserve(config, count);
    assert q >= 1 by { if q <= 0 { MulMonotone(q, 0, n); } }
    assert r <= q;
    MulMonotone(r, q, n);
    assert n * (q + 1) == n * q + n;
  }

  function BandText(config: Config, rounds: seq<Round>, count: nat, b: nat, project: Projector): string
    requires b < count <= |rounds|
  {
    BandsCover(|rounds|, count, b);
    var from, to := BandStart(|rounds|, b, count), BandStart(|rounds|, b + 1, count);
    var perRound := Max(1, Allowance(config, count, b) / Max(1, to - from) - 16);
    CapText(BandLines(rounds, from, to, perRound, project), Allowance(config, count, b))
  }

  function Projection(text: string): Message {
    Message(User, text, {}, "", false, false, false, Unmarked, 1)
  }

  lemma AllowanceSum(config: Config, count: nat, k: nat, kept: int)
    requires k < count
    requires kept <= ShareBound(config, count, k) && Allowance(config, count, k) >= 28
    ensures kept + Allowance(config, count, k) <= ShareBound(config, count, k + 1)
  {
    var q := MapTotal(config, count) / count;
    assert (k + 1) * q == k * q + q;
  }

  /** A band with room for the marker stays within its allowance. */
  lemma BandWithin(config: Config, rounds: seq<Round>, count: nat, b: nat, project: Projector)
    requires b < count <= |rounds| && Allowance(config, count, b) >= 28
    ensures |BandText(config, rounds, count, b, project)| <= Allowance(config, count, b) <= PerCall(config)
  {
    BandsCover(|rounds|, count, b);
    var from, to := BandStart(|rounds|, b, count), BandStart(|rounds|, b + 1, count);
    var perRound := Max(1, Allowance(config, count, b) / Max(1, to - from) - 16);
    CapTextWithinLimit(BandLines(rounds, from, to, perRound, project), Allowance(config, count, b));
  }

  /** Upper bound on the characters of the first `k` bands. */
  ghost function ShareBound(config: Config, count: nat, k: nat): int
    requires count > 0
  {
    k * (MapTotal(config, count) / count) + Min(k, MapTotal(config, count) % count)
  }

  lemma ShareBoundAtEnds(config: Config, count: nat)
    requires count > 0
    ensures ShareBound(config, count, 0) == 0 && ShareBound(config, count, count) == MapTotal(config, count)
  {
  }

  /** The first `k` band projections. */
  function Bands(config: Config, rounds: seq<Round>, count: nat, k: nat, project: Projector): (r: seq<seq<Message>>)
    requires k <= count <= |rounds|
    ensures |r| == k
  {
    if k == 0 then []
    else Bands(config, rounds, count, k - 1, project) + [[Projection(BandText(config, rounds, count, k - 1, project))]]
  }

  lemma {:induction false} BandsTotal(config: Config, rounds: seq<Round>, count: nat, k: nat, project: Projector)
    requires k <= count <= |rounds| && count > 0
    requires forall b: nat :: b < count ==> Allowance(config, count, b) >= 28
    ensures TotalChars(Bands(config, rounds, count, k, project)) <= ShareBound(config, count, k)
    ensures forall c :: c in Bands(config, rounds, count, k, project) ==> Chars(c) <= PerCall(config)
    decreases k
  {
    if k > 0 {
      BandsTotal(config, rounds, count, k - 1, project);
      var before, text := Bands(config, rounds, count, k - 1, project), BandText(config, rounds, count, k - 1, project);
      assert Chars([Projection(text)]) == |text| by { assert [Projection(text)][1..] == []; }
      JoinSnoc(before, [Projection(text)]);
      BandWithin(config, rounds, count, k - 1, project);
      AllowanceSum(config, count, k - 1, TotalChars(before));
    }
  }

  method ProjectBands(config: Config, rounds: seq<Round>, project: Projector)
    returns (projected: seq<seq<Message>>)
    requires rounds != []
    ensures var count := Max(0, BandCount(config, |rounds|));
            projected == Bands(config, rounds, count, count, project)
  {
    projected := [];
    var count := BandCount(config, |rounds|);
    if count <= 0 { return; }
    for b := 0 to count
      invariant projected == Bands(config, rounds, count, b, project)
    {
      projected := projected + [[Projection(BandText(config, rounds, count, b, project))]];
    }
  }

  /** Together the bands stay within the share of the input budget meant for map calls. */
  lemma BandsWithinBudget(config: Config, rounds: seq<Round>, project: Projector)
    requires rounds != [] && Roomy(config, |rounds|) && BandCount(config, |rounds|) > 0
    ensures var count := BandCount(config, |rounds|); var projected := Bands(config, rounds, count, count, project);
            && TotalChars(projected) <= TotalCap(config) - Reserve(config, count)
            && forall c :: c in projected ==> Chars(c) <= PerCall(config)
  {
    var count := BandCount(config, |rounds|);
    BandsTotal(config, rounds, count, count, project);
    ShareBoundAtEnds(config, count);
    MapTotalIsShare(config, count);
  }

  lemma MapTotalIsShare(config: Config, count: nat)
    requires count > 0 && Allowance(config, count, 0) >= 28
    ensures MapTotal(config, count) == TotalCap(config) - Reserve(config, count)
  {
    if TotalCap(config) - Reserve(config, count) < 1 {
      assert MapTotal(config, count) == 1;
      DivAtMost(1, count, 1);
    }
  }

  // ----- _summary_chunks

  /** Inputs that fit: each call within the per-call budget, all of them leaving the synthesis reserve. */
  ghost predicate WithinInput(config: Config, chunks: seq<seq<Message>>) {
    && (forall c :: c in chunks ==> Chars(c) <= PerCall(config))
    && TotalChars(chunks) <= TotalCap(config) - Reserve(config, |chunks|)
  }

  /** The packed chunks may be sent as they are. */
  ghost predicate SendAsPacked(config: Config, chunks: seq<seq<Message>>, prefix: seq<Message>) {
    if |chunks| == 1 then Rendered(prefix) <= Min(PerCall(config), TotalCap(config))
    else
      && |chunks| > 1 && |chunks| <= config.maxChunks
      && Chars(prefix) <= TotalCap(config) - Reserve(config, |chunks|)
      && forall c :: c in chunks ==> Rendered(c) <= PerCall(config)
  }

  method AllWithin(chunks: seq<seq<Message>>, limit: int) returns (ok: bool)
    ensures ok <==> forall c :: c in chunks ==> Rendered(c) <= limit
  {
    for i := 0 to |chunks|
      invariant forall c :: c in chunks[..i] ==> Rendered(c) <= limit
    {
      if Rendered(chunks[i]) > limit { return false; }
      assert chunks[..i + 1] == chunks[..i] + [chunks[i]];
    }
    assert chunks[..|chunks|] == chunks;
    return true;
  }

  /** The packed rounds when they may be sent as they are, otherwise the bands; and which of them. */
  ghost function Chunks(config: Config, prefix: seq<Message>, project: Projector): (seq<seq<Message>>, bool)
    requires prefix != []
  {
    var rounds := Group(prefix);
    var packed, count := Pack(rounds, [], PerCall(config)), Max(0, BandCount(config, |rounds|));
    if SendAsPacked(config, packed, prefix) then (packed, false)
    else (Bands(config, rounds, count, count, project), true)
  }

  /** Whichever way the chunks were made, they fit the input budget when the bands are roomy. */
  lemma ChunksWithinInput(config: Config, prefix: seq<Message>, project: Projector)
    requires prefix != [] && Roomy(config, |Group(prefix)|)
    ensures WithinInput(config, Chunks(config, prefix, project).0)
  {
    GroupIsMaximal(prefix);
    PackLossless(Group(prefix), [], PerCall(config));
    var (chunks, projected) := Chunks(config, prefix, project);
    if !projected {
      PackedWithinInput(config, chunks, prefix);
    } else if BandCount(config, |Group(prefix)|) > 0 {
      ProjectedWithinInput(config, prefix, project);
    }
  }

  method SummaryChunks(config: Config, prefix: seq<Message>, project: Projector)
    returns (chunks: seq<seq<Message>>, projected: bool)
    requires prefix != []
    ensures (chunks, projected) == Chunks(config, prefix, project)
    ensures !projected ==> Join(chunks) == prefix
  {
    var rounds := GroupIntoRounds(prefix);
    GroupIsMaximal(prefix);
    chunks := PackRounds(rounds, PerCall(config));
    if |chunks| == 1 && Rendered(prefix) <= Min(PerCall(config), TotalCap(config)) { return chunks, false; }
    if |chunks| > 1 {
      var fits := AllWithin(chunks, PerCall(config));
      if |chunks| <= config.maxChunks && Chars(prefix) <= TotalCap(config) - Reserve(config, |chunks|) && fits {
        return chunks, false;
      }
    }
    chunks := ProjectBands(config, rounds, project);
    return chunks, true;
  }

  lemma PackedWithinInput(config: Config, chunks: seq<seq<Message>>, prefix: seq<Message>)
    requires Join(chunks) == prefix && SendAsPacked(config, chunks, prefix)
    ensures WithinInput(config, chunks)
  {
    TotalIsJoined(chunks);
    if |chunks| == 1 { assert chunks[0] == Join(chunks) by { assert chunks[1..] == []; } }
  }

  lemma ProjectedWithinInput(config: Config, prefix: seq<Message>, project: Projector)
    requires prefix != [] && Group(prefix) != [] && Roomy(config, |Group(prefix)|) &&
        BandCount(config, |Group(prefix)|) > 0
    ensures var count := BandCount(config, |Group(prefix)|);
            WithinInput(config, Bands(config, Group(prefix), count, count, project))
  {
    BandsWithinBudget(config, Group(prefix), project);
  }

  /** Without that room the input bound fails: a total below the marker's length is overrun by
      any transcript whose only band has to be cut. */
  lemma TightBandOverruns(config: Config, rounds: seq<Round>, project: Projector)
    requires rounds != [] && BandCount(config, |rounds|) == 1
    requires TotalCap(config) < 28 && TotalCap(config) <= PerCall(config)
    requires var perRound := Max(1, TotalCap(config) / Max(1, |rounds|) - 16);
             |BandLines(rounds, 0, |rounds|, perRound, project)| > TotalCap(config)
    ensures TotalChars(Bands(config, rounds, 1, 1, project)) == 28 > TotalCap(config)
  {
    BandsCover(|rounds|, 1, 0);
    var text := BandText(config, rounds, 1, 0, project);
    assert Allowance(config, 1, 0) == TotalCap(config);
    CapTextWithinLimit(BandLines(rounds, 0, |rounds|, Max(1, TotalCap(config) / Max(1, |rounds|) - 16), project),
        TotalCap(config));
    assert Bands(config, rounds, 1, 0, project) == [];
    assert Bands(config, rounds, 1, 1, project) == [[Projection(text)]];
    assert Projection(text).content == text && |text| == 28;
    assert Chars([Projection(text)]) == 28 by { assert [Projection(text)][1..] == []; }
    JoinSnoc([], [Projection(text)]);
    assert [] + [[Projection(text)]] == [[Projection(text)]];
  }
}
