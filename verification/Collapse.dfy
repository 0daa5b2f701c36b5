/**
 The prefix-collapse stage: fold the old part of the conversation into one summary message.
 */
module Collapse {
  import opened Rounds

  function KeepWindow(base: int, aggressive: bool): int {
    var k := if aggressive then base / 2 else base;
    if k < 4 then 4 else k
  }

  /** A history in which `prefix` has been folded into `summary`. */
  ghost predicate Folded(before: seq<Message>, after: seq<Message>, prefix: seq<Message>, recent: seq<Message>,
                         summary: Message, attachments: seq<Message>) {
    && prefix != []
    && Select(Talk, before) == prefix + recent
    && CleanCut(prefix + recent, |prefix|)
    && Group(prefix) + Group(recent) == Group(prefix + recent)
    && after == Select(Front, before) + [summary] + recent + attachments + Select(Control, before)
  }

  method ContextCollapse(messages: seq<Message>, base: int, aggressive: bool,
                         summarise: seq<Message> -> Message, attachments: seq<Message>)
    returns (collapsed: seq<Message>, prefix: seq<Message>, recent: seq<Message>)
    ensures var talk, keep := Select(Talk, messages), KeepWindow(base, aggressive);
            prefix != [] <==> |talk| > keep + 1 && |Flatten(Group(talk)[1..])| >= keep
    ensures prefix == [] ==> collapsed == messages
    ensures prefix != [] ==>
              && |recent| >= KeepWindow(base, aggressive) > |Flatten(Group(recent)[1..])|
              && Folded(messages, collapsed, prefix, recent, summarise(prefix), attachments)
  {
    var talk, keep := Select(Talk, messages), KeepWindow(base, aggressive);
    GroupIsMaximal(talk);
    if |talk| <= keep + 1 { return messages, [], []; }
    prefix, recent := SplitOnRoundBoundary(talk, keep);
    GroupIsMaximal(prefix);
    GroupIsMaximal(recent);
    PrefixIffEnoughLeft(Group(prefix), Group(recent), keep);
    if prefix == [] { return messages, [], []; }
    collapsed := Select(Front, messages) + [summarise(prefix)] + recent + attachments + Select(Control, messages);
  }

  /** Snapping to a round boundary leaves something to fold exactly when the rounds after the
      first one already fill the keep window. */
  lemma PrefixIffEnoughLeft(older: seq<Round>, newer: seq<Round>, keep: int)
    requires newer != [] && |Flatten(newer[1..])| < keep <= |Flatten(newer)|
    ensures older != [] <==> |Flatten((older + newer)[1..])| >= keep
  {
    if older == [] {
      assert older + newer == newer;
    } else {
      assert (older + newer)[1..] == older[1..] + newer;
      FlattenLength(older[1..], newer);
    }
  }

  lemma {:induction false} FlattenLength(a: seq<Round>, b: seq<Round>)
    ensures |Flatten(a + b)| == |Flatten(a)| + |Flatten(b)|
  {
    if a == [] {
      assert a + b == b;
    } else {
      assert (a + b)[1..] == a[1..] + b;
      FlattenLength(a[1..], b);
    }
  }

  /** A fold loses exactly the folded prefix and gains the summary and the attachments. */
  lemma FoldConserves(before: seq<Message>, after: seq<Message>, prefix: seq<Message>, recent: seq<Message>,
                      summary: Message, attachments: seq<Message>)
    requires Folded(before, after, prefix, recent, summary, attachments)
    ensures multiset(after) + multiset(prefix) == multiset(before) + multiset{summary} + multiset(attachments)
  {
    PartsPartition(before);
  }

  /** A message that is pinned, ephemeral, or a system message other than a summary is never folded away. */
  lemma ImportantIsKept(before: seq<Message>, after: seq<Message>, prefix: seq<Message>, recent: seq<Message>,
                        summary: Message, attachments: seq<Message>, m: Message)
    requires Folded(before, after, prefix, recent, summary, attachments) && m in before
    requires m.pinned || m.ephemeral || (m.role == System && m.compressed !in {Rounds.ContextCollapse, LlmSummary})
    ensures m in after && m !in prefix
  {
    SelectIn(PartOf(m), before, m);
    if m in prefix {
      assert m in Select(Talk, before);
      SelectIn(Talk, before, m);
    }
  }

  /** Whether something is folded. */
  ghost predicate Folds(talk: seq<Message>, base: int, aggressive: bool) {
    var keep := KeepWindow(base, aggressive);
    |talk| > keep + 1 && |Flatten(Group(talk)[1..])| >= keep
  }

  /** An aggressive pass keeps half the window, but no fewer than four messages, and so folds whenever another
      pass does. */
  lemma AggressiveFoldsToo(talk: seq<Message>, base: int)
    ensures Folds(talk, base, false) ==> Folds(talk, base, true)
    ensures base >= 8 ==> KeepWindow(base, false) == base && 2 * KeepWindow(base, true) in {base - 1, base}
    ensures base < 4 ==> KeepWindow(base, false) == KeepWindow(base, true) == 4
  {}
}
