# Verification of the agent runtime's algorithmic core

This project models the parts of the agent runtime (`agent_core/`) whose correctness is not
visible from reading one function, and proves what they promise: context compaction and its
budgets, the three-way line merge, the background task manager, permission rules and the
permission pipeline, the bounding of hook payloads, the TOML value printer and scanner, and the
framing of untrusted text.

`dafny verify dfyconfig.toml` checks everything. One module per component:

| file | what it models |
|---|---|
| `Merge.dfy`, `MergeOutcomes.dfy` | the three-way merge: conflict test, reverse in-place splice, symbol guard; when it ends in which way |
| `Rounds.dfy`, `Text.dfy`, `Wrappers.dfy` | messages, tool rounds, splitting on round boundaries; small helpers |
| `HeadTruncation.dfy` | dropping the oldest rounds after an overflow |
| `Shrink.dfy` | cutting oversize messages as the last resort |
| `Hygiene.dfy` | snipping and clearing of tool results |
| `Collapse.dfy` | folding the older part of a history into a summary |
| `SummaryBudget.dfy`, `SummaryCall.dfy`, `SummaryFold.dfy` | a hierarchical summary: cutting the input, one call with its retries, and the whole fold with its budgets |
| `Breaker.dfy` | the auto-compact gate and its circuit breaker |
| `Background*.dfy` | task records, outbox, crash reload, rollback; a state machine over atomic steps |
| `Toml.dfy`, `TomlReader.dfy` | printing values, finding the end of a value, overwriting a key; reading a printed value back |
| `Ingress.dfy`, `Utf8.dfy` | reserved tags, defanging, cuts, envelopes |
| `HookProjection.dfy`, `HookShrink.dfy`, `HookJson.dfy`, `HookPayload.dfy` | sanitising a payload and fitting its printed form into a byte limit |
| `ShellSplit.dfy`, `ShellStrip.dfy`, `ShellRules.dfy` | command splitting, prefix stripping, rule matching |
| `Permissions.dfy`, `PermissionLimits.dfy`, `PermissionPolicy.dfy` | the decision pipeline, what rules and modes come to, and the policy object |

Loops of the original are loops here, proved equal to a recursive function; the properties are
then proved of that function. Objects that are updated in place are classes.

## What turned out not to hold

Each of these is proved of the code as it is, with the exact condition where one exists.

- The byte-fitting loop for hook payloads never ends on some inputs. It ends if and only if the
  value, with every string cut as far as the loop can cut it, fits or has no string of 15 or 16
  bytes (`HookShrink.EndsIff`). Inputs that survive the sanitiser are in
  `HookPayload.NestedShortStringsHang`, one under the default limits in `SixteenLettersHang`.
- A retry after an overflow can leave the history as it was, when all it drops is the marker that
  it then puts back (`HeadTruncation.ProgressIffGenuineDropped`, `TruncationCanStall`).
- Two rollbacks of the background manager can leave an outbox that the store refuses to load, and
  runs from a fresh manager lead to both: forgetting a shell that was stopped in the background
  while its first save was under way (`BackgroundRuns.RegistrationRollbackBreaks`), and restoring
  an event whose task was evicted meanwhile (`BackgroundRuns.AckRollbackBreaks`). The exact
  condition is in `Background.StepKeepsInv` and `UnsafeRollbackBreaks`.
- The notification limit can be exceeded. Runs from a fresh manager, for every limit that running tasks
  can fill, show three ways: by a rolled-back acknowledgement (`BackgroundRuns.RestoreOvershoots`), by two shell tasks that
  were both admitted before either was registered (`LateRegistrationOvershoots`), and by the notices of
  a command that ended before it was moved to the background (`LateNoticeOvershoots`). It holds over a
  run exactly when every step finds room for what it takes (`BackgroundCapacity.RunWithinIff`).
- The limit on records can be exceeded by such a late registration too. Under the default limits 129
  records are then saved, and refused when they are loaded (`BackgroundRuns.TooManyRecordsRefused`,
  exactly when `BackgroundStore.SavedStateLoadsIff` and `BackgroundCapacity.RecordsWithinIff` say).
- When a background agent is stopped before its worker was launched, its end is not enqueued
  (`BackgroundDelivery.StoppedBeforeLaunch`); the other ends of a background task are, exactly once
  (`EndIsToldOnce`).
- A text limit below the 28-character cut marker is exceeded (`SummaryBudget.CapTextWithinLimit`,
  `TightBandOverruns`).
- Overwriting a TOML key twice differs from overwriting it once when the text after a scalar
  value is not a line end (`Toml.OverwriteTwice`; an input is in `CommentLost`).
- A printed TOML value cannot be read again if and only if a string or key in it holds the delete
  character, which is printed as it is and which TOML forbids there, or a table has a key twice, as after
  `str` of two keys (`TomlReader.PrintRead`, `OverwriteThenLookup`; an input is in `DeleteNotRead`). Every later
  update then finds the file malformed.
- Snipping a tool result makes it longer when what falls between the two ends is shorter than the note
  (`Hygiene.SnipShorterIff`).
- An ask rule can turn a refusal into a question, because it answers before the tool does
  (`Permissions.AskRulesLoosenIff`, `AskRuleHidesRefusal`).
- Allow rules of merged rule sets allow more than the union of what each allows
  (`ShellRules.MergedAllowDiffersIff`, `AllowedTogether`); per sub-command it is exactly the union.
- Normalising a command is not idempotent: `nohup LANG=C ls` keeps the assignment once and loses
  it the second time (`ShellStrip.NormalTwiceIff`, `NohupLangTwice`).
- The regular expression for reserved tags can match across the end of an envelope's body when
  the body leaves a tag unclosed (`Ingress.StrayMatchIffUnclosedHead`, `TranscriptMatches`). The literal closing
  delimiter is still unique.
- A text that already ends with the truncation note at the place of the cut is reported as not
  changed (`Ingress.CutBackToItselfIff`).
- A configuration comment says that keeping 0 recent results clears everything
  (`agent_core/compression.py:442`); the code never keeps fewer than one, and the model follows
  the code.

## Model

| member | source | states |
|---|---|---|
| `Merge.ThreeWayMerge` | agent_core/merge.py:45-79 | the outcome for every three texts: shortcut, conflict, guard failure, or the text of the left-to-right merge of both edit sets |
| `Merge.HasClash` | agent_core/merge.py:62-69 | a clash is reported exactly when two edits, one of each side, clash as `MergeOutcomes.ClashIffIncompatible` says |
| `Merge.SpliceAll` | agent_core/merge.py:70-73 | splicing in place from the last edit to the first gives the simple left-to-right weave |
| `Merge.CheckSymbols` | agent_core/merge.py:37-42 | the symbol guard refuses exactly when both sides changed nested or equal symbols |
| `Merge.SortIsReversedUnion` | agent_core/merge.py:71-71 | sorting both edit sets in descending order with duplicates removed is the reversed merge of the two |
| `Merge.UnionSymmetric` | agent_core/merge.py:61-72 | the merge of two edit sets without a clash does not depend on their order |
| `Merge.RebaseIsUnion` | agent_core/merge.py:45-73 | re-indexing one side's edits through the other's and applying them gives what all edits make of the base |
| `Merge.MovedWeaves` | agent_core/merge.py:57-72 | the same from any position of the base, with the drift collected so far |
| `Merge.MergeIsEitherRebase` | agent_core/merge.py:45-73 | a merged text is the incoming edits moved onto current, and also the current edits moved onto incoming |
| `Merge.MergeSymmetric` | agent_core/merge.py:45-79 | swapping the two sides gives the same text or a conflict on both |
| `MergeOutcomes.ClashIffIncompatible` | agent_core/merge.py:62-69 | two edits clash if and only if they differ and replace a common base line, or one inserts inside or at an end of the range of the other |
| `MergeOutcomes.NoClashIffCompatible` | agent_core/merge.py:62-69 | the same for two edit sets |
| `MergeOutcomes.OutcomeIff` | agent_core/merge.py:45-79 | when a merge ends in each way: an unchanged side gives way, then the symbol guard, the edits and the parse of the result decide, in this order |
| `MergeOutcomes.NeighboursMerge` | agent_core/merge.py:45-79 | if every two different edits replace lines and one ends at or before the start of the other, there is no overlap conflict, and texts without a symbol guard merge |
| `MergeOutcomes.TwoLinesMerge` | agent_core/merge.py:62-73 | an input: one side changes the first of two lines, the other the second, and both changes are in the result |
| `MergeOutcomes.GuardPassesIff` | agent_core/merge.py:37-42 | the guard passes exactly when all three texts have well-defined symbols and no symbol changed on one side is, contains or lies in one changed on the other |
| `MergeOutcomes.RelatedIffNested` | agent_core/merge.py:41-41 | symbols are related exactly when they are equal or one lies inside the other |
| `Rounds.GroupIntoRounds` | agent_core/compression.py:110-146 | the cursor loop computes the grouping into tool rounds |
| `Rounds.GatherRound` | agent_core/compression.py:128-145 | one round is a call with the unbroken run of results that answer it, and no more |
| `Rounds.GroupIsMaximal` | agent_core/compression.py:110-146 | rounds concatenate to the input, every round is glued, and no round could be longer |
| `Rounds.GroupUnique` | agent_core/compression.py:110-146 | a maximal grouping is the only one: regrouping its messages gives it back |
| `Rounds.RegroupSlice` | agent_core/compression.py:110-146 | regrouping any run of whole rounds gives exactly those rounds |
| `Rounds.SplitOnRoundBoundary` | agent_core/compression.py:164-188 | nothing is lost, the cut separates no call from its results, and the recent part has the fewest whole rounds holding at least `keep` messages |
| `Rounds.FindBoundary` | agent_core/compression.py:176-188 | the boundary is the latest one that keeps enough messages |
| `Rounds.RoundCutIsClean` | agent_core/compression.py:164-188 | a cut between rounds never separates a call from a result glued to it |
| `Rounds.ShapeKeepsRounds` | agent_core/compression.py:110-161 | rewriting contents and markers leaves every message in its round |
| `Rounds.PartsPartition` | agent_core/compression.py:191-207 | every message is in exactly one of: preserved, conversation, control |
| `HeadTruncation.EnsureUserFirstRepairs` | agent_core/compression.py:266-279 | the first message that is not a system message is a user turn, and at most the marker was added |
| `HeadTruncation.CountGapRounds` | agent_core/compression.py:322-329 | the least number of rounds whose estimate covers the gap, or all |
| `HeadTruncation.CountDropped` | agent_core/compression.py:317-335 | at least one round is dropped and at least one is left |
| `HeadTruncation.TruncateHead` | agent_core/compression.py:282-337 | None exactly when there are fewer than two rounds; otherwise everything but the dropped rounds, repaired |
| `HeadTruncation.TruncationLosesOnlyDropped` | agent_core/compression.py:282-337 | exactly the dropped rounds are lost, preserved and control messages stay, and the result opens with a user turn |
| `HeadTruncation.TruncationKeepsOrder` | agent_core/compression.py:266-337 | preserved and control messages stay in order, and of the conversation exactly the rounds after the dropped ones, with the marker at most after leading system messages |
| `HeadTruncation.RepairIff` | agent_core/compression.py:266-279 | the marker is added if and only if the first message that is not a system message is not a user turn, and just before that message |
| `HeadTruncation.ImportantIsKept` | agent_core/compression.py:191-337 | a message that is pinned, ephemeral, or a system message other than a summary is never dropped |
| `HeadTruncation.ProgressIffGenuineDropped` | agent_core/compression.py:266-337 | messages other than retry markers become fewer if and only if one of them was dropped |
| `HeadTruncation.DropsOneIff` | agent_core/compression.py:321-335 | one round is dropped exactly when there are two, or the first covers the gap, or without a gap the fraction asks for fewer than two |
| `HeadTruncation.TruncationCanStall` | agent_core/compression.py:266-337 | a history that opens with the marker and goes on with an assistant or tool message is truncated to itself when one round is dropped, as it is by default below ten rounds and for a gap that the marker covers |
| `Shrink.ShrunkIsShorter` | agent_core/compression.py:404-412 | with at least one character kept on each side a cut message is shorter, digits of the marker included |
| `Shrink.ShrunkGrowsAtZero` | agent_core/compression.py:404-412 | with none kept it grows |
| `Shrink.ShrunkText` | agent_core/compression.py:404-413 | a cut message is the same message one version later, with its projection, or with its two ends around a note of how many characters were left out |
| `Shrink.FloorIsEndsAndNote` | agent_core/compression.py:398-403 | a message is oversize when it is longer than both ends with a note of four digits |
| `Shrink.SizeOrder` | agent_core/compression.py:393-397 | all messages that are not preserved, largest first, and of equally long ones the earlier first |
| `Shrink.ShrinkPass` | agent_core/compression.py:398-416 | the loop stops when enough is shed or the order is used up, and each cut lowers the total length |
| `Shrink.ProgressMeans` | agent_core/compression.py:393-416 | however far the loop got, only oversize messages were cut, and the largest of them |
| `Shrink.ShrinkOversize` | agent_core/compression.py:371-419 | None exactly when nothing is to be dropped or nothing is oversize; otherwise fewer characters, positions kept, largest first, until enough is shed or all are cut, and no cut more than needed |
| `Shrink.PartlyShrunkKeepsRounds` | agent_core/compression.py:371-419 | preserved messages are untouched and rounds keep their sizes |
| `Shrink.ShrinkUntilNone` | agent_core/compression.py:371-419 | repeating it ends, with nothing oversize left |
| `Hygiene.SnipLoop` | agent_core/compression.py:765-785 | the loop snips exactly the unmarked long tool results |
| `Hygiene.StaleLoop` | agent_core/compression.py:810-824 | a result is cleared exactly when at least `keep` results follow it and it may be cleared |
| `Hygiene.BudgetLoop` | agent_core/compression.py:826-838 | results are cleared from the oldest while over budget and a later result remains |
| `Hygiene.RunCheapStages` | agent_core/compression.py:735-848 | both stages with their parameters, normal and aggressive |
| `Hygiene.CheapStagesIdempotent` | agent_core/compression.py:735-859 | a second pass with the same parameters changes nothing, versions included |
| `Hygiene.CheapStagesKeepStructure` | agent_core/compression.py:735-859 | every message keeps its place, identity and round, and the most recent tool result is never cleared |
| `Hygiene.BudgetIsIdempotent` | agent_core/compression.py:826-838 | the budget pass repeated from the total it ended with changes nothing |
| `Hygiene.BudgetMetOrExhausted` | agent_core/compression.py:826-838 | afterwards the results fit the budget, or only the most recent could still be cleared |
| `Hygiene.SnippedText` | agent_core/compression.py:765-785 | exactly the long, unmarked, not preserved tool results are snipped; each holds its projection, or its first and last characters around the note |
| `Hygiene.SnipShorterIff` | agent_core/compression.py:776-779 | without a projection a snipped text is shorter if and only if what falls between the two ends is longer than the note, and longer if and only if that is shorter |
| `Hygiene.CheapStagesText` | agent_core/compression.py:735-859 | after the pass a message is as it was, or snipped, or cleared, never both; a cleared one was a tool result and holds its projection or the fixed text |
| `Hygiene.StaleClearsIff` | agent_core/compression.py:810-824 | exactly those results are cleared as stale that enough tool results follow and that are neither pinned nor marked nor cleared already |
| `Hygiene.WindowHalves` | agent_core/compression.py:811-814 | an aggressive pass keeps half as many recent results, and at least one |
| `Collapse.ContextCollapse` | agent_core/compression.py:861-913 | a fold happens exactly when whole rounds are left over beyond the window, keeps the fewest whole rounds that fill the window, and replaces only the folded prefix |
| `Collapse.PrefixIffEnoughLeft` | agent_core/compression.py:888-896 | the older part is not empty exactly when everything but the first round fills the window |
| `Collapse.FoldConserves` | agent_core/compression.py:897-908 | a fold removes exactly the prefix and adds exactly the summary and its attachments |
| `Collapse.ImportantIsKept` | agent_core/compression.py:861-908 | a message that is pinned, ephemeral, or a system message other than a summary is never folded away |
| `Collapse.AggressiveFoldsToo` | agent_core/compression.py:872-892 | an aggressive pass keeps half the window, but no fewer than four messages, and folds whenever another pass does |
| `SummaryCall.BudgetLadder` | agent_core/compression_summary.py:214-235 | the loop, the sort and the cut give the ladder of tiers |
| `SummaryCall.LadderOfTiers` | agent_core/compression_summary.py:214-235 | the ladder holds only positive tiers, ascending, within the ceiling and the number of attempts, and is empty only without a positive ceiling |
| `SummaryCall.LadderIsLowest` | agent_core/compression_summary.py:214-235 | it holds the lowest tiers, and with two retries every positive one, ending at the ceiling |
| `SummaryCall.RetryClimbs` | agent_core/compression_summary.py:282-303 | each attempt asks for its tier or what is left of the cap, every reply before the last was cut, the result is the last reply, and it ends at an uncut or failed reply or at the end of ladder or cap |
| `SummaryCall.Summarize` | agent_core/compression_summary.py:256-304 | the loop does this, asks at least once when the ladder is not empty, and never for more than the cap if there is one |
| `SummaryBudget.CapTextWithinLimit` | agent_core/compression.py:1254-1258 | the capped text is within the limit if and only if nothing was cut or the limit is at least 28 |
| `SummaryBudget.TimelineExcerpt` | agent_core/compression.py:1199-1220 | an excerpt is within its limit, and the text itself when that fits |
| `SummaryBudget.ExcerptParts` | agent_core/compression.py:1199-1220 | an excerpt of a longer text is its first and last third and a third from its middle, in order and exactly to the limit; below 64 characters its first characters |
| `SummaryBudget.PerCallLeavesOverhead` | agent_core/compression.py:47-54 | rendering takes up to 384 characters of the input limit as long as that leaves 800, and a call may hold the rest |
| `SummaryBudget.RenderedAdds` | agent_core/compression.py:1085-1087 | each message counts four characters more than its content |
| `SummaryBudget.PackRounds` | agent_core/compression.py:1079-1094 | the loop computes the greedy packing; nothing is lost, and only a single round can exceed a call |
| `SummaryBudget.BandsCover` | agent_core/compression.py:1113-1130 | bands are not empty, contiguous, and cover every round |
| `SummaryBudget.BandCountIs` | agent_core/compression.py:1116-1116 | there are as many bands as rounds, but no more than allowed |
| `SummaryBudget.BandLinesJoin` | agent_core/compression.py:1113-1145 | the lines of a band stand one after the other with a line break between two of them |
| `SummaryBudget.BandLineOfOne` | agent_core/compression.py:1113-1145 | and each is the numbered projection of its round |
| `SummaryBudget.ReserveIsShare` | agent_core/compression.py:1070-1130 | what is held back for the synthesis is an even share of all input, the synthesis counting as one more call, or what one call may hold |
| `SummaryBudget.ProjectBands` | agent_core/compression.py:1113-1145 | the loop over bands computes the bands with their allowances |
| `SummaryBudget.BandsWithinBudget` | agent_core/compression.py:1113-1145 | with allowances of at least 28, the bands together leave the synthesis reserve and each fits a call |
| `SummaryBudget.SummaryChunks` | agent_core/compression.py:1070-1145 | exactly the packed rounds when they may be sent as they are, otherwise exactly the bands |
| `SummaryBudget.PackedWithinInput` | agent_core/compression.py:1095-1111 | chunks sent as packed respect both input limits |
| `SummaryBudget.ProjectedWithinInput` | agent_core/compression.py:1113-1145 | so do projected bands |
| `SummaryBudget.ChunksWithinInput` | agent_core/compression.py:1070-1145 | whichever way the chunks are made, they respect both input limits when the bands are roomy |
| `SummaryFold.SynthesisMessages` | agent_core/compression.py:1147-1168 | the loop gives each summary in order its header and excerpt within an even share of what is left |
| `SummaryFold.SynthesisWithin` | agent_core/compression.py:1147-1168 | the synthesis input is within its limit, empty only without room or summaries, and complete when there is a character for each summary |
| `SummaryFold.MapPhase` | agent_core/compression.py:997-1035 | the loop makes exactly the map calls of the specification |
| `SummaryFold.OutputReserveIs` | agent_core/compression.py:1000-1003 | the synthesis reserve is the first tier, but at most half of all output, and at least one token |
| `SummaryFold.MapCallAt` | agent_core/compression.py:1004-1023 | the call at each position reads its own chunk, has exactly the budget the earlier ones and the reserve leave, and continues the provider where the last one stopped |
| `SummaryFold.MapStopsWithoutBudget` | agent_core/compression.py:1004-1011 | the map calls stop early only where no budget is left |
| `SummaryFold.MapWithinBudget` | agent_core/compression.py:997-1035 | they ask for no more than they are allotted, leave the synthesis reserve and send no more than the chunks |
| `SummaryFold.OneCallClimbs` | agent_core/compression.py:985-995 | a call climbs its own ladder within its budget, and asks at all exactly when the model has a ceiling |
| `SummaryFold.Fold` | agent_core/compression.py:985-1068 | the loop makes exactly the calls of the specification and returns its outcome, which the next rows pin |
| `SummaryFold.FoldEnds` | agent_core/compression.py:985-1068 | when each error occurs, that a synthesis is made in every other case of more than one chunk, and that it has exactly the total less what the map calls were allotted, at least its reserve |
| `SummaryFold.FoldReturnsLast` | agent_core/compression.py:985-1068 | every fold that is not exhausted returns what its last call replied: the content, or a failure exactly when that reply failed |
| `SummaryFold.SingleReads` | agent_core/compression.py:985-995 | a single chunk is read by one call with the whole output budget |
| `SummaryFold.SynthesisIsLast` | agent_core/compression.py:1041-1068 | with more chunks the last call is the one after the map calls, and reads the synthesis of the map texts |
| `SummaryFold.SynthesisClimbs` | agent_core/compression.py:1056-1068 | it goes on with the provider where the map calls stopped, up the ladder of its own budget |
| `SummaryFold.MapTextIs` | agent_core/compression.py:1019-1034 | a map text is the reply when that succeeded, is not blank and fits; a cut reply when it does not fit; the deterministic summary otherwise |
| `SummaryFold.SpreadAt` | agent_core/compression.py:1147-1168 | the message at each place is about the summary at that place, with an even share of what the earlier ones left |
| `SummaryFold.ChunkTextWhole` | agent_core/compression.py:1160-1166 | header and summary are given whole when they fit, and the header comes first |
| `SummaryFold.FoldWithinOutput` | agent_core/compression.py:985-1068 | all attempts of all calls together ask for no more than the output total |
| `SummaryFold.FoldWithinInput` | agent_core/compression.py:1041-1068 | with chunks within the input budget, so are all calls, and input is never exhausted |
| `SummaryFold.SummarizeHierarchical` | agent_core/compression.py:973-1068 | the same for a whole fold from the messages, with input exhaustion unreachable when every band allowance is at least 28 |
| `SummaryBudget.TightBandOverruns` | agent_core/compression.py:1113-1145 | with a total below 28 a single band is 28 characters |
| `Breaker.Pipeline.ShouldCompact` | agent_core/compression.py:521-548 | true exactly when the automatic pass would run its stages |
| `Breaker.Pipeline.AutoCompact` | agent_core/compression.py:579-628 | new count, event and whether stages ran, for every gate |
| `Breaker.CountBounded` | agent_core/compression.py:514-643 | the failure count never exceeds a positive maximum |
| `Breaker.TripsIffStreak` | agent_core/compression.py:630-643 | a call trips the breaker exactly when it completes the maximum number of failing calls in a row from a clean count |
| `Breaker.TrippedLasts` | agent_core/compression.py:579-643 | after tripping the count stays at the maximum until a reset |
| `Breaker.TrippedOncePerReset` | agent_core/compression.py:579-643 | between two trips there is a reset |
| `Breaker.NoStageAfterTrip` | agent_core/compression.py:579-643 | after a trip no stage runs and nothing is emitted while the estimate stays at or above the threshold |
| `Breaker.ZeroMaximumNeverRuns` | agent_core/compression.py:514-548 | with a maximum of zero or less no stage ever runs |
| `Breaker.RunsIff` | agent_core/compression.py:579-628 | over every run, stages run at a call if and only if it is over the threshold and no trip lies behind since which every call was |
| `Breaker.FullIffTripBehind` | agent_core/compression.py:579-643 | the count is at its maximum exactly when such a trip lies behind |
| `Breaker.EventsTell` | agent_core/compression.py:579-643 | a failure or trip is reported exactly when stages ran and did not help, a reset exactly when the count falls to zero |
| `Background.EventIdInjective` | agent_core/background_tasks.py:153-165 | an event id names one task and one kind |
| `Background.EnqueueKeeps` | agent_core/background_tasks.py:153-165 | enqueuing keeps ids distinct, events consistent with records, and "finished" said at most once |
| `Background.EvictKeeps` | agent_core/background_tasks.py:122-134 | eviction keeps the invariant and touches nothing but records |
| `Background.StepKeepsInv` | agent_core/background_tasks.py:95-365 | every atomic step keeps the invariant; of the rollbacks, forgetting a shell and restoring events need their condition, forgetting an agent needs none |
| `Background.StepKeepsQuiet` | agent_core/background_tasks.py:231-255 | until its first save is over nothing is pending or taken about an agent, so its rollback is always safe |
| `Background.UnsafeRollbackBreaks` | agent_core/background_tasks.py:172-177 | a rollback without that condition always leaves an event without its record |
| `Background.RunKeepsInv` | agent_core/background_tasks.py:95-365 | so does every interleaved run: distinct well-formed event ids, matching records, at most one "finished" per task |
| `Background.OutboxIsTrue` | agent_core/background_tasks.py:95-365 | after every run each pending event is about a task on record, with its owner and kind |
| `BackgroundDelivery.EndSettles` | agent_core/background_tasks.py:198-275 | when a worker returns, a process that is done is published as finished, or a task that is done is moved to the background, its end is enqueued or it is in the foreground |
| `BackgroundDelivery.StaysSettled` | agent_core/background_tasks.py:95-365 | that stays so, whatever the step, unless the task is said to be active again |
| `BackgroundDelivery.StepLogged` | agent_core/background_tasks.py:153-165 | whatever the step, a task is marked as notified only with a "finished" event appended, and such an event is only about a marked task |
| `BackgroundDelivery.EndIsToldOnce` | agent_core/background_tasks.py:95-365 | over every run, in whichever order a task ends and is moved to the background, its end is enqueued exactly once |
| `BackgroundDelivery.AgentLife` | agent_core/background_tasks.py:231-299 | wherever there is capacity an agent can be started, saved, launched and finished, and in the background its end is then pending |
| `BackgroundDelivery.StoppedBeforeLaunch` | agent_core/background_tasks.py:306-327 | the end of a background agent that is stopped before its worker was launched is not enqueued |
| `BackgroundStore.CountInBound` | agent_core/background_tasks.py:153-165 | a set of tasks has at most two events each |
| `BackgroundStore.OutboxBoundedByRecords` | agent_core/background_store.py:42-64 | the outbox is at most twice the records |
| `BackgroundStore.SavedStateLoadsIff` | agent_core/background_store.py:20-64 | a reachable state is accepted when loaded if and only if it has at most 128 records |
| `BackgroundStore.ReloadAfterCrash` | agent_core/background_tasks.py:78-93 | after reload nothing is active, no event is forgotten, and each formerly active task has its "finished" event |
| `BackgroundStore.ReloadTwice` | agent_core/background_tasks.py:78-93 | crashing again at once repeats no notice |
| `BackgroundStore.FailedAckLosesNothing` | agent_core/background_tasks.py:357-365 | an acknowledgement whose save fails at once puts back exactly what it took |
| `BackgroundStore.RestoreLosesNothing` | agent_core/background_tasks.py:357-365 | however much happens in between, a safe restore loses and duplicates no event |
| `BackgroundCapacity.Deactivate` | agent_core/background_tasks.py:122-134 | a task that ends never raises the reserved load |
| `BackgroundCapacity.LoadCoversOutbox` | agent_core/background_tasks.py:122-134 | the reserved load is at least the outbox |
| `BackgroundCapacity.RestoreWithinIff` | agent_core/background_tasks.py:357-365 | after a rolled-back acknowledgement the limit holds if and only if it has room for the returning events of inactive tasks |
| `BackgroundCapacity.RegisterWithinIff` | agent_core/background_tasks.py:167-171 | after a registration it holds if and only if it has room for two more places, none for a task that is not active |
| `BackgroundCapacity.EndedStepWithinIff` | agent_core/background_tasks.py:198-229 | a step about a task that ended already takes exactly its new notices, so the limit holds afterwards if and only if there is room for them |
| `BackgroundCapacity.CapacityAdmits` | agent_core/background_tasks.py:130-134 | the admission test leaves that room for one task |
| `BackgroundCapacity.StepWithinIff` | agent_core/background_tasks.py:122-365 | whatever the step, the notification limit holds after it if and only if there was room for what it takes beyond the reservation |
| `BackgroundCapacity.RunWithinIff` | agent_core/background_tasks.py:95-365 | over every run the limit holds throughout if and only if every step finds that room |
| `BackgroundCapacity.OutboxNeverOverflows` | agent_core/background_tasks.py:122-365 | over every such run the outbox stays within the limit |
| `BackgroundCapacity.RecordsWithinIff` | agent_core/background_tasks.py:122-171 | the records stay within their limit if and only if a shell is registered only while there is room for its record |
| `BackgroundAgents.CapacityIff` | agent_core/background_tasks.py:130-134 | admission means room for one more record and two more notices beside those of running tasks, and for an agent fewer running agents than the limit |
| `BackgroundAgents.AgentStartsIff` | agent_core/background_tasks.py:231-245 | an agent is registered if and only if, after eviction, there is that room and fewer agents run than allowed |
| `BackgroundAgents.AgentStarted` | agent_core/background_tasks.py:231-245 | a registered agent is running and is the only one added; otherwise only the eviction happened |
| `BackgroundAgents.AgentsWithinIff` | agent_core/background_tasks.py:95-365 | whatever the step, the limit on agents holds after it if and only if it does not make an ended agent active again while the limit is reached |
| `BackgroundAgents.AgentsNeverExceed` | agent_core/background_tasks.py:95-365 | over every run without such a step no more agents run than allowed |
| `BackgroundRuns.LateRegistrationOvershoots` | agent_core/background_tasks.py:167-171 | for every limit: two tasks that pass the test while there is room for one, registered after it, exceed the limit |
| `BackgroundRuns.TooManyRecordsRefused` | agent_core/background_store.py:35-35 | a run under the default limits, with both tasks admitted, after which 129 records are saved and no snapshot is accepted |
| `BackgroundRuns.LateNoticeOvershoots` | agent_core/background_tasks.py:220-229 | for every limit that running tasks can fill, a run in which a command that ended during its first save is moved to the background, and its notices exceed the limit |
| `BackgroundRuns.EvictionDuringAckIsUnsafe` | agent_core/background_tasks.py:122-134 | in any such state a finished task may be evicted while its event is being acknowledged, which makes the rollback unsafe |
| `BackgroundRuns.AckRollbackBreaks` | agent_core/background_tasks.py:357-365 | for every limit on records a run from a fresh manager leads there, and no snapshot of the state after the rollback is accepted |
| `BackgroundRuns.RegistrationRollbackBreaks` | agent_core/background_tasks.py:172-177 | a run from a fresh manager leads to a registration rollback after which no snapshot is accepted |
| `BackgroundRuns.RestoreOvershoots` | agent_core/background_tasks.py:357-365 | for every limit that running tasks can fill, a run from a fresh manager, every task admitted by the capacity test, in which a rolled-back acknowledgement exceeds the limit |
| `BackgroundManager.BackgroundTaskManager.constructor` | agent_core/background_tasks.py:67-93 | the object after construction is the reload of the accepted snapshot, valid, with nothing active |
| `BackgroundManager.BackgroundTaskManager.Announce` | agent_core/background_tasks.py:153-165 | the object does the enqueue step |
| `BackgroundManager.BackgroundTaskManager.BeginRunWith` | agent_core/background_tasks.py:95-99 | keeps the object valid; exactly the events of the run stay |
| `BackgroundManager.BackgroundTaskManager.EnsureRoom` | agent_core/background_tasks.py:122-134 | evicts as specified, keeps the object valid, and admits exactly when there is room for one record and two notices and, for an agent, fewer agents run than the limit |
| `BackgroundManager.BackgroundTaskManager.RegisterShellTask` | agent_core/background_tasks.py:167-171 | keeps the object valid; nothing is pending about the new task |
| `BackgroundManager.BackgroundTaskManager.ForgetShell` | agent_core/background_tasks.py:172-177 | the rollback of a registration keeps the object valid under its condition |
| `BackgroundManager.BackgroundTaskManager.StartAgentTask` | agent_core/background_tasks.py:231-245 | admission and registration of an agent in one step keep the object valid; the agent is registered exactly when there is room and fewer agents run than the limit |
| `BackgroundManager.BackgroundTaskManager.ForgetAgent` | agent_core/background_tasks.py:241-245 | the rollback of an agent keeps the object valid without a condition, and nothing names the agent |
| `BackgroundManager.BackgroundTaskManager.PublishShell` | agent_core/background_tasks.py:198-218 | the stalled or finished step of a shell, which keeps the object valid |
| `BackgroundManager.BackgroundTaskManager.MarkInBackground` | agent_core/background_tasks.py:220-229 | the move to the background with the notices that are due, which keeps the object valid |
| `BackgroundManager.BackgroundTaskManager.FinishAgent` | agent_core/background_tasks.py:271-275 | the last stretch of an agent keeps the object valid |
| `BackgroundManager.BackgroundTaskManager.TakeAcknowledged` | agent_core/background_tasks.py:357-359 | keeps the object valid; what is taken and what stays make up the outbox |
| `BackgroundManager.BackgroundTaskManager.RestoreAcknowledged` | agent_core/background_tasks.py:360-365 | keeps the object valid under its condition; no event is lost and none is there twice |
| `Toml.TomlValueEnd` | agent_core/local_config.py:110-141 | the scanning loops find the end given by the specification, or fail with it |
| `Toml.ScanContainer` | agent_core/local_config.py:117-141 | the loop over depth, quote and escape finds the closing bracket |
| `Toml.PrintNeutral` | agent_core/local_config.py:17-31 | a printed value inside an array or table leaves depth and quoting as they were |
| `Toml.ContainerExtent` | agent_core/local_config.py:110-141 | a printed array or table is found to end exactly where it ends, whatever follows |
| `Toml.PrintedValueEnd` | agent_core/local_config.py:17-31 | the same from the equals sign, for every value; scalars end at the end of the line |
| `Toml.OverwriteTwice` | agent_core/local_config.py:75-87 | overwriting a key twice equals overwriting it once with the last value if and only if the first new value is an array or table, or the old value is followed by a line end |
| `Toml.CommentLost` | agent_core/local_config.py:75-87 | an input: a comment after an array survives the first overwrite and is lost by the second |
| `TomlReader.PrintRead` | agent_core/local_config.py:17-31 | a printed value is read back, with what follows left over, if and only if no string or key holds the delete character and no table has a key twice; otherwise reading fails |
| `TomlReader.PrintInjective` | agent_core/local_config.py:17-31 | different values that can be read back are printed differently |
| `TomlReader.DeleteNotRead` | agent_core/local_config.py:20-21 | an input: a string of one delete character is printed as it is and not read back |
| `TomlReader.OverwriteThenLookup` | agent_core/local_config.py:75-87 | after a key was overwritten its value is the new one if and only if that can be read back |
| `Ingress.ReservedNamesQualify` | agent_core/prompt_ingress.py:25-32 | the reserved names consist of the characters the proofs assume |
| `Ingress.AsciiExtensionIsValid` | agent_core/prompt_ingress.py:33-36 | the assumptions hold under all character classes that extend ASCII as the Unicode classes do |
| `Ingress.ScanIsMatch` | agent_core/prompt_ingress.py:33-36 | a deterministic scan finds a match exactly where the regular expression has one, ending at the first closing bracket |
| `Ingress.DefangExact` | agent_core/prompt_ingress.py:78-81 | every bracket inside a match becomes its look-alike and every other character is kept |
| `Ingress.DefangIsClean` | agent_core/prompt_ingress.py:78-81 | defanged text has the same length and holds no reserved tag |
| `Ingress.DefangTwice` | agent_core/prompt_ingress.py:78-81 | defanging is idempotent |
| `Ingress.DefangChangesIffFound` | agent_core/prompt_ingress.py:74-81 | text changes exactly when a reserved tag is found in it |
| `Ingress.ReplaceControlsIsClean` | agent_core/prompt_ingress.py:124-124 | replacing control characters brings no reserved tag |
| `Ingress.CutIsClean` | agent_core/prompt_ingress.py:126-133 | cutting the end brings none |
| `Ingress.AppendIsClean` | agent_core/prompt_ingress.py:134-135 | appending the truncation note brings none |
| `Ingress.BodyIsClean` | agent_core/prompt_ingress.py:123-135 | the body is a prefix of the cleaned text within both limits, followed by the note exactly when cut, and holds no reserved tag |
| `Ingress.SourceNamesQualify` | agent_core/prompt_ingress.py:11-22 | source names hold no bracket, quote or line break |
| `Ingress.CloserMatches` | agent_core/prompt_ingress.py:33-36 | a literal closing delimiter is itself a match of the expression |
| `Ingress.EnvelopeClosesOnce` | agent_core/prompt_ingress.py:136-140 | the closing delimiter occurs in an envelope at its end and nowhere else |
| `Ingress.UnwrapWrap` | agent_core/prompt_ingress.py:84-89 | the body is recovered from the envelope |
| `Ingress.StrayMatchIffUnclosedHead` | agent_core/prompt_ingress.py:33-36 | in the body of an envelope the expression matches exactly at the heads the body leaves unclosed |
| `Ingress.TranscriptMatches` | agent_core/prompt_ingress.py:33-36 | an input: the clean body `<transcript` |
| `Ingress.CanonicalPromptSafe` | agent_core/prompt_ingress.py:92-111 | clean prompts pass unchanged; others are wrapped, close once and give back the defanged text |
| `Ingress.CanonicalContextSafe` | agent_core/prompt_ingress.py:114-149 | every context envelope closes once and gives back its body, whatever the text |
| `Ingress.ContextUntouchedIff` | agent_core/prompt_ingress.py:141-149 | neither flag is raised exactly when the text needed nothing |
| `Ingress.CutBackToItselfIff` | agent_core/prompt_ingress.py:141-149 | a text is truncated and yet reported as not neutralized if and only if it needed no cleaning, is cut, and the cuts take away exactly the note |
| `Utf8.Fit` | agent_core/prompt_ingress.py:129-133 | the longest prefix of whole characters within a number of bytes |
| `Utf8.TruncateBytes` | agent_core/hook_adapters.py:65-71 | the cut text is within the limit if and only if nothing was cut or the limit is at least 14 |
| `Utf8.EncodeWidth` | agent_core/hook_adapters.py:65-71 | the width of a character is the number of bytes of its UTF-8 encoding (section 3 of RFC 3629) |
| `HookProjection.SanitizeWithin` | agent_core/hook_adapters.py:85-129 | for every value the projection respects the depth, item and string limits, with distinct keys |
| `HookProjection.SanitizeFixedIff` | agent_core/hook_adapters.py:85-129 | a value is its own projection if and only if it conforms to the limits, cleaning and redaction |
| `HookProjection.SanitizeAllTexts` | agent_core/hook_adapters.py:74-129 | what holds of every cleaned text holds of every string and key of a projection |
| `HookProjection.NodeKeeps` | agent_core/hook_adapters.py:106-128 | a list or table keeps the first entries, at most as many as the limit, each projected, in order: in a table those whose cleaned key no earlier one has |
| `HookProjection.ListKeeps` | agent_core/hook_adapters.py:122-128 | a list keeps exactly its first entries, as many as the limit allows, each projected in place |
| `HookProjection.TableKeeps` | agent_core/hook_adapters.py:106-121 | under the cleaned key of each of the first entries of a table stands the projection of the first entry with that key |
| `HookShrink.LongestIsLongest` | agent_core/hook_adapters.py:132-144 | the path leads to a string, and no string is longer |
| `HookShrink.ReplaceFrame` | agent_core/hook_adapters.py:147-151 | exactly the string at the path changes |
| `HookShrink.CutShortensOrNothing` | agent_core/hook_adapters.py:180-184 | a cut strictly lowers the string bytes, unless the longest has 15 or 16: then it changes nothing |
| `HookShrink.DropShrinks` | agent_core/hook_adapters.py:169-177 | dropping an entry lowers the measure and lengthens no string |
| `HookShrink.EscapedTruncate` | agent_core/hook_adapters.py:167-183 | cutting never makes the printed form longer |
| `HookShrink.EndsIff` | agent_core/hook_adapters.py:167-186 | the loop ends if and only if the value does not hang, a condition on the value before the loop, and then within a stated number of passes |
| `HookShrink.DoneFits` | agent_core/hook_adapters.py:167-186 | a result is within the limit, given the 33 bytes of the larger fallback |
| `HookShrink.ShrinkOnce` | agent_core/hook_adapters.py:168-185 | the loop body does the specified pass |
| `HookShrink.BoundPayload` | agent_core/hook_adapters.py:154-186 | the loop gives a result exactly when the value does not hang, and the result fits |
| `HookJson.PrintBytes` | agent_core/hook_adapters.py:167-167 | the size that the loop compares with the limit is the number of bytes of the printed form |
| `HookShrink.ShortStringsHang` | agent_core/hook_adapters.py:167-185 | every oversize structure whose longest string has 15 or 16 bytes is passed over forever |
| `HookPayload.NestedShortStringsHang` | agent_core/hook_adapters.py:154-186 | nested lists of such strings, within the item and depth limits and left alone by the sanitiser, are never finished |
| `HookPayload.DefaultLimitsHang` | agent_core/hooks.py:105-109 | an input under the default limits, for every plain text of 15 or 16 bytes |
| `HookPayload.SixteenLettersHang` | agent_core/hooks.py:105-109 | one closed input, with ASCII classes and JSON escaping |
| `HookPayload.PayloadHasNoFraming` | agent_core/hook_adapters.py:74-186 | no string or key of a payload holds a reserved tag, whatever the value and after any number of passes |
| `HookPayload.DefaultPayloadHasNoFraming` | agent_core/hook_adapters.py:74-186 | the same under the default limits with the reserved names and ASCII classes, without assumptions |
| `ShellSplit.Scan` | agent_core/permission_rules.py:373-403 | the scan over buffer, quote and position computes the pieces between operators |
| `ShellSplit.SplitSubcommands` | agent_core/permission_rules.py:367-404 | trimmed pieces that are not blank, in order |
| `ShellSplit.PiecesByRuns` | agent_core/permission_rules.py:373-403 | nothing is lost but the operators |
| `ShellSplit.SplitCompose` | agent_core/permission_rules.py:367-404 | splitting composes over every operator between two command lines, when the quotes on the left are closed and the operator does not run together with its own character |
| `ShellSplit.QuotedTextStays` | agent_core/permission_rules.py:380-390 | a text in quotes, whatever operators or other quotes are in it, is no place to split, and closes its quote |
| `ShellSplit.OpenQuoteContinues` | agent_core/permission_rules.py:380-390 | with a quote open, what follows continues the last piece |
| `ShellSplit.SubcommandsAreFinal` | agent_core/permission_rules.py:367-404 | a sub-command splits into itself |
| `ShellStrip.StripLeadingEnv` | agent_core/permission_rules.py:422-428 | the loop removes the leading safe assignments |
| `ShellStrip.StripSafeWrappers` | agent_core/permission_rules.py:431-470 | the loop removes wrappers as specified, with every branch of the original |
| `ShellStrip.StripWrappersIsSuffix` | agent_core/permission_rules.py:431-470 | what remains is a suffix, everything removed is removable, and nothing is left to strip |
| `ShellStrip.StripWrappersFixed` | agent_core/permission_rules.py:422-470 | each stripping is a fixed point of itself |
| `ShellStrip.UnsafeAssignmentStays` | agent_core/permission_rules.py:407-428 | an assignment of a hijacking or unknown variable, and everything after it, is never removed |
| `ShellStrip.SafeAssignmentIff` | agent_core/permission_rules.py:422-428 | an assignment is removable if and only if it opens with one of the known names and an equals sign |
| `ShellStrip.NormalTwiceIff` | agent_core/permission_rules.py:407-419 | normalising again changes something if and only if, scanning the words from the left, a safe assignment follows a wrapper or its number |
| `ShellStrip.NohupLangTwice` | agent_core/permission_rules.py:407-419 | an input: `nohup LANG=C ls` loses the assignment only the second time |
| `ShellStrip.WrapperStripped` | agent_core/permission_rules.py:458-465 | a wrapper and the number after it are removed, and stripping goes on with the rest |
| `ShellStrip.NohupStripped` | agent_core/permission_rules.py:443-446 | so is `nohup` |
| `ShellStrip.EnvStripped` | agent_core/permission_rules.py:447-451 | so is `env` with a safe assignment after it |
| `ShellStrip.AssignmentStripped` | agent_core/permission_rules.py:422-428 | so is a safe assignment in front |
| `ShellStrip.BareWrapperStripped` | agent_core/permission_rules.py:466-469 | a wrapper in front of a word that is neither a number nor an option is removed alone |
| `ShellStrip.BareEnvStripped` | agent_core/permission_rules.py:452-456 | so is `env` |
| `ShellStrip.FlagStops` | agent_core/permission_rules.py:447-461 | a wrapper or `env` in front of an option stays, with everything after it |
| `ShellRules.MatchShellCommand` | agent_core/permission_rules.py:342-364 | the matching that the next rows pin, for every behaviour |
| `ShellRules.DenyMatchIff` | agent_core/permission_rules.py:342-364 | a command is denied, or asked about, if and only if some pattern covers some sub-command as written or normalised, whichever is not blank |
| `ShellRules.AllowMatchIff` | agent_core/permission_rules.py:342-364 | it is allowed if and only if it has a sub-command and the normalised text of each, and no other, is covered |
| `ShellRules.DeniedBehindRemovable` | agent_core/permission_rules.py:342-364 | a sub-command that stripping turns into a denied text is denied |
| `ShellRules.DeniedBehindWrapper` | agent_core/permission_rules.py:431-470 | what is denied without a wrapper and its number is denied with them |
| `ShellRules.RemovalBehindTimeout` | agent_core/permission_rules.py:361-363 | an input: `timeout 5 rm -rf build` under a rule that denies `rm -rf build` |
| `ShellRules.CompoundDenied` | agent_core/permission_rules.py:342-364 | a compound is denied, or asked about, if and only if one of its sides is |
| `ShellRules.CompoundAllowed` | agent_core/permission_rules.py:342-364 | a compound is allowed if and only if every side that is not blank is, and one is not blank |
| `ShellRules.DecidedBySubcommands` | agent_core/permission_rules.py:342-404 | a command is decided by its sub-commands, each as a command of its own |
| `ShellRules.MatchesMonotone` | agent_core/permission_rules.py:207-248 | more rules match more, for every behaviour; restricting the origin matches less |
| `ShellRules.MergedDenyIsUnion` | agent_core/permission_rules.py:151-157 | over merged sets, deny and ask rules match exactly the union, and so do allow rules of tools without a command line |
| `ShellRules.MergedAllowBySubcommands` | agent_core/permission_rules.py:207-248 | over merged sets a command is allowed exactly when each sub-command is allowed by one set or the other |
| `ShellRules.MergedAllowDiffersIff` | agent_core/permission_rules.py:151-157 | merged sets allow what neither allows if and only if no whole-tool rule applies, every sub-command is allowed by one or the other, and each fails on some sub-command |
| `ShellRules.MergedAllowIsNotUnion` | agent_core/permission_rules.py:151-157 | so a compound can be allowed although neither set allows it |
| `ShellRules.AllowedTogether` | agent_core/permission_rules.py:151-157 | an input: the rules `a` and `b` and the command `a;b` |
| `PermissionLimits.MatchesIff` | agent_core/permission_rules.py:207-248 | a list of rules governs a call if and only if it has a rule for the whole tool, or covers some part of its command line (deny, ask) or every part (allow), or covers its other argument; only rules of the tool and of the asked origin count |
| `Permissions.ManagedDenyCovered` | agent_core/permissions.py:296-311 | a managed deny rule is also seen by the check of all deny rules |
| `Permissions.AllowIff` | agent_core/permissions.py:157-279 | a call is allowed if and only if original and rewritten arguments passed every check, the tool does not object, and there is a ground |
| `Permissions.DenyIff` | agent_core/permissions.py:157-279 | a call is refused if and only if a check stops its arguments, the tool fails, a check stops the rewritten arguments, or permission is withheld by the tool or the mode |
| `Permissions.AllowMeansNoRuleObjects` | agent_core/permissions.py:157-279 | no deny or ask rule matches the original or the rewritten arguments of an allowed call |
| `Permissions.AlwaysDecides` | agent_core/permissions.py:488-514 | the result is never passthrough, and never a question in dontask mode |
| `Permissions.DenyRulesTighten` | agent_core/permissions.py:296-311 | adding deny rules changes a decision only to a refusal |
| `Permissions.AskRulesEffect` | agent_core/permissions.py:387-402 | adding ask rules changes a decision only by asking in a preflight that was passed before |
| `Permissions.AskRulesLoosenIff` | agent_core/permissions.py:179-204 | more ask rules make a decision more permissive exactly when they newly apply, outside dontask mode, to a call that the tool, its rewritten arguments or the mode would have refused |
| `Permissions.AskRuleHidesRefusal` | agent_core/permissions.py:179-204 | an input: a rule that asks about a tool turns its refusal into a question |
| `Permissions.AllowRulesOnlyGrant` | agent_core/permissions.py:217-279 | adding allow rules only turns decisions into allowing, and never overrides a check or the tool |
| `Permissions.SessionAllowedIff` | agent_core/permissions.py:591-602 | a shell call is granted for the session if and only if grants count, something in it can be remembered, and of every sub-command the normalised text is blank or was remembered |
| `Permissions.UnrememberedNotGranted` | agent_core/permissions.py:602-602 | one sub-command that was never remembered is enough for the call not to be granted |
| `Permissions.SessionCompound` | agent_core/permissions.py:591-602 | a compound is granted if and only if both sides are, when both have something to remember; a side with nothing to remember does not count |
| `Permissions.SessionToolIff` | agent_core/permissions.py:591-602 | other tools are granted by name |
| `PermissionLimits.UnattendedNeedsSandbox` | agent_core/permissions.py:313-328 | in a mode without a user, outside the sandbox, every call is refused unless the administrator does not demand it and the opt-out is given |
| `PermissionLimits.AttendedIgnoresSandbox` | agent_core/permissions.py:313-328 | in the other modes both settings change no decision |
| `PermissionLimits.EnvelopeIsOrder` | agent_core/permissions.py:330-347 | the envelopes of sub-agents nest: they are a partial order on the modes |
| `PermissionLimits.ChainStaysInside` | agent_core/permissions.py:330-352 | no chain of sub-agents gets beyond the mode of the first; bypass, auto and planning come only from themselves |
| `PermissionLimits.OutsideEnvelopeRefused` | agent_core/permissions.py:348-352 | a sub-agent outside the envelope is refused every call |
| `PermissionLimits.PlanOnlyReads` | agent_core/permissions.py:356-376 | while planning, only reading and the planning tools can be allowed |
| `PermissionLimits.AskRuleAlwaysAsks` | agent_core/permissions.py:387-402 | no mode, grant or tool gets around a rule that asks; dontask mode refuses |
| `PermissionLimits.UnsettledCall` | agent_core/permissions.py:217-279 | a call without an opinion of the tool and without a ground is refused, put to the classifier or asked, by the mode |
| `PermissionLimits.AutomatedOnlyInAuto` | agent_core/permissions.py:488-514 | only questions are put to the automatic classifier, only in auto mode, and never for a tool that needs the user |
| `PermissionPolicyState.PermissionPolicy.constructor` | agent_core/permissions.py:102-155 | the initial settings |
| `PermissionPolicyState.PermissionPolicy.Refresh` | agent_core/permissions.py:516-532 | a reload replaces the administrator's rules and keeps configured and session rules; a failed one changes nothing and is reported |
| `PermissionPolicyState.PermissionPolicy.AddSessionRule` | agent_core/permissions.py:640-646 | the rule is in force at once and belongs to what survives a reload |
| `PermissionPolicyState.PermissionPolicy.RememberAlways` | agent_core/permissions.py:604-612 | afterwards the same call is allowed for the session, except as stated |
| `PermissionPolicyState.PermissionPolicy.Decide` | agent_core/permissions.py:157-279 | a failed reload refuses; otherwise the decision is the one specified for the reloaded state |

## Left out

- Line diffs (`difflib`), symbol ownership (`ast`), word splitting (`shlex`), schema validation and the escaping of one character in JSON are parameters with small contracts; the regular expression for reserved tags is an explicit scanner over arbitrary character classes, and texts are sequences of Unicode scalar values.
- Provider calls, timeouts and prompt texts: a provider is an arbitrary function from the number of the attempt to a reply.
- The token estimator is an arbitrary function to the natural numbers, and the drop fraction is a real number.
- The structured projection of code results is an arbitrary function that returns nothing or text within its limit; the wording of snip and shrink markers is shortened, except where its length matters.
- The sampling inside one round of a projected band (`_project_round`) is an arbitrary function.
- The body of the deterministic summary, attachments and render statistics.
- File writes, locks and journalling of the background store: a save is a step that succeeds or fails. Payload fields other than identity are not part of the records.
- Freshness of task ids is assumed of the id generator; the process supervisor publishes only about shells, and an agent is handed to its caller only after its first save.
- Dictionary iteration order is an arbitrary parameter of the eviction and reload steps.
- SummaryBudget.SummaryChunks: starts from a prefix that is not empty, which its only caller guarantees.
- Finding the TOML table header and appending a key that is not there yet.
- HookShrink.BoundPayload: a mutable tree without sharing is a value here, positions stand for the keys of a path, and the counters of the sanitiser and the loop are left out; where the original would loop forever the method reports it.
- Decoding of a cut byte string is modelled by its effect, dropping the character that was cut.
- Which rule is reported as the one that matched, reasons and metadata of permission decisions, the validator cache, and the legacy boolean interface.
- Glob, domain and wildcard matching of one pattern, path and address checks, and the sandbox are arbitrary functions.
- Parsing of rule strings, persisting grants, inheriting grants, and the interactive prompt.
