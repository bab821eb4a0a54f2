# Transformations, tables and accounts of the coding agent's tooling

A Dafny model of the parts of this repository that transform source text, keep tables in step
with growing files, or account for lines and tokens, with proofs of what they promise on every
input and every run. `dafny verify dfyconfig.toml` checks all of it.

## What is modelled

**Function inliner** (`scripts/inline-functions.ts`, strict-effects mode). A small language with
effectful calls, assignment, short-circuit operators, block scopes with a temporal dead zone and
exceptions (`InlineSyntax`, `InlineSemantics`; sections 13.3.8, 13.13 and 14.2.3 of ECMA-262). The
tool pastes text, so the model has tokens and a precedence parser (`InlineText`): what a pasted
condition means is what the parser makes of it. `InlineTheorem.InlineIsExact` is the tool's central
claim: the call and what replaces it have the same completion, module state, effect trace and
caller variables, for every behaviour of the outside world. It needs two conditions that the tool
does not check. `Hygienic`: no introduced temporary or renamed local is a name the body uses for
something else, guards do not mention tail locals, and no name is both free and block-local in the
body while the caller declares it. `CallOrdered`: no guard compares `undefined` with a relational
operator, because `!(a < b)` is not `a >= b` then. `InlineLimits` has one concrete program for each
way of going wrong. The negation of a single comparison is exact if and only if its operands are
ordered (`InlineNegate.FlipComplementsIffOrdered`). A caller can test the text instead: guards in
which inverting flips no relational operator are in order in every world and state
(`InlineTheorem.InlineIsExactWithoutFlips`).

**Incremental session sync** (`scripts/session-stats/sync.py`). Session files as lists of whole
lines, the parser, the record lists, the upserts as map updates, the database as a class, and a
state machine of appends and syncs in which lines may arrive before the stat, between stat and read
and after. `SessionSync.RunEqualsRebuild`: after any run the tables are those of one rebuild,
if the parser's version does not go down. What that is, `SessionRows.RunSaysFile` says row by row
from the lines of the file alone: which lines have a row, which blocks its texts and counts come
from, which call and which result an edit shows; no other tables meet the description. Two limits have exact conditions. A rebuild over old rows
equals a fresh build if and only if no metadata column is left that the file would not set
(`RebuildExactUnlessMetaStale`), because those columns are only coalesced. And the staleness test is
`<`, so an older version continues a newer one's rows: such a sync leaves what a rebuild by the older
version would if and only if it decides to rebuild anyway, or the lines not yet counted write anew
every edit and section the counted ones left (`SessionDowngrade.DowngradeExactIff`).
`SessionDowngrade.DowngradeMixesVersions` is a run of four events that ends with mixed tables.

**Longest repeat** (`sync.py`). Optimal over all pairs, earliest first. The documentation says "if a
repeat with at least half meaningful lines exists"; the code looks only at the longest match of each
pair. A repeat that the documentation promises is counted if and only if its longest extension is
meaningful enough (`LongestRepeat.CountedIffExtensionTelling`), so for blocks of meaningful lines the
promise holds (`FoundIffRepeated`), and `TellingPrefixMissed` is a block for which nothing is reported.

**Structural summaries** (`crates/pi-ast/src/summary.rs`). Collecting foldable regions of a syntax
tree into an arena, the breadth-first unfold with its budget and ceiling, normalising spans, and
building segments. `SummaryBuild.Summarize` leaves out a line only for one of three reasons that can be
read off the tree: it is inside a long comment, inside a long node of a kind that can be folded, or
between the first and the last of a long run of import-like statements; when nothing is to be unfolded
it leaves out every such line. The accounting holds on well-nested forests, and
`SummaryBuild.ForestNestedIffClean` says which trees give one: a tree does if and only if no folded
run of import-like statements has something foldable inside a statement that is neither its first
nor its last. `u32` wrap-around and saturation are in the model: on any forest the pass steers by the
count that they give.

**Edit application** (`crates/pi-ast/src/ops.rs`) and **block boundaries** (`crates/pi-ast/src/block.rs`).

**Replays** (`scripts/session-stats/optimize_read_config.py`, `read_optimizer.py`). Interval algebra,
the two-phase replay with its bill (twenty times the total is twenty for each line that comes back in
full, seven for each that comes back summarised, and 4000 a call), grouped replay with its skip rule, and the Pareto frontier.

**Reservoir sampler** (`scripts/tool_io.py`). Counted over all sequences of random indices: every
position, and every subset of positions, is equally likely.

**Changelog fixer** (`scripts/fix-changelogs.ts`). Lines already recognised as release heading,
category heading, bullet, prose or blank. Reading and writing, the fixer, and the diff pairing. What
is written has the Unreleased sections first and then the releases, none before a newer one, with ties
in the order they had. If every body begins at a bullet, each section holds after a run exactly what it is owed: a release its
items but the promoted ones, Unreleased its items that no release has and the promoted ones, each under
the category it came from. A body
that opens with prose can take an item along: bodies of one title keep their items if and only if no
such body stands behind one with items (`ChangelogRepeats.JoinKeepsItemsIff`); `ProseTakesItem` is a
document that loses one. Fixing twice is not always fixing once: `RepeatedHeadingDiffers` is a
document for which it is not, and `TwiceIsOnceIff` says of every document when it is.

**Prompt rewriter** (`scripts/rewrite-system-prompt.ts`) and **session audit**
(`scripts/session-stats/audit.ts`). The worker pools as a state machine whose events interleave
freely, the retry loop against arbitrary replies, reassembly: the first answer that keeps a line's
tokens stands in the line, and a line without one stays; residency and the trimmed top list.
Tokens are counted one by one, so two can be found in one place: counting lets through only texts
with room for all tokens at once if and only if no two of them clash, one being part of the other or
an end of one the beginning of the other (`PromptTokens.AcceptedIsPlacedIff`).

## How it is laid out

`Common`, `StableSort` and `Intervals` are shared; `StableSort.SortPlaces` says that equals keep their order. Modules whose names begin with `Inline`, `Session`,
`Summary`, `Replay`, `Prompt` and `Changelog` belong together; `LongestRepeat`, `Reservoir`, `Edits`,
`Blocks` and `SessionAudit` stand alone. Code that the source runs step by step is a method proved
against a function or a relation, whose properties are lemmas.

## Model

| member | source | states |
|---|---|---|
| InlineTheorem.InlineIsExact | scripts/inline-functions.ts:37-53 | inlining in strict mode keeps completion, module state, effect trace and the caller's variables, for every well-formed accepted helper, argument list and start state, if introduced names are not captured and relational guards compare no `undefined` |
| InlineTheorem.InlineIsExactWithoutFlips | scripts/inline-functions.ts:37-53 | the same in every world and state, with a condition on the guards' text in place of the ordering of operands |
| InlineTheorem.PrefixRuns | scripts/inline-functions.ts:848-881 | the hoisted statements evaluate every argument once, left to right, as the call does, throw when it throws, and leave each used parameter's value in its own temporary |
| InlineTransform.BuildReplacement | scripts/inline-functions.ts:837-900 | the loops over parameters and tail build the replacement the theorem is about |
| InlineTransform.HoistArguments | scripts/inline-functions.ts:848-881 | the running lists of the parameter loop come to the plan of the remaining parameters |
| InlineTransform.RenameCollidingLocals | scripts/inline-functions.ts:793-823 | the growing set of taken names gives each colliding tail local its own fresh name |
| InlineTransform.FreshName | scripts/inline-functions.ts:501-507 | the search ends, with the first candidate name that is not taken |
| InlineSubst.SubTextIsTextOfSubst | scripts/inline-functions.ts:294-301 | replacing identifiers in the text is the text of the expression with its identifiers replaced |
| InlineText.ParseText | scripts/inline-functions.ts:303-312 | every tree a parser can produce is read back from its text, with `\|\|` looser than `&&` looser than comparisons |
| InlineNegate.NegateText | scripts/inline-functions.ts:315-349 | the negated text is the text of a complement tree that the parser can produce, so the parentheses put in are enough |
| InlineNegate.CombineGuardsParses | scripts/inline-functions.ts:352-356 | the combined condition parses to the conjunction of the negated guards |
| InlineNegate.FlipComplementsIffOrdered | scripts/inline-functions.ts:138-147 | a flipped comparison is the complement if and only if it is an equality or neither operand is unordered |
| InlineNegate.NegTreeComplements | scripts/inline-functions.ts:315-345 | the negation has the opposite truth value, the same effects in the same order and the same exceptions, short circuits included |
| InlineNegate.CombineTreeRunsGuards | scripts/inline-functions.ts:352-356 | the condition runs the guards in order and stops where the first one returns |
| InlineLimits.UnorderedOperandsDiverge | scripts/inline-functions.ts:138-147 | a missing argument compared with `<`: the call runs the tail, the inlined code does not |
| InlineLimits.CapturedTemporaryDiverges | scripts/inline-functions.ts:772-785 | names are reserved against the caller's block alone, and a temporary captures a module variable the body uses |
| InlineLimits.FlatFreeNamesDiverge | scripts/inline-functions.ts:50-53 | a name declared in one block of the body counts as local in all of it, and the shadow check misses a capture |
| InlineLimits.EarlyReadDiverges | scripts/inline-functions.ts:793-823 | a guard that reads a tail local gets past the dead zone once inlined |
| SessionSync.SkipMeansUnchanged | scripts/session-stats/sync.py:1066-1067 | an append-only file that is skipped has no line that was not counted |
| SessionSync.ParseFile | scripts/session-stats/sync.py:649-733 | the line loop reads from the offset to the end, numbers entries on, and advances the offset by the bytes read |
| SessionSync.IngestAssistant | scripts/session-stats/sync.py:741-795 | one pass over the content blocks yields the calls, edit stubs and sections, and the message row, of the parse that `SessionRows.RunSaysFile` describes |
| SessionSync.SessionStore.WriteRecords | scripts/session-stats/sync.py:917-1033 | one transaction leaves the upserted tables and the new sync row of this file, and touches no other file's |
| SessionSync.SessionStore.SyncFile | scripts/session-stats/sync.py:1049-1074 | a sync of the store is the sync step of the state machine |
| SessionLog.ParseAppend | scripts/session-stats/sync.py:649-733 | parsing a file in two parts, with the line number carried over, gives the records of parsing it whole |
| SessionLog.StubVerdictCommute | scripts/session-stats/sync.py:917-1033 | an edit's call row and its result may be written in either order |
| SessionLog.ApplyCat | scripts/session-stats/sync.py:917-1033 | writing two batches of records is writing them as one |
| SessionSync.StepConsistent | scripts/session-stats/sync.py:1049-1074 | every append and sync keeps the tables a rebuild of a prefix of the file, and a sync makes it the whole |
| SessionSync.RunEqualsRebuild | scripts/session-stats/sync.py:649-1074 | over every run, skips, rebuilds and increments mixed, the tables after a sync are those of one full rebuild |
| SessionRows.RunSaysFile | scripts/session-stats/sync.py:649-1033 | after any such run the tables are the only ones that say what the file says: a call, result, message or user row for exactly the lines with one and from their own content, text and thinking read off exactly their own blocks and each counted for itself, an edit's columns from its last call and its verdict from its last result, a section from the last call that has it, metadata from line 0 |
| SessionRows.FreshSaysFile | scripts/session-stats/sync.py:741-904 | a rebuild of any file's tables puts that down |
| SessionRows.FileDetermines | scripts/session-stats/sync.py:741-904 | and it leaves no row and no column open |
| SessionSync.SyncReadsOnlyNew | scripts/session-stats/sync.py:1066-1074 | a file that has grown past what was counted is read from there on, by the same version |
| SessionSync.SyncTwiceSkips | scripts/session-stats/sync.py:1066-1067 | right after a sync of a file nobody writes to, another has nothing to do |
| SessionSync.VersionsOnlyGrow | scripts/session-stats/sync.py:1049-1074 | runs whose parser versions never go down are the runs the theorem is about |
| SessionSync.RebuildExactUnlessMetaStale | scripts/session-stats/sync.py:917-1033 | a rebuild over existing rows equals a fresh one if and only if no coalesced metadata is left over |
| SessionDowngrade.DowngradeExactIff | scripts/session-stats/sync.py:1049-1074 | from any consistent state, a sync by an older parser is exact if and only if it decides to rebuild or the new lines write anew every edit and section that the counted lines left |
| SessionDowngrade.DowngradeMixesVersions | scripts/session-stats/sync.py:1049-1074 | a run of four events, from the empty state, whose last sync leaves tables that are not the older parser's |
| LongestRepeat.FindLongestRepeat | scripts/session-stats/sync.py:503-522 | the greatest length, at its first start, over all pairs whose maximal match is long and meaningful enough, and none exactly when there is no such pair |
| LongestRepeat.CountedIffExtensionTelling | scripts/session-stats/sync.py:503-522 | of every repeat the documentation promises: its pair of places is counted if and only if the longest extension is meaningful enough |
| LongestRepeat.FoundIffRepeated | scripts/session-stats/sync.py:503-522 | for meaningful lines something is found if and only if as long a repeat without overlap exists |
| LongestRepeat.TellingPrefixMissed | scripts/session-stats/sync.py:503-505 | a block with a promised repeat of which no pair of places is counted at any length |
| Reservoir.ReservoirSample.Add | scripts/tool_io.py:118-134 | one item: appended while there is room, then replacing a drawn index or dropped |
| Reservoir.SampleReservoir | scripts/tool_io.py:118-134 | adding a stream item by item is the sampler's function of the stream and the draws |
| Reservoir.SampleIsPositions | scripts/tool_io.py:118-134 | the sample holds the stream's items at the sampled positions, whatever the items are |
| Reservoir.DrawsAreRuns | scripts/tool_io.py:118-134 | the draws the generator can make once the sample is full are among the runs that are counted |
| Reservoir.RunsAreDraws | scripts/tool_io.py:118-134 | every run that is counted is given by some draws in range |
| Reservoir.EveryPositionEquallyLikely | scripts/tool_io.py:118-134 | each of n positions is in the sample after exactly k/n of all runs |
| Reservoir.EverySubsetEquallyLikely | scripts/tool_io.py:118-134 | each set of k positions is the sample after exactly m! runs, m being the draws made |
| SummaryForest.ElidableForest.Push | crates/pi-ast/src/summary.rs:96-106 | a new node at the end of the arena, hung below its parent or among the roots |
| SummaryForest.PushKeeps | crates/pi-ast/src/summary.rs:78-106 | pushing keeps the arena a forest in which every node hangs in one place, one level below its parent |
| SummaryForest.HideMany | crates/pi-ast/src/summary.rs:132-133 | folding spans that overlap nothing folded costs exactly the sum of their lines |
| SummaryUnfold.UnfoldCount | crates/pi-ast/src/summary.rs:143-158 | on a well-nested forest one unfold reveals exactly the lines added to the count, and no `u32` operation wraps or saturates |
| SummaryUnfold.SelectFolded | crates/pi-ast/src/summary.rs:118-162 | the pass ends; the folded spans are those reached and not opened; on every forest, overlapping or not, each span was opened while the saturating count was below the target and kept it within the ceiling, in order of depth, and every one left would pass the ceiling unless the target is met; on a well-nested forest the same holds of the visible lines |
| SummarySegments.NormalizeSpans | crates/pi-ast/src/summary.rs:814-834 | sorted, separated spans within the file that cover exactly the covered lines of the file |
| SummarySegments.BuildSegments | crates/pi-ast/src/summary.rs:836-875 | segments tile the file from line 1, alternate in kind, are elided exactly where a span covers, and keep the source's own lines |
| SummarySegments.ElidedAreSpans | crates/pi-ast/src/summary.rs:836-890 | the elided segments are the normalised spans, one for one and in order |
| SummarySegments.SegmentsRestoreSource | crates/pi-ast/src/summary.rs:836-890 | putting the left-out lines back gives the source |
| SummaryOutline.SummarizeForest | crates/pi-ast/src/summary.rs:199-212 | the number of lines a reader sees is the number the unfold pass steers by |
| SummaryCollect.TidyIffClean | crates/pi-ast/src/summary.rs:247-358 | the recorded spans are well nested if and only if no folded run has something foldable inside a middle statement, here or below |
| SummaryReasons.SpansHide | crates/pi-ast/src/summary.rs:247-358 | a line is under a recorded span if and only if it has one of the three reasons, told from kinds and lines of the nodes alone |
| SummaryReasons.RunHides | crates/pi-ast/src/summary.rs:328-358 | a run's fold hides exactly the lines between the content of its first statement and the start of its last |
| SummaryReasons.TopsHide | crates/pi-ast/src/summary.rs:247-326 | the outermost spans hide all that any span below them hides |
| SummaryBuild.Collect | crates/pi-ast/src/summary.rs:247-326 | the recursion over a syntax tree records exactly that tree's span trees, parents before children; which lines those hide is `SummaryReasons.SpansHide` |
| SummaryBuild.CollectRuns | crates/pi-ast/src/summary.rs:280-312 | the run variables find every maximal run of groupable siblings and record its fold |
| SummaryBuild.ForestNestedIffClean | crates/pi-ast/src/summary.rs:247-358 | the arena of a whole tree meets the unfold pass's requirement if and only if the tree is clean |
| SummaryBuild.Summarize | crates/pi-ast/src/summary.rs:164-212 | from tree to segments: a line is left out only if it lies behind the second and before the last line of a long comment, strictly inside a long foldable node, or between the statements of a long maximal run, nothing below a comment counting, and if nothing is to be unfolded every such line is; for clean trees the kept lines respect budget and ceiling |
| Edits.ApplyEdits | crates/pi-ast/src/ops.rs:296-334 | the overlap error exactly when two distinct edits overlap, out of bounds exactly when none do and one ends past the content; of the rest, done exactly when every edit's text is UTF-8 and its ends are character boundaries of the content, with the simultaneous splice of the distinct edits, else the error or panic of the last edit that fails |
| Edits.OrderDoesNotMatter | crates/pi-ast/src/ops.rs:297-312 | neither the order of the edits nor repeating one matters |
| Edits.CanonicalInOrder | crates/pi-ast/src/ops.rs:297-311 | edits go by position, at one place by length, and insertions of one place alphabetically |
| Edits.LengthLaw | crates/pi-ast/src/ops.rs:321-333 | the result is as long as the content plus inserted minus deleted |
| Edits.InsertedTextLands | crates/pi-ast/src/ops.rs:321-333 | every edit's text stands at its position, moved by the edits before it |
| Edits.KeptBytesStay | crates/pi-ast/src/ops.rs:321-333 | every byte no edit deletes is kept, moved by the edits that end before it |
| Blocks.IsVisible | crates/pi-ast/src/block.rs:170-182 | the binary search finds a line if and only if a range has it |
| Blocks.NormalizeRanges | crates/pi-ast/src/block.rs:150-168 | separated ranges with the lines of the valid input ranges |
| Blocks.EnclosingBlockBoundaries | crates/pi-ast/src/block.rs:184-261 | strictly increasing, and exactly the lines outside the shown ranges where a many-line named block below the root closes (opens) that opens (closes) inside them |
| Blocks.Climb | crates/pi-ast/src/block.rs:99-114 | the outermost ancestor below the file that starts on the row, or none when the leaf does not |
| Blocks.BlockRangeAt | crates/pi-ast/src/block.rs:58-126 | the lines of the outermost node that begins with a line's content and is free of syntax errors, and none exactly when there is no such node |
| ReplayConfig.MergeAll | scripts/session-stats/optimize_read_config.py:146-157 | separated ranges with the same lines |
| Intervals.ContainedIffCovered | scripts/session-stats/optimize_read_config.py:160-164 | on separated ranges, lying in one range is being covered by all of them |
| ReplayConfig.Subtract | scripts/session-stats/optimize_read_config.py:167-183 | the lines of the range that the others leave out, in order and without overlap |
| ReplayConfig.EffectiveIsLongest | scripts/session-stats/optimize_read_config.py:315-343 | a call, kind by kind, starts where it was asked to and goes to the last line that request, file and the limits on lines and bytes all allow, or has its first line if they allow none |
| ReplayConfig.PerCallIsMost | scripts/session-stats/optimize_read_config.py:336-340 | so many lines are within the limit of a call if and only if they are within the limit on lines and, but for a single line, within the limit on bytes |
| ReplayConfig.ChunkRange | scripts/session-stats/optimize_read_config.py:357-368 | chunks run through the range without a hole, none over the limit, all but the last full |
| ReplayConfig.ChunkLoopEndsIff | scripts/session-stats/optimize_read_config.py:357-368 | the loop gets past the range if and only if the limit is at least one line |
| ReplayConfig.FewestChunks | scripts/session-stats/optimize_read_config.py:357-368 | no fewer chunks could do |
| ReplayConfig.ReplayPair | scripts/session-stats/optimize_read_config.py:371-415 | whenever the loops end, synthetic calls are in order, without overlap, within the limit, full unless the next line is not missing, and have exactly the lines that were received and that no simulated call returns; the kept calls are those that bring a line none before them brought; twenty times the total is the tokens a line has, times twenty for each line in full and seven for each summarised, plus 4000 a call |
| ReplayConfig.PaidDeliversAll | scripts/session-stats/optimize_read_config.py:389-402 | dropping a call loses none of the lines it would return |
| ReplayConfig.NothingIsFree | scripts/session-stats/optimize_read_config.py:371-415 | every line received or returned is paid for, in one of the two phases and not in both |
| ReplayConfig.KeptBill | scripts/session-stats/optimize_read_config.py:346-402 | the calls charged are the kept ones, and what they come to is their lines, in full or summarised, and a fixed sum each |
| ReplayReads.AddInterval | scripts/session-stats/read_optimizer.py:261-278 | the list stays sorted and spaced, and covers what it did plus the item |
| ReplayReads.IsCovered | scripts/session-stats/read_optimizer.py:251-258 | stopping early in a sorted list misses nothing: covered exactly when every line of the target is |
| ReplayReads.DeliveredIsNear | scripts/session-stats/read_optimizer.py:221-248 | a line is delivered if and only if it is asked for or in the context before (and, of an explicit range, after) it, and among the first such lines up to the limit |
| ReplayReads.CostIsLeast | scripts/session-stats/read_optimizer.py:352-394 | besides its arguments a call costs its lines or the byte budget, whichever is less, and one without bounds its result |
| ReplayReads.TruncatesIff | scripts/session-stats/read_optimizer.py:373-377 | which explicit ranges count as cut short |
| ReplayReads.ReplayCall | scripts/session-stats/read_optimizer.py:346-394 | a bounded call is skipped exactly when all its lines have been delivered in its group, and else charged and added to what is delivered |
| ReplayReads.ReplayGroup | scripts/session-stats/read_optimizer.py:334-407 | all tallies, truncations and byte limits included, grow by what the group's calls come to |
| ReplayReads.FirstCoversIffRestSkipped | scripts/session-stats/read_optimizer.py:395-407 | a group counts as covered by its first call if and only if no bounded call after it is paid for |
| ReplayReads.Replay | scripts/session-stats/read_optimizer.py:316-427 | all tallies are the sums over the groups, each on its own |
| ReplayReads.EveryReadOnce | scripts/session-stats/read_optimizer.py:316-427 | calls plus skips are all reads, the kinds of group share them out, and a covered group is a group |
| ReplayFrontier.Pareto | scripts/session-stats/read_optimizer.py:446-457 | every admissible setting is matched by one on the frontier, none on it is beaten, and along it fewer calls always cost more tokens |
| PromptPool.RunSound | scripts/rewrite-system-prompt.ts:236-253 | in every interleaving calls go out once each and in order, and each is in flight with one worker or has come back |
| PromptPool.PoolComplete | scripts/rewrite-system-prompt.ts:236-253 | when the workers have gone every item has its result, if and only if there was a worker or nothing to do |
| PromptPool.RunsAreShort | scripts/rewrite-system-prompt.ts:244-250 | no run takes more than three steps an item and one a worker |
| PromptPool.PoolNeverStuck | scripts/rewrite-system-prompt.ts:244-250 | a pool that is not over can take a step |
| PromptPool.AuditPoolNeedsALimit | scripts/session-stats/audit.ts:621-636 | the audit's pool brings every result if and only if its limit is at least 1 or it has nothing to do |
| PromptText.PreservesTokens | scripts/rewrite-system-prompt.ts:159-166 | accepted exactly when every token occurs as often as it did |
| PromptText.CountIsReached | scripts/rewrite-system-prompt.ts:163 | a token's count is reached by that many places that do not overlap |
| PromptText.CountIsMost | scripts/rewrite-system-prompt.ts:163 | and by no more |
| PromptTokens.AcceptedIsPlacedIff | scripts/rewrite-system-prompt.ts:154-166 | every accepted text has room for all tokens at once if and only if no two distinct tokens of the list clash |
| PromptTokens.OnePlaceForTwoTokens | scripts/rewrite-system-prompt.ts:154-166 | a text that is accepted and has no room for both of two tokens |
| PromptText.JoinSplit | scripts/rewrite-system-prompt.ts:211-225 | splitting a file into lines and joining it again changes nothing |
| PromptText.LineCountKeptIff | scripts/rewrite-system-prompt.ts:320-321 | joined lines split into as many if and only if none holds a newline |
| PromptRewrite.Peel | scripts/rewrite-system-prompt.ts:103-125 | prefix, core and suffix are the line, no block is left at the end of the core, and the prefix ends with the list marker where no further block begins |
| PromptRewrite.PlanRewrite | scripts/rewrite-system-prompt.ts:211-225 | exactly the lines of prose whose core is not blank are planned, in order, each put together from its own parts |
| PromptRewrite.Chunk | scripts/rewrite-system-prompt.ts:228-233 | the groups in order are the items, full but for the last |
| PromptRewrite.RewriteChunk | scripts/rewrite-system-prompt.ts:395-454 | each item gets the first answer within the retries that keeps its tokens, or none |
| PromptRewrite.ResolveGroup | scripts/rewrite-system-prompt.ts:288-307 | what a worker stores for a group: each entry with the text of the first reply that has every token as often as the original, or, if no reply has, its own core |
| PromptRewrite.RewriteAll | scripts/rewrite-system-prompt.ts:277-330 | under every interleaving and all replies each group is asked for once and lines outside the plan are unchanged; if a reply answers a planned line with a text that has every token as often as the original, and none before it does, the line is prefix, that text and suffix; if none does it is unchanged; and so many lines as there are of these are counted |
| PromptRewrite.FileKeepsItsLinesIff | scripts/rewrite-system-prompt.ts:270-276 | the rewritten file has as many lines if and only if no text put in holds a newline, which nothing checks |
| SessionAudit.ResidencyIsCarried | scripts/session-stats/audit.ts:508-513 | the weighted sum is what all requests together carry of results issued by earlier ones |
| SessionAudit.TrimEarly | scripts/session-stats/audit.ts:497-503 | cutting the list down on the way does not change its top in the end, ties included |
| SessionAudit.TopIsLargest | scripts/session-stats/audit.ts:519-520 | nothing left out is larger than anything shown |
| SessionAudit.ScanFile | scripts/session-stats/audit.ts:469-522 | every tool's residency is what the requests carried of it, the rows being those of `RowsAre`, and the top list is that of a full sort |
| SessionAudit.RowsAre | scripts/session-stats/audit.ts:469-482 | there is a row for every result, in order, with the tool and the number of the request whose call it answers, the latest not answered before, or else its own tool name and the latest request |
| SessionAudit.LargeAre | scripts/session-stats/audit.ts:497-498 | the large results are the rows of more than 2000 tokens, in order |
| ChangelogText.ParseChangelog | scripts/fix-changelogs.ts:137-200 | the index-driven loops cut the file at its headings |
| ChangelogText.ParseRender | scripts/fix-changelogs.ts:502-529 | a document without loose blank lines is read back from what is written of it |
| ChangelogText.RenderParseIdempotent | scripts/fix-changelogs.ts:137-200 | reading and writing again changes nothing, on every input |
| ChangelogLayout.RenderLaid | scripts/fix-changelogs.ts:502-529 | behind the lines in front of the releases and an empty line, every heading written has exactly one empty line before and after it, and the text ends in no blank line, whatever blank lines there were |
| ChangelogMerge.AppendKeepsItemsIff | scripts/fix-changelogs.ts:218-232 | joining keeps both bodies' items if and only if the second begins at a bullet or the first has none |
| ChangelogMerge.CompactKeeps | scripts/fix-changelogs.ts:359-377 | compacting keeps the items, trims, and has nothing to do a second time |
| ChangelogRepeats.WholeIff | scripts/fix-changelogs.ts:359-377 | compacting has something to do if and only if the body begins at a bullet and a blank line stands before another |
| ChangelogMerge.FilterRemovesItems | scripts/fix-changelogs.ts:266-274 | filtering by line number removes the chosen items whole and nothing else |
| ChangelogFix.DropUnreleasedDuplicates | scripts/fix-changelogs.ts:310-329 | the first Unreleased section keeps exactly the keys that no release has, nothing else changes, and a document without any is left alone |
| ChangelogPromote.Promote | scripts/fix-changelogs.ts:542-561 | every release keeps exactly the items that were not chosen, in order, Unreleased has its own keys and those of the chosen items, each under its category, and other sections stay |
| ChangelogOrder.ByVersionIs | scripts/fix-changelogs.ts:438-447 | one release comes before another unless the other has the greater part at the first place where they differ |
| ChangelogOrder.SortedLatestFirst | scripts/fix-changelogs.ts:449-455 | sorted sections are in that order behind the Unreleased ones |
| ChangelogOrder.SortedRearranges | scripts/fix-changelogs.ts:449-455 | sorting is a rearrangement in which sections that tie stay in order |
| ChangelogOrder.SortedInTurn | scripts/fix-changelogs.ts:354-357 | in a sorted section a listed category follows only those before it in the list |
| ChangelogRepeats.SortTwice | scripts/fix-changelogs.ts:438-455 | sorting sections twice is sorting them once |
| ChangelogRepeats.NormalizedSettles | scripts/fix-changelogs.ts:379-419 | a section without repeated headings keeps its keys and comes out compact, in order and with no blank body |
| ChangelogSettle.FixChangelogContent | scripts/fix-changelogs.ts:531-580 | whatever is in the document, what is written reads back with Unreleased sections before releases, no release before a newer one, a missing part of a version counting as 0, ties in the order they had, the categories of Unreleased in theirs, and every heading between single empty lines; if every body begins at a bullet it holds, section by section and under its categories, what each section of the document read is owed |
| ChangelogRepeats.FixTwice | scripts/fix-changelogs.ts:531-580 | a second run changes nothing if and only if every title's bodies were tight and merging released nothing; of bodies that begin at bullets only the first matters, and without repeated headings both hold |
| ChangelogRepeats.TwiceIsOnceIff | scripts/fix-changelogs.ts:531-580 | the same as a property of the written document, whatever the bodies are |
| ChangelogRepeats.JoinIsWholeIff | scripts/fix-changelogs.ts:228-231 | bodies of one title join to one that compacting leaves alone if and only if the first opens with prose, or items follow only bullet lines and prose-led bodies have no blank line before a bullet |
| ChangelogRepeats.ItemBodiesTightIff | scripts/fix-changelogs.ts:379-419 | for bodies of items: if and only if each that is followed by another of its title comes out of compacting with a bullet line at its end |
| ChangelogRepeats.MergedNeatIff | scripts/fix-changelogs.ts:379-419 | what merging a section leaves needs no compacting if and only if every title's bodies were tight |
| ChangelogRepeats.RepeatedHeadingDiffers | scripts/fix-changelogs.ts:531-580 | a document with a repeated heading for which the second run differs from the first |
| ChangelogRepeats.JoinKeepsItemsIff | scripts/fix-changelogs.ts:218-232 | joining the bodies of a title keeps their items, in order, if and only if no prose-led body stands behind one with items |
| ChangelogRepeats.ProseTakesItem | scripts/fix-changelogs.ts:531-580 | a document one of whose items is no item of the document written |
| ChangelogDiff.PairUp | scripts/fix-changelogs.ts:659-677 | searching for the first unpaired removal of each addition in turn pairs off, of each item, the first so many additions and removals |
| ChangelogDiff.PairsAreMost | scripts/fix-changelogs.ts:659-677 | of each item as many additions as removals are paired, the lesser of both counts |
| ChangelogDiff.PromotedIsExcess | scripts/fix-changelogs.ts:679-702 | a hunk promotes what its unpaired additions exceed its unpaired removals by, and none if it adds a release heading |
| ChangelogDiff.ReorderingPromotesNothing | scripts/fix-changelogs.ts:659-704 | a diff that removes and adds the same bullets promotes nothing |
| ChangelogScan.ScanIs | scripts/fix-changelogs.ts:593-657 | of every diff exactly the added and removed bullets inside a hunk of a named file are recorded, in order, each with file and hunk, an added one with its line number in the new file, and the hunks with an added release heading |
| ChangelogDiff.CollectPromotableAddedItemLines | scripts/fix-changelogs.ts:593-705 | reading, pairing and promoting together give the promoted line numbers of every file |

## Left out

- Non-strict inlining, which duplicates reads by design; loops, `return`, `break` and `try` in a
  helper's tail; closures over the caller's variables that outside code could change; type positions.
- `inlineFile`: several call sites in one file, and the order in which they are rewritten.
- InlineTheorem.InlineIsExact: takes the naming and ordering conditions above, which the tool does not
  check; they are sufficient, and each has a counterexample, but that each is needed for every helper
  is not claimed.
- The text of tokens: characters, comments, indentation and object shorthand.
- Columns that are copied as they stand (model, provider, raw tool name, folder, labels), SQLite
  transactions, row ids and the token-counting batch; torn last lines of session files; two
  syncs of one file at the same time.
- `parse_hashline_input` and the other text formats of edit calls: a session line's parser is a parameter.
- The pairing loop of `iter_tool_invocations`.
- SessionDowngrade.DowngradeExactIff: takes both versions to count tokens alike, the tokenizer not being
  part of the line parser.
- SummaryCollect.TidyIffClean: the kind tables of the languages; a node says itself whether it is a
  comment, foldable or groupable. Trees whose siblings overlap by more than a line are not considered.
- Edits.ApplyEdits: which texts are valid UTF-8 is a parameter; the growth of a result past the largest
  `usize` is not modelled.
- Blocks.BlockRangeAt: parsing is a parameter, the node around a character with its ancestors; a language
  that cannot be loaded is not modelled.
- ReplayConfig.ChunkRange: asks for a line cap of at least 1; with less the source's loop does not end
  (`ChunkLoopEndsIff`).
- ReplayReads.Replay: asks for a page of at least one line.
- Reservoir.EverySubsetEquallyLikely: counts sequences of indices; that the generator draws them uniformly
  is its own promise.
- Floating point: costs are real numbers.
- Regular expressions: patterns, prose tests and headings are already recognised or are parameters;
  `blockSkipMask` and the parsing of a model's reply are not part of this model.
- PromptRewrite.RewriteAll: counts fallbacks; changed lines and progress callbacks are not counted.
- The audit's usage, turns, spawns and per-path residency, which is the same sum over a subset of results.
- The fixer's counters, historical keys and `rebuildReleasedSectionsFromHistory`; version titles are
  lists of numbers.
- ChangelogPromote.Promote: sections are values; the source's loop comes back to the section it is at when
  it puts a new one in front, and finds nothing more to promote there.
- Git, network, files, command lines, plots and reports.
