# Verified models of oto's algorithms and protocols

oto is an alert-handling service written in Go, with a few standalone tools beside it. This project
models the parts of it that are hard to get right by reading, and proves what they are for:

- **`lintreach`**: the fixpoint that finds every struct type a decoder may populate (`DecodeReach`),
  the indent stack that reads property names out of an OpenAPI document (`OpenApi`), the struct-tag
  reader (`StructTag`).
- **`lintvocab`**: the lexer that blanks comments (`Strip`) and the scan that walks raw and stripped
  text by one line index (`ScanFile`, `Text`).
- **`groupreplay`**: the rendering of label maps and the keys built from it (`Labels`), the analysis
  that compares two groupings of a corpus (`GroupReplay`, `Counting`) and what its report means
  (`GroupReplayLaws`).
- **Tenant fan-out**: the keyset pages (`TenantPages`) and a whole tick of jobs as a transition
  system (`JobTree`).
- **Retention**: the fold over tenants' windows and the partition-drop rule (`Retention`), the
  dedupe-key horizon (`DedupeKeys`).
- **The two-person rule change**: transactions interleaving statement by statement (`RuleChange`,
  `RuleChangeProofs`), the atomic operations that every such run refines (`RuleChangeAtomic`), what is
  not refused (`RuleChangeProgress`), what an aborted one leaves behind (`RuleChangeAborts`), the
  row-by-row replacement inside one of them (`RuleRows`).
- **Slack redelivery**: claims, grants and announcements over every run (`SlackSnooze`).
- **`ensotrace`**: the box blur (`BoxBlur`), the packed bitmap (`Pbm`), the SVG path reader
  (`PathReader`).

`dafny verify dfyconfig.toml` checks everything.

## How it is modelled

Code that updates things in place is a class or a method with loops, proved against a specification
that does not mention the loop: a path in a graph, a list of tokens, a relation, a two-dimensional
mean, an encoder. A specification shares no test, bound or escape with the code it judges: the token
grammar has its own delimiters, the path encoder its own sizes and bases, the blur its own notion of near.
Protocols are transition systems; their theorems quantify over every run and every
position in it. Go map iteration is a free choice of the next key, and insertion during `range` is
modelled as Go defines it. Clocks, the database, the queue and library calls arrive as parameters, as
free choices or as functions with a stated contract: `strconv.Unquote`, the vocabulary rules and the
two key hashes are function parameters, the alert key being taken as injective.

The comment in migration 00111 says deleting a user nulls both ids on a decided change; the trigger in
the same file refuses every update of a decided row. The model follows the trigger, so deleting a user
named on a decided change is not a step.

## What the proofs found

- `Confirm` accepts a requester with the nil user id, and for such a requester both `ConfirmableBy` and
  the schema's two-person check pass on their own change (`RuleChangeProofs.SelfConfirmationIff`,
  `RuleChangeProofs.NilUserConfirmsOwnChange`). With a user id it cannot happen, and the only route to
  `Confirm` passes a session's principal (internal/investigator/api/remedy_risk.go:201-216).
- `RawPayloads` is counted in whole days, so a configured 36 hours keeps one day. The floor is kept to
  the nanosecond if and only if it is a whole number of days, or the settings were read and some
  tenant's effective window is more days, or the read failed and the settings ceiling is more days
  (`Retention.FloorIsWholeDays`, `Retention.FloorByTenants`, `Retention.FloorFailsOnPartDays`).
- A fan-out walk is bounded by the orgs that ever existed and by nothing less: creations ahead of the
  cursor keep it going (`JobTree.WalkIsBounded`, `JobTree.CreationsKeepItGoing`).
- `retention.prune` and `partitions.manage` are independent jobs, and each reads the retention for
  itself. If the prune runs first in the hour a partition expires, a stored payload is without its key
  (`DedupeKeys.PruneBeforeManageLosesAKey`); if the next manage then reads a wider window, as it does
  whenever its read fails, the payload stays so although it is not droppable under that window
  (`DedupeKeys.WiderReadingKeepsAKeylessPayload`). What holds is that it was droppable under the window
  the prune itself read (`DedupeKeys.StoredPayloadsKeepTheirKeys`); a prune is safe if and only if no
  stored payload's key is sweepable under its own horizon (`DedupeKeys.PruneKeepsKeysIff`).
- A Slack press redelivered after its claim was pruned is applied again, though still announced once
  (`SlackSnooze.PrunedClaimIsAppliedTwice`).
- `parse_path` runs for ever exactly when a number follows a `z` it has read, and drops a final `z`
  (`PathReader.RunsForeverIff`, `PathReader.FinalCloseIsDropped`).
## Model

| member | source | states |
|---|---|---|
| `DecodeReach.SlotKeyInjective` | tools/lintreach/main.go:1027-1053 | Two parameters never share the map key `fn#i`, although function keys may contain `#`. |
| `DecodeReach.NamesItsNode` | tools/lintreach/main.go:1019-1040 | What a reference names, on its fields: a type key first, else a type parameter or a parameter. |
| `DecodeReach.WithHas` | tools/lintreach/main.go:1019-1040 | Marking a node marks that node and no other, across all three maps. |
| `DecodeReach.ReachabilityIsLeast` | tools/lintreach/main.go:1016-1069 | Every set of marks closed under the joint graph contains everything a path reaches. |
| `DecodeReach.EdgeOrderIsIrrelevant` | tools/lintreach/main.go:1016-1069 | Reachability depends on which edges were recorded, not on their order or multiplicity. |
| `DecodeReach.FieldStageKeepsEdges` | tools/lintreach/main.go:1057-1067 | Closing under fields afterwards cannot reopen the edge stage, so two stages give the joint fixpoint. |
| `DecodeReach.Analyzer.Apply` | tools/lintreach/main.go:1019-1040 | Marks what the reference names, and says exactly whether that was new. |
| `DecodeReach.Analyzer.PassEdges` | tools/lintreach/main.go:1046-1055 | One pass stays sound, grows, and reports no change only when closed. |
| `DecodeReach.Analyzer.PassFields` | tools/lintreach/main.go:1059-1066 | One `range` over a map being inserted into, in any order Go allows: sound, growing, and closed when nothing changed. |
| `DecodeReach.Analyzer.PropagateEdges` | tools/lintreach/main.go:1044-1056 | The first stage terminates with the marks closed under both kinds of edge. |
| `DecodeReach.Analyzer.PropagateFields` | tools/lintreach/main.go:1057-1067 | The second stage terminates with the marks closed under struct fields. |
| `DecodeReach.Analyzer.ResolveDecodeTargets` | tools/lintreach/main.go:1016-1069 | Terminates with `decode` equal to exactly the types some path reaches from a seed or an earlier mark. |
| `OpenApi.IndentIs` | tools/lintreach/main.go:1167-1171 | The indent is the number of leading spaces and no more. |
| `OpenApi.ConsideredIff` | tools/lintreach/main.go:1168-1170 | A line counts if and only if what follows its spaces exists and starts neither a comment nor a list item. |
| `OpenApi.KeyOfIff` | tools/lintreach/main.go:1175-1178 | A line has a key if and only if it is spaces, that key in the allowed letters, a colon and anything. |
| `OpenApi.StackIncreases` | tools/lintreach/main.go:1163-1185 | The indent stack is strictly increasing at every line. |
| `OpenApi.AfterPop` | tools/lintreach/main.go:1172-1174 | After popping, the stack is exactly the `properties:` lines that enclose this one. |
| `OpenApi.TopDecides` | tools/lintreach/main.go:1175-1181 | The test on the top of the stack holds if and only if the innermost open `properties:` is two columns left. |
| `OpenApi.AfterPush` | tools/lintreach/main.go:1182-1185 | What the stack holds after a line is what is still open after it. |
| `OpenApi.Pop` | tools/lintreach/main.go:1172-1174 | Removes exactly the entries at or right of the indent. |
| `OpenApi.OpenAPIProperties` | tools/lintreach/main.go:1163-1185 | A name is collected if and only if some line declares it in the sense of the specification. |
| `StructTag.ReadItemSound` | tools/lintreach/main.go:1453-1479 | What one iteration reads, rendered again, is the text it read. |
| `StructTag.ReadItemComplete` | tools/lintreach/main.go:1453-1479 | An item at the front is read as that item and no other. |
| `StructTag.ParseRenders` | tools/lintreach/main.go:1451-1489 | Every byte string is a rendering of well-formed items followed by text that starts with none. |
| `StructTag.ParseIsUnique` | tools/lintreach/main.go:1451-1489 | And in one way only: parsing a rendering gives back its items. |
| `StructTag.StructTagLaw` | tools/lintreach/main.go:1451-1489 | On any rendered list: the unquoted text of the item with the asked name that no other precedes, and the empty string if there is none or it does not unquote. |
| `StructTag.Iteration` | tools/lintreach/main.go:1453-1479 | The three inner loops stay in range and read one item or stop where none can be read. |
| `StructTag.StructTag` | tools/lintreach/main.go:1451-1489 | Terminates on every string and returns the unquoted value of the first matching item, or the empty string. |
| `Text.LineAtOffset` | tools/lintvocab/main.go:397-400 | Line i of a split text is the text from its running offset to the next newline. |
| `Strip.Strip` | tools/lintvocab/main.go:515-598 | The loop over `state`, `quote`, `i` computes the lexer's run. |
| `Strip.RunAligned` | tools/lintvocab/main.go:511-598 | From any state the output keeps length and newlines and changes bytes only to spaces. |
| `Strip.RunAgain` | tools/lintvocab/main.go:515-598 | A simulation between two runs, state by state: what the first wrote the second copies. |
| `Strip.StripIsIdempotent` | tools/lintvocab/main.go:515-598 | Stripping twice is stripping once. |
| `Strip.RunTok` | tools/lintvocab/main.go:538-595 | One token of code, string or comment is erased as such, in each language, and leaves the lexer in code. |
| `Strip.StripErases` | tools/lintvocab/main.go:515-598 | Stripping the text of any well-formed tokens, by a grammar of its own, blanks exactly the comments. |
| `Strip.LiteralIsKept` | tools/lintvocab/main.go:553-555 | Both quotes everywhere, and the backtick outside SQL and JSON, keep what they enclose, comment openers included. |
| `Strip.BacktickIsCode` | tools/lintvocab/main.go:553-558 | In SQL and JSON a backtick opens nothing. |
| `Strip.EveryTextHasTokens` | tools/lintvocab/main.go:515-598 | Every file is the text of well-formed tokens, so the previous law speaks about every file. |
| `ScanFile.ContainsIff` | tools/lintvocab/main.go:475-475 | A line contains a word if and only if the word occurs in it somewhere. |
| `ScanFile.LinesCorrespond` | tools/lintvocab/main.go:392-409 | Raw and stripped lines correspond one to one and begin at the same byte. |
| `ScanFile.GooseDownLines` | tools/lintvocab/main.go:493-509 | A line is marked if and only if a Down mark is at or above it with no Up mark since. |
| `ScanFile.MarkerLine` | tools/lintvocab/main.go:473-480 | The nearest marker within the look-back, or -1 exactly when there is none. |
| `ScanFile.Allowed` | tools/lintvocab/main.go:469-471 | True if and only if a marker is within the look-back. |
| `ScanFile.Reason` | tools/lintvocab/main.go:482-490 | The reason after the nearest marker, or the placeholder when there is none. |
| `ScanFile.CutAfterIs` | tools/lintvocab/main.go:483-484 | The line is cut at the first occurrence of the marker. |
| `ScanFile.ReasonIs` | tools/lintvocab/main.go:482-490 | The reason is the trimmed text after the first marker of the line, or the placeholder. |
| `ScanFile.ShownIs` | tools/lintvocab/main.go:408-411 | The trimmed line, or its first 160 bytes and an ellipsis. |
| `ScanFile.Report` | tools/lintvocab/main.go:408-424 | One finding per rule; a Down section explains it before a marker, a marker before the rule itself. |
| `ScanFile.ScanLine` | tools/lintvocab/main.go:399-424 | `rawLines[i]` is in range, the rules are given the true offset of the line, and its findings carry the raw line as shown and the right reason. |
| `ScanFile.ScanFile` | tools/lintvocab/main.go:385-427 | Every rule that fires on a line is reported once, as bad or as suppressed according to that line, with its path, number, reason and text. |
| `Labels.QuoteInjective` | tools/groupreplay/replay.go:310-317 | A quoted string can be cut off the front of a text in one way only. |
| `Labels.QuoteReadsBack` | tools/groupreplay/replay.go:310-317 | Round trip: a quoted string, read by Go's rules for literals, is the string. |
| `Labels.RenderLabelsInjective` | tools/groupreplay/replay.go:310-317 | Two label maps with one rendering are equal. |
| `Labels.RenderLabelsHasNoNul` | tools/groupreplay/replay.go:213-214 | A rendering never contains NUL. |
| `Labels.UpstreamKeyInjective` | tools/groupreplay/replay.go:213-214 | The key separates source, receiver and labels even when a receiver contains NUL. |
| `Labels.RenderLabelsLoop` | tools/groupreplay/replay.go:310-317 | The loop that appends and joins computes the rendering. |
| `GroupReplay.Tables.Open` | tools/groupreplay/replay.go:215-222 | Opening an upstream group adds it and no row. |
| `GroupReplay.Tables.Add` | tools/groupreplay/replay.go:233-248 | Adding an alert adds exactly its row to the relation held in five maps and a set. |
| `GroupReplay.ReadBatch` | tools/groupreplay/replay.go:213-254 | One batch adds its upstream group and the rows of its readable alerts. |
| `GroupReplay.Sizes` | tools/groupreplay/replay.go:261-271 | The sizes as a descending list with the right multiplicities, in any map order. |
| `GroupReplay.CountSplits` | tools/groupreplay/replay.go:273-284 | Counts the split groups, the sum of (size - 1) over them and the worst, in any map order. |
| `GroupReplay.CountMerges` | tools/groupreplay/replay.go:286-303 | Counts the merged groups by whether their labels agree, and the worst, in any map order. |
| `GroupReplay.SuspectNeedsNoFrom` | tools/groupreplay/replay.go:286-296 | Two renderings in a derived group imply two upstream groups, so the first test adds nothing. |
| `GroupReplay.Analyse` | tools/groupreplay/replay.go:181-305 | Every counter and list of the report as a function of the corpus's relation. |
| `GroupReplayLaws.ExtraThreadsCountPairs` | tools/groupreplay/replay.go:273-284 | For every corpus, extra threads plus non-empty upstream groups equal the distinct (upstream, derived) pairs. |
| `GroupReplayLaws.DoubleCounting` | tools/groupreplay/replay.go:246-247 | The distinct (upstream, derived) pairs are also the sum of all `mergedFrom` sizes. |
| `GroupReplayLaws.DerivedGroupsPartition` | tools/groupreplay/replay.go:257-271 | The derived sizes add up to the distinct alerts. |
| `GroupReplayLaws.GroupCountsDetermined` | tools/groupreplay/replay.go:257-303 | Everything but the four row counters is determined by the relation. |
| `GroupReplayLaws.OrderAndRepetitionDoNotMatter` | tools/groupreplay/replay.go:103-106 | Permuting or re-sending batches changes no group count, size list or maximum. |
| `GroupReplayLaws.RowCountersAdd` | tools/groupreplay/replay.go:202-231 | The row counters of a concatenation are the sums. |
| `GroupReplayLaws.UpstreamGroupsAreTriples` | tools/groupreplay/replay.go:213-214 | Two batches share an upstream group if and only if source, receiver and groupLabels are equal. |
| `GroupReplayLaws.SuspectMeansDifferentLabels` | tools/groupreplay/replay.go:286-296 | A derived group is suspect if and only if two batches with different groupLabels feed it. |
| `GroupReplayLaws.IntendedMeansSameLabels` | tools/groupreplay/replay.go:286-295 | A derived group is intended if and only if several upstream groups feed it, all with the same groupLabels. |
| `GroupReplayLaws.AlertIsIdentity` | tools/groupreplay/replay.go:233-234 | Two readings are one alert if and only if org, cluster and labels are equal. |
| `GroupReplayLaws.AlertsAreIdentities` | tools/groupreplay/replay.go:233-257 | The distinct alerts are the distinct identities of accepted batches and readable alerts. |
| `GroupReplayLaws.DerivedSizeIsIdentities` | tools/groupreplay/replay.go:244-244 | The size of a derived group is the number of distinct identities its key groups. |
| `GroupReplayLaws.UpstreamSizeIsIdentities` | tools/groupreplay/replay.go:245-245 | The size of an upstream group is the number of distinct identities sent in it. |
| `TenantPages.ListOrgIDs` | internal/app/adapters.go:1112-1112 | The ordered, limited query returns the page of the specification. |
| `TenantPages.ScopePage` | internal/app/adapters.go:1148-1176 | Refused exactly for a limit above 500; otherwise the smallest live ids above the cursor up to the limit, 500 by default, or the query failed. |
| `TenantPages.FanOutTenants` | internal/platform/jobs/tenant_fanout.go:202-258 | Never refused its page; queues one job per tenant of it and a continuation from the last id exactly after a full page, or fails. |
| `TenantPages.PageExists` | internal/app/adapters.go:1112-1112 | Every live set, cursor and limit has such a page. |
| `TenantPages.PageMembership` | internal/app/adapters.go:1112-1112 | A tenant is on the page if and only if fewer than `limit` live ids lie between the cursor and it. |
| `TenantPages.ClampStarves` | internal/app/adapters.go:1118-1147 | A pager that clamped below the asked limit would queue no continuation and leave tenants out at every tick. |
| `JobTree.NextKeepsInv` | internal/app/workers.go:627-656 | Every step of a tick, with creations and deletions between, keeps the invariant. |
| `JobTree.RunKeepsInv` | internal/app/workers.go:627-656 | So it holds at every point of every run. |
| `JobTree.TickIsOnce` | internal/app/workers.go:627-656 | The global prunes run at most once, exactly once when the walk is over; no tenant is enqueued or swept twice. |
| `JobTree.SweptIffLive` | internal/app/adapters.go:1198-1207 | A step sweeps a tenant if and only if it is a pass of that tenant and the org row is live then. |
| `JobTree.DeletedIsNotSwept` | internal/app/adapters.go:1178-1207 | In every run a tenant soft-deleted before its pass is not swept, then or later. |
| `JobTree.EveryTickCanFinish` | internal/app/workers.go:627-656 | From every point of every run the queued jobs alone empty the queue: no pass and no page is refused. |
| `JobTree.DrainedTickSweptEveryone` | internal/app/workers.go:271-290 | When the queue is empty, every tenant live throughout was swept exactly once. |
| `JobTree.WalkIsBounded` | internal/platform/jobs/tenant_fanout.go:202-258 | The fan-outs of a tick are bounded by the orgs that ever existed. |
| `JobTree.CreationsKeepItGoing` | internal/platform/jobs/tenant_fanout.go:202-258 | For every n there is a run still walking after n pages: the bound is not improvable. |
| `Retention.EffectiveSettings` | internal/identity/domain/settings.go:554-572 | The deployment's value, else the org's own, taken to the nearest in bounds; thirty days and thirteen months when nobody wrote. |
| `Retention.WidestIsMaximum` | internal/identity/service/reads.go:139-162 | The reduce is the maximum of a setting over the orgs read. |
| `Retention.MaxRetention` | internal/identity/service/reads.go:139-162 | While orgs come, go and change between its queries: both answers are maxima over orgs really read, every org live throughout is among them, and it errs only if a query fails. |
| `Retention.StableAnswer` | internal/identity/service/reads.go:139-162 | When nothing changes during the walk, the answers are the maxima over the table. |
| `Retention.FoldNeverNarrows` | internal/app/workers.go:489-535 | The raw window is at least the floor and every tenant's; it is their maximum when the read succeeds and the larger of floor and 365 when it fails. |
| `Retention.EventMonthsNeverNarrow` | internal/app/workers.go:489-535 | The event window is at least the floor and every tenant's; it is their maximum when the read succeeds and the larger of floor and 120 when it fails. |
| `Retention.MissingBoundDoesNotNarrow` | internal/app/workers.go:527-535 | A setting without a bound leaves the window where it was. |
| `Retention.DroppedIsOld` | db/migrations/00005_partitions.sql:114-158 | A dropped row is older than the window it was dropped under. |
| `Retention.DroppableIff` | db/migrations/00005_partitions.sql:144-147 | A row can go if and only if every instant of its day is older than the window. |
| `Retention.FloorIsWholeDays` | internal/app/workers.go:451-461 | The deployment's retention is kept to the nanosecond if and only if it is whole days, or the ceiling after a failed read, or the answer of a read that succeeded, is more days than it. |
| `Retention.FloorByTenants` | internal/app/workers.go:451-461 | After a read that succeeds: if and only if it is whole days or some tenant's effective window is more days. |
| `Retention.FloorFailsOnPartDays` | internal/app/workers.go:451-461 | Thirty-six hours configured, a payload younger than that dropped. |
| `Retention.NoRowDroppedInsideItsWindow` | internal/app/workers.go:400-412 | Over every run of ticks, changes of orgs and settings, and failing reads, no row was dropped inside the deployment's whole days or its org's window. |
| `Retention.TickDropsExactly` | internal/app/workers.go:400-412 | A tick leaves a row if and only if some instant of its day is inside the window it computed. |
| `DedupeKeys.KeyOutlivesPayload` | internal/app/workers.go:579-597 | A payload whose partition is not droppable has an unswept key. |
| `DedupeKeys.GrainIsExact` | internal/app/workers.go:571-597 | A horizon outlives every payload if and only if it reaches one day past the raw window, to the nanosecond. |
| `DedupeKeys.HorizonIsLeast` | internal/app/workers.go:591-597 | The horizon outlives every payload, is at least thirty days, is thirty days when those suffice, and otherwise nothing shorter does. |
| `DedupeKeys.ManageKeepsIff` | internal/app/workers.go:400-412 | The dropper leaves a payload if and only if some instant of its day is inside the window it read. |
| `DedupeKeys.WithoutGrainAKeyDiesEarly` | internal/app/workers.go:579-590 | With the bare window there is an instant where the key is gone and the payload is not. |
| `DedupeKeys.StoredPayloadsKeepTheirKeys` | internal/app/workers.go:566-597 | In every history, each job reading its own window, a processed payload stored without its key was droppable at an earlier prune under that prune's window. |
| `DedupeKeys.KeyedAtTheNarrowestWindow` | internal/app/workers.go:566-597 | Against the narrowest window any prune has read, every processed payload not yet droppable has its key. |
| `DedupeKeys.PruneKeepsKeysIff` | internal/app/workers.go:566-597 | Every prune under a reading keeps all keys of stored payloads if and only if none of them is sweepable under that reading's horizon. |
| `DedupeKeys.PruneAfterManageIsSafe` | internal/app/workers.go:566-597 | A prune under the narrowest window so far, with nothing stored droppable under it, leaves every stored payload its key. |
| `DedupeKeys.PruneBeforeManageLosesAKey` | internal/app/workers.go:566-597 | A history where a prune before the manage leaves a stored payload without its key. |
| `DedupeKeys.WiderReadingKeepsAKeylessPayload` | internal/app/workers.go:400-412 | A history where a failed read then keeps that payload, not droppable under the window in use. |
| `RuleChangeProofs.NextKeepsInv` | internal/app/remedyrulechanges.go:68-138 | Every statement of every transaction, interleaved, keeps the invariant. |
| `RuleChangeProofs.RunKeepsInv` | internal/app/remedyrules.go:157-209 | So it holds at every point of every run. |
| `RuleChangeProofs.RulesInForceAreAccountedFor` | internal/app/remedyrulechanges.go:24-34 | Every rule set ever in force was last written by a host shell, or is the content of an applied change confirmed under another user than its proposer's. |
| `RuleChangeProofs.AppliedAtMostOnce` | internal/app/remedyrulechanges.go:68-138 | No change is confirmed twice in any run. |
| `RuleChangeProofs.DecidedIsFrozen` | db/migrations/00111_a_remedy_rule_change_takes_a_second_person.sql:77-96 | No step rewrites a proposal or touches a decided one. |
| `RuleChangeProofs.SupersededIsNeverApplied` | internal/app/remedyrules.go:333-338 | A superseded or discarded change stays so for the rest of the run. |
| `RuleChangeProofs.ConfirmedAfterShellWasProposedAfterIt` | internal/app/remedyrules.go:333-338 | A change confirmed after a host-shell write was proposed after it. |
| `RuleChangeProofs.FailedStepChangesNothing` | internal/app/remedyrulechanges.go:78-136 | Step by step: only a commit changes rules or history, and an abort changes no table. |
| `RuleChangeAborts.ErasedInFlight` | internal/app/remedyrulechanges.go:78-136 | While a transaction that will abort is in flight, the run without its steps has the same tables and history. |
| `RuleChangeAborts.AbortedNeverBegan` | internal/app/remedyrulechanges.go:78-136 | Taking every step of an aborted transaction out of a run leaves a run that ends in the same state. |
| `RuleChangeProofs.LaterChecksAreRedundant` | internal/app/remedyrulechanges.go:56-60 | Between the check and the mark the row stays pending and the two-person check stays true, whatever interleaves. |
| `RuleChangeProofs.SelfConfirmationNeedsNoUser` | internal/investigator/domain/remedy_risk_change.go:66-85 | Whoever confirmed their own change, in any run, acted without a user id. |
| `RuleChangeProofs.SelfConfirmationIff` | internal/investigator/domain/remedy_risk_change.go:66-85 | In every reachable state the proposer passes both checks if and only if they have no user id. |
| `RuleChangeProofs.NilUserConfirmsOwnChange` | internal/investigator/domain/remedy_risk_change.go:66-85 | A run in which they do. |
| `RuleChangeProofs.SchemaRefusesIff` | db/migrations/00111_a_remedy_rule_change_takes_a_second_person.sql:63-65 | The schema alone refuses an applied row if and only if its confirmer's user is its recorded proposer. |
| `RuleChangeAtomic.RunsAreAtomic` | internal/app/remedyrulechanges.go:68-138 | Refinement: in every interleaving each commit changes the tables exactly as its operation run alone, stated field by field, and no other step but deleting a user changes them. |
| `RuleChangeAtomic.RunKeepsNames` | db/migrations/00111_a_remedy_rule_change_takes_a_second_person.sql:44-49 | In every run no change names a user that is gone, and none that waits was decided. |
| `RuleChangeProgress.CheckPassesIff` | internal/investigator/domain/remedy_risk_change.go:75-85 | In every reachable state a confirmation passes the check if and only if its change is pending and not recorded as the confirmer's own user's. |
| `RuleChangeProgress.MarkPassesIff` | internal/app/remedyrulechanges.go:56-60 | Once written, it is marked if and only if the confirmer's user, if any, still exists. |
| `RuleChangeProgress.OperationCompletes` | internal/app/remedyrulechanges.go:68-138 | From every reachable state, any of the four operations whose conditions hold and whose locks are free runs to its commit with its atomic effect. |
| `RuleRows.Tables.WriteRemedyRules` | internal/app/remedyrules.go:217-238 | Replaces the whole set, each rule at its place, and fails exactly on a repeated name. |
| `RuleRows.WrittenRulesReadBack` | internal/app/remedyrules.go:212-238 | Reading in position order gives back the list that was written. |
| `SlackSnooze.AppliedOncePerWindow` | internal/app/adapters.go:1766-1780 | Two grants of one named press under one user are more than the claim's window apart. |
| `SlackSnooze.AnnouncedExactlyOnce` | internal/app/adapters.go:1789-1798 | A granted and evaluated press is on exactly one card from then on, whoever its deliveries resolved to. |
| `SlackSnooze.GrantQueuesItsName` | internal/alerts/service/actions.go:508-515 | All grants of a press queue one announcement, and two presses queue two. |
| `SlackSnooze.CardsStay` | internal/notification/service/notify.go:446-491 | A card once minted stays. |
| `SlackSnooze.RedeliveryIsRefused` | internal/platform/idempotency/intent.go:180-213 | A redelivery whose claim stands changes no table. |
| `SlackSnooze.ClaimIsOfItsGrant` | internal/platform/idempotency/repository.go:78-131 | Inside its window the claim of a granted press is there and is the one it took: same user, key, alert and instant. |
| `SlackSnooze.OtherAlertConflicts` | internal/app/adapters.go:1758-1764 | In every run, a redelivery of a granted press inside its window changes no table, and conflicts if and only if it is for another alert. |
| `SlackSnooze.AppliedIff` | internal/app/adapters.go:1836-1880 | A delivery is applied if and only if it is valid and takes no claim or finds none. |
| `SlackSnooze.AppliedLeaves` | internal/alerts/service/actions.go:440-515 | An applied delivery leaves one more grant, its alert snoozed by it, and one announcement named after the press or the grant. |
| `SlackSnooze.ActiveIff` | internal/alerts/service/actions.go:425-440 | In every run a granted snooze is the active one if and only if its alert was neither woken nor snoozed again. |
| `SlackSnooze.ReplayedIff` | internal/alerts/service/actions.go:522-536 | In every run a redelivery for the same alert is answered with its snooze exactly while that is the active one, and otherwise that it has ended. |
| `SlackSnooze.UnlinkedIsAppliedTwice` | internal/app/adapters.go:1782-1787 | A run where a failed identity lookup applies a press twice and announces it once. |
| `SlackSnooze.TwoUsersApplyTwice` | internal/app/adapters.go:1766-1769 | A run where two resolutions apply a press twice and announce it once. |
| `SlackSnooze.AnonymousIsAnnouncedTwice` | internal/alerts/service/actions.go:499-511 | A run where a press without a name is announced twice. |
| `SlackSnooze.PrunedClaimIsAppliedTwice` | internal/platform/idempotency/repository.go:133-148 | A run where a redelivery after the prune is applied again and announced once. |
| `BoxBlur.PixelIsStored` | tools/ensotrace/ensotrace.py:261-264 | Pixel (x, y) is cell y * width + x. |
| `BoxBlur.WindowIff` | tools/ensotrace/ensotrace.py:266-267 | The clipped window holds exactly the places of the line within the radius. |
| `BoxBlur.NearMeanIsWindow` | tools/ensotrace/ensotrace.py:258-277 | The mean over the clipped window is the mean of all pixels within the radius, counted one by one. |
| `BoxBlur.LineSumSplits` | tools/ensotrace/ensotrace.py:262-267 | A difference of prefix sums is the sum of the window. |
| `BoxBlur.SeparableMean` | tools/ensotrace/ensotrace.py:258-278 | The column mean of row means is the exact mean over the clipped square. |
| `BoxBlur.BlurLine` | tools/ensotrace/ensotrace.py:262-268 | One row or column: every cell gets its window's mean, and no other cell changes. |
| `BoxBlur.BlurRows` | tools/ensotrace/ensotrace.py:259-268 | The horizontal half gives every pixel its row mean. |
| `BoxBlur.BlurColumns` | tools/ensotrace/ensotrace.py:269-277 | The vertical half gives every pixel its column mean. |
| `BoxBlur.Pass` | tools/ensotrace/ensotrace.py:258-277 | One pass gives every pixel the exact mean of the pixels within the radius in both directions. |
| `BoxBlur.BoxBlur` | tools/ensotrace/ensotrace.py:254-278 | The result is that many exact passes over the input. |
| `BoxBlur.PassesStayInRange` | tools/ensotrace/ensotrace.py:254-278 | Any number of passes stays within any bounds the input is within. |
| `Pbm.SetBit` | tools/ensotrace/ensotrace.py:291-292 | Setting a clear bit sets that bit of the file, no other, and adds one to the set bits. |
| `Pbm.Stride` | tools/ensotrace/ensotrace.py:284-284 | The least number of bytes that holds a row. |
| `Pbm.PackRow` | tools/ensotrace/ensotrace.py:288-293 | A row's bits are its thresholded pixels, its padding is clear, and no byte outside it changes. |
| `Pbm.WritePbm` | tools/ensotrace/ensotrace.py:281-297 | The file decodes to the thresholded image, padding clear, and `on` is its number of set bits. |
| `Pbm.LowerCutAddsInk` | tools/ensotrace/ensotrace.py:444-447 | The bitmap of a lower threshold contains that of a higher one. |
| `PathReader.ParsePath` | tools/ensotrace/ensotrace.py:322-361 | Returns, fails or has no result exactly as the loop ends, raises or runs for ever. |
| `PathReader.StuckRunsForever` | tools/ensotrace/ensotrace.py:336-345 | From a number after a close every further iteration appends one close and takes no token. |
| `PathReader.ReadsItem` | tools/ensotrace/ensotrace.py:337-360 | One iteration takes one item as the encoder writes it: relative to the pen before it in lower case, absolute in upper case, three points for a curve. |
| `PathReader.ReadsBack` | tools/ensotrace/ensotrace.py:322-361 | Round trip with an encoder of its own: reading an encoding returns the absolute path that was encoded. |
| `PathReader.FinalCloseIsDropped` | tools/ensotrace/ensotrace.py:337-341 | A path that ends in a close is returned without it. |
| `PathReader.StepTakesItem` | tools/ensotrace/ensotrace.py:337-360 | The converse: an iteration that goes on took an encoded item or is stuck after a close. |
| `PathReader.ReturnsIff` | tools/ensotrace/ensotrace.py:322-361 | The reader returns a path if and only if the tokens encode it. |
| `PathReader.RunsForeverIff` | tools/ensotrace/ensotrace.py:336-345 | It never ends if and only if, after encoded items, a number follows a close. |
| `PathReader.EndsOnPotrace` | tools/ensotrace/ensotrace.py:322-330 | With a letter or nothing after each close it always ends. |
| `PathReader.OneReading` | tools/ensotrace/ensotrace.py:322-361 | Two encodings with the same tokens draw the same path. |

## Left out

- GroupReplay.Analyse: does not model the sample strings, axes and group key shown with the two worst
  cases; they are display text, and which worst case is shown depends on map order.
- TenantPages.FanOutTenants: does not model the log lines and the counts returned for them.
- `lintreach`: loading and type-checking packages, the visitor, `writeThrough`, `record` and the
  `nowrite`/`noread` classification; the reference graph they build is an input here.
- `openAPIProperties`: the second result, query parameters found by a regular expression.
- `lintvocab`: the rules themselves and the statement window of `onSignalRow`; they are a function
  parameter of the scan, as are the two trimming functions.
- `groupreplay`: printing, and reading the corpus. Strings are Unicode scalars, as the JSON decoder
  delivers them; a negative truncation count is not modelled.
- Hash collisions: the alert key is injective by assumption, and an idempotency key's id is the key.
- Fan-out: retries, timeouts and dead letters of the queue; failures are not steps of the tick.
- Retention: a tick reads the settings at one instant, so a setting written between the read and the
  drop counts from the next tick. The calendar months of the event tables are folded and not dropped. A
  row whose org is no longer live has the deployment's window only. Days are 24 hours of UTC.
- Rule changes: one org; parsing, re-validation and label lengths are failures like any other, and
  abort. READ COMMITTED is modelled at the grain of one statement.
- Slack: each delivery is one atomic transaction, since the claim's primary key makes a racing one
  wait; one operation and one org. That a queued evaluation eventually runs is not claimed.
- `ensotrace`: floats are reals, so rounding is not modelled; the header of the PBM file, the
  tokenizing regular expression, potrace itself, the frame computed in `main` and the text `emit`
  writes are not modelled.
- The HTTP interface, the web interface, wiring, configuration and the services behind the adapters.
