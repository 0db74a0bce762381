# Andara, verified

Dafny models of the parts of Andara that are hardest to get right, each with the law it exists for
proved over every input, every run or every reachable state. `dafny verify dfyconfig.toml` checks all
of it.

| component | files |
|---|---|
| A body crossing between Zones: Transit records, handoff sequences, the target's mark, acks, retries | `Sim`, `HandoffProtocol`, `Handoff`, `Crossing`, `Moves`, `Lifecycle`, `RetrySchedule` |
| The environment stamp: one table compiled to relabel rules, log stages and trace statements, printed as Alloy, read back and judged | `Relabel`, `StampCompiler`, `MetricValidator`, `ValidatorGaps`, `AlloyText`, `AlloyLexing`, `AlloyRoundTrip`, `CollectorText` |
| A collectors profile merged onto its base | `ProfileMerge` |
| dev.yaml edited as lines | `LineEditor`, `LineEditorProof`, `LineParser` |
| Promotion of dev: concurrent promoters, write-once tags, rollback | `DevTags`, `Promotion`, `PromotionProof` |
| Schema registration, asked first and undone on refusal | `Schemas`, `SchemaApply` |
| KafkaUsers: rendered, checked, and what they reach | `KafkaUsers`, `KafkaIsolation`, `KafkaRights` |
| The pipeline scanner: code without comments or strings, and its top-level blocks | `CodeOnly`, `TopLevel`, `HeaderGrammar` |
| The Builder guide's Markdown split | `Markdown`, `MarkdownShapes`, `MarkdownClasses` |
| Rebuilding the cluster with its certificate Secrets | `ClusterRebuild` |
| Stopping and starting the server over Argo CD's sync policy | `SyncPolicy` |
| The record of a polled alert | `PollRecord` |

Every file or network call is a parameter, or a step that may fail or be the last; every concurrent
actor is a transition of a state machine. A handler that changes one Zone is a function from that Zone
to an effect, and a run applies effects in any order the log allows: messages are never removed, so a
run may apply one late, again, out of order or never.

## What the code does not do

Where the code falls short of what it, its tests or its documentation promise, the model keeps the
code, a lemma gives an input or all of them, and one says exactly when the promise holds.

- `server/README.md` says a handoff's retry interval doubles up to the maximum. The exponent stops at
  16: the maximum is waited at some attempt exactly when some shift up to 16 that does not slip (below)
  takes the first interval that far (`RetrySchedule.LongestReachedIff`). For a first interval below 2^48
  that is a maximum of at most 65536 first intervals (`RetrySchedule.SmallReachesIff`);
  `RetrySchedule.LongestNeedNotBeReached` is one that is not.
- The shift is on 64 bits. A shift that loses bits may leave what passes for an interval: at least the
  first and below the longest. The interval is the capped doubling at every attempt, and no attempt waits
  less than the one before it, exactly when no shift of up to 16 does that
  (`RetrySchedule.BackoffDoublesIff`, `RetrySchedule.BackoffNeverShrinksIff`; `RetrySchedule.LargeSlips`).
- `metric_table`'s answer says less of a list than its docstring does. It has no branch for a rule it does
  not know, and of two of one kind it remembers the last: for every table and keep-list, a list with a
  rule no branch reads, or a second guard, mark, clear, drop or keep, reads back as the sources and may do
  otherwise (`ValidatorGaps.UnreadSlips`, `SecondGuardSlips`, `SecondMarkSlips`, `SecondClearSlips`,
  `SecondDropSlips`, `SecondKeepSlips`). Of the lists with every rule read and one guard, mark, clear,
  drop and keep, those that read back do what the sources ask exactly when the clear regex has no final
  newline, which `$` does not see, or no `kube_` name is kept (`MetricValidator.ValidatorSoundIff`). With
  the newline there are such lists for every table and keep-list (`StampCompiler.NewlineReadsAs`), and a
  `kube_` name kept they drop mapped series (`StampCompiler.NewlineMisses`).
- `profile_problems` looks at the dotted paths of leaves. An empty mapping has no leaf
  (`ProfileMerge.EmptyMappingSlipsThrough`), and a dotted key reads as a path it is not
  (`ProfileMerge.DottedKeySlipsThrough`). A profile with no problems changes nothing outside the profile
  keys, whatever the base, exactly when no key on the way to them is dotted or empty and it holds no empty
  mapping outside them (`ProfileMerge.ProfileFrameIff`).
- `set_value` on a path that holds a mapping, or through a key that holds a scalar, writes text that is no
  document; under an empty key it writes the right text (`LineParser.EditRefinesPut`, for every path). It
  returns, and does not raise, exactly when the keys on the way are absent or mappings and the last is no
  mapping (`LineParser.SetValueReturnsIff`): under an empty key it raises over the tree it compares with,
  not the text (`LineParser.KeyOnTheWayRaises`).
- `undo_tags` says it puts the clone's tags back as they were before the run. A `dev-<n>` the clone had of
  its own is lost, and the tag a rollback fetched stays: the clone is as it was exactly when it held no
  `dev-<n>` and the fetch brought nothing new (`PromotionProof.FailedTagsPutBack`,
  `PromotionProof.RefusedPutsBack`).
- `andara-it` "never reaches an environment's topics or groups": of topics, true exactly when no
  environment's prefix starts with `it`, is `andara`, or is `andara.test` or under it
  (`KafkaIsolation.SuiteMeetsEnvironmentIff`); of groups, exactly when no rendered group's name starts with
  `it-`, as that of a group `it` does (`KafkaIsolation.SuiteMeetsGroupIff`).
- An environment's topics are its own when prefixes are distinct and have no dot
  (`KafkaIsolation.TopicIsolation`), which the check does not ask. Users it accepts can share a topic across
  two environments exactly when one prefix and its dot start with the other's, and neither holds a star
  (`KafkaIsolation.TopicsShareIff`).
- A group ACL is prefixed, and the check looks at how the group's name ends. No group is reachable from
  two environments exactly when, of any two environments and any two declared groups, neither rendered
  name is a prefix of the other (`KafkaIsolation.GroupsIsolatedIff`). A declaration the check accepts, with
  environments of unrelated names, fails it (`KafkaIsolation.AcceptedGroupsCanMeet`).
- `code_only` shows the last character of a string that is never closed
  (`CodeOnly.OpenStringShows`, `CodeOnly.ScanIsLexIff`).
- A poll is stamped when its read is over. A quiet record rules out firing throughout a stretch exactly
  when the stretch is longer than the interval and as long as the interval and a read, a read counting for
  no more than the interval (`PollRecord.RulesOutIff`): every stretch longer than the interval exactly when
  reads take no time (`PollRecord.ReadTimeCounts`).
- A stop and a start of the server that overlap can lose the sync policy, from the ordinary state too
  (`SyncPolicy.RecordFirstLoses`). In every interleaving of one of each it is lost exactly when the stop's
  Remove comes after the start's Add and the start's Forget after the stop's Record, or after the stop's
  read when it made none (`SyncPolicy.OverlapLosesIff`).

## Model

| member | source | states |
|---|---|---|
| HandoffProtocol.StepKeepsInv | server/sim/verbs.go:329-535 | every protocol step of one Entity keeps its itinerary: each message, record and mark is of a leg of the journey, all legs but the last are decided, and the body is at the journey's end or in the record it left by |
| HandoffProtocol.AboveTheMarkIsLast | server/sim/verbs.go:403-457 | an Arrive above its target's mark is the last leg, undecided, with no body anywhere and only older records at the target |
| HandoffProtocol.UndecidedHasItsRecord | server/sim/verbs.go:329-362 | the Zone it left still holds the record of it |
| HandoffProtocol.AtMostOneCopy | server/README.md:347-371 | an Entity has at most one live copy |
| HandoffProtocol.CopiesConserved | server/README.md:347-371 | only a spawn adds a live copy and only a purge removes one |
| HandoffProtocol.PlacedOnlyOnce | server/sim/verbs.go:465-517 | a sequence is placed only while no Zone has decided it or a later one |
| HandoffProtocol.DroppedOnlyWhenDecided | server/sim/verbs.go:525-535 | a Transit record goes only once its target has decided its sequence |
| Handoff.Refines | server/sim/verbs.go:171-535 | every event of the World (move, goto, arrive, ack, bind, unbind, linkdead, purge, expiry, content swap, retry) is a protocol step of every Entity |
| Handoff.RunInv | server/README.md:347-371 | the itinerary invariant holds in every state of every run |
| Handoff.ExactlyOneCopy | server/README.md:347-371 | in every run each Entity has exactly spawns less purges live copies, one or none |
| Handoff.NeverPlacedTwice | server/sim/verbs.go:465-517 | no run places one handoff of an Entity twice, in any two Zones or the same one |
| Handoff.DroppedOnlyWhenDecided | server/sim/verbs.go:465-535 | in every run a record leaves its Zone, or is replaced there, only after its target decided that sequence |
| Handoff.NeverPresent | server/sim/verbs.go:420-457 | an Arrive met in a reachable state is a retry or stale, or finds no body and no record at or above its sequence |
| Handoff.ArriveNeverRefused | server/sim/verbs.go:403-457 | the entity_present refusal is unreachable: every Arrive that names an Entity is acknowledged |
| Crossing.NewArriveIsFresh | server/sim/verbs.go:329-343 | a departure's Arrive has a sequence above every one produced for its Entity before |
| Crossing.RunCarries | server/sim/verbs.go:329-362 | in every run, Transit records and the Arrives of the log agree, body and all |
| Crossing.BodyCrossesIntact | server/sim/verbs.go:349-362 | the body placed is the one in its origin's Transit, every field but the Room, which is the one named or the Zone's fallback |
| Crossing.RunRouted | server/sim/build.go:358-390 | in every state of every run the state has the World's Zones and every record leads to one of them |
| Crossing.HandoffCompletes | server/README.md:347-378 | from any state of any run an Entity with a name that is on the way arrives by one Arrive and is settled by one HandoffAck, both deliverable, with one copy throughout |
| Moves.ReverseUndoes | server/sim/direction.go:46-74 | a Direction's reverse is the step that undoes its own, compass, level and threshold; a Direction that is none of the twelve has none |
| Moves.LookIs | server/sim/verbs.go:112-134 | a Look changes nothing, and is refused exactly where its actor is on the way or not there |
| Moves.MoveIs | server/sim/verbs.go:171-228 | a Move, whole: each refusal exactly on its cause, in order, and nothing changed; else the first Exit in the Direction: its Room within the Zone and nothing else changed, or out of the Zone with a record and an Arrive that name exactly its Zone and Room |
| Moves.GotoIs | server/sim/verbs.go:263-318 | a Goto, whole: the same of the Room it names, the Room it is in already changing nothing |
| Moves.ArriveIs | server/sim/verbs.go:367-517 | an Arrive, whole, from the mark, the body and the record the Zone holds: what is refused, what is acknowledged and unchanged, and the Zone a new one leaves |
| Moves.AckIs | server/sim/verbs.go:519-535 | an ack drops a record exactly when it is of its Entity and its sequence |
| Moves.DepartureNames | server/sim/verbs.go:171-343 | in every run, a Move or Goto that takes an Entity out of its Zone records and announces exactly the Room it names (the first Exit's, or the goto's target), one of another Zone, and leaves every other Zone alone |
| Moves.LandsWhereItWent | server/sim/verbs.go:171-517 | in every run, whatever comes between, that handoff is placed in the Zone named and, if that Zone still has it, the Room named, else the fallback; and nothing else of the body has changed but its sequence |
| Lifecycle.UnbindIs | server/sim/character.go:157-182 | a body standing sleeps where it is with its link fields cleared; any other is left; one on the way is refused |
| Lifecycle.MarkIs | server/sim/linkdead.go:63-99 | a body standing with its link gets the tick, the ceiling, the extension, and the sooner of grace and ceiling as its deadline; any other is left |
| Lifecycle.ExpireIs | server/sim/linkdead.go:129-158 | exactly the linkdead bodies whose deadline has come go to sleep |
| Lifecycle.SwapIs | server/sim/content.go:285-345 | exactly the bodies whose Room is gone are moved, to the fallback, and nothing else of them changes |
| Lifecycle.SwapSame | server/sim/content.go:252-345 | the same content is accepted and moves no one |
| Lifecycle.BindHere | server/sim/character.go:58-80 | the body the Zone holds is linked and awake where it was, and named if it had no name |
| Lifecycle.BindElsewhere | server/sim/character.go:81-109 | nothing changes here, and the Bind goes on to exactly the Zones where the body sleeps or is linkdead |
| Lifecycle.BindNew | server/sim/character.go:110-143 | of a body no Zone holds: each refusal on its cause, in order, else a new body of the Character Template at the spawn Room at sequence 0 |
| Lifecycle.PurgeIs | server/sim/purge.go:48-110 | a Character's body here is gone; one elsewhere has the Purge sent on to it; one on the way is refused; a body of another Template is never touched |
| Lifecycle.ComesBack | server/sim/linkdead.go:15-20 | a Session's end and the next one's start leave the Zone as it was; so do a lost link and a reconnect, before the grace runs out, after an unbind, or for the body itself after it expired |
| RetrySchedule.RetryInterval | server/sim/handoff.go:77-94 | the wait is between the first and the longest interval whatever the attempt count, the 64-bit shift included |
| RetrySchedule.IntervalAt | server/sim/handoff.go:77-94 | at one attempt: the capped doubling, unless the shift slips, and then less |
| RetrySchedule.BackoffDoublesIff | server/sim/handoff.go:74-94 | the capped doubling at every attempt, if and only if no shift up to 16 loses bits and leaves at least the first and less than the longest |
| RetrySchedule.BackoffNeverShrinksIff | server/sim/handoff.go:74-94 | no attempt waits less than the one before, if and only if no shift slips |
| RetrySchedule.LargeSlips | server/sim/handoff.go:77-94 | a configuration whose third attempt waits less than the doubling |
| RetrySchedule.LongestReachedIff | server/sim/handoff.go:77-94 | for every configuration, the longest is waited at some attempt if and only if some shift up to 16 that does not slip takes the first interval that far |
| RetrySchedule.SmallReachesIff | server/sim/handoff.go:77-94 | for a first interval below 2^48, if and only if the longest is at most 65536 first intervals |
| RetrySchedule.LongestNeedNotBeReached | server/sim/handoff.go:77-94 | a maximum that no attempt waits |
| RetrySchedule.RetryBacksOff | server/sim/handoff.go:137-196 | a handoff retried waits twice as long as before, up to the longest, and one the schedule did not know waits the first interval |
| RetrySchedule.RetriedEntries | server/sim/handoff.go:176-183 | a record retried has its entry, under its Entity and its own sequence, at this tick with more attempts, and an entry of no record retried is as it was |
| RetrySchedule.WaitAfterPasses | server/sim/handoff.go:137-196 | after n passes that each retry a handoff it waits what the doubling says of n + 1 attempts |
| RetrySchedule.FirstOfUnique | server/sim/handoff.go:137-196 | the due records a pass takes do not depend on the order maps are met in |
| RetrySchedule.FirstOfOrder | server/sim/handoff.go:166-175 | what a pass takes is earliest due first, then in Entity order, then in Zone order, and what it leaves is due no earlier |
| Strings.LessIs | server/sim/handoff.go:166-174 | the order of names: less at the first difference, where the one has ended or has the smaller character |
| RetrySchedule.Engine.AllDueAre | server/sim/handoff.go:143-165 | due are the records of the Zones no fault froze, an interval after their last Arrive or, with no schedule entry, at once |
| RetrySchedule.Engine.constructor | server/sim/handoff.go:49-75 | an engine starts with no Zone and no schedule |
| RetrySchedule.Engine.Depart | server/sim/verbs.go:329-343 | the body leaves its Zone for Transit one sequence higher, in a record and with an Arrive that name exactly the target's Zone and Room, and the schedule notes it unless replaying |
| RetrySchedule.Engine.DropTransit | server/sim/handoff.go:110-119 | the record and its schedule entry go together, nothing else |
| RetrySchedule.Engine.ApplyHandoffAck | server/sim/verbs.go:525-535 | a record and its schedule entry are dropped by an ack of its Entity and sequence both, and by no other |
| RetrySchedule.Engine.ApplyArrive | server/sim/verbs.go:465-517 | the Zone, the ack and the code are those of its own function; a record the arrival acknowledges goes with its schedule entry, and no other entry changes |
| RetrySchedule.Engine.CollectDue | server/sim/handoff.go:137-175 | exactly the records due at a tick, in order |
| RetrySchedule.Engine.Resend | server/sim/handoff.go:176-196 | an Arrive for each place, in order, its schedule entry at this tick with the attempt counted, and no other entry changed |
| RetrySchedule.Engine.DueHandoffs | server/sim/handoff.go:137-196 | the first batch of due records, each with its Arrive; their entries are at this tick with the attempt counted, and no other changes |
| MetricValidator.MetricTable | scripts/collectors_check.py:224-251 | the loop's answer is the fold of its branches over the rules, its early return included |
| MetricValidator.KindsAre | scripts/collectors_check.py:220-246 | the rules each branch reads, none of two |
| MetricValidator.FailsIff | scripts/collectors_check.py:224-233 | metric_table gives up exactly on a stamp after a working guard, or one that does not stamp, and its answer then has no table, no guard and no namespaces; else it is guarded exactly when the last guard works |
| MetricValidator.ReadsAsMeansSound | scripts/collectors_check.py:224-251 | a list with every rule read and one guard, mark, clear, drop and keep that reads back as the sources has each rule doing its part, in an order that works |
| MetricValidator.RunIs | scripts/collectors.py:168-193 | such a list stamps from the table, keeps by name, and drops a kube_ series its clear rule does not match |
| Relabel.KubeIff | scripts/collectors_check.py:220 | kube_.+ is the prefix and something after it |
| Relabel.LiteralCharIff | scripts/collectors.py:64-65 | the characters of the names the rules list: letters, digits, underscore, colon and hyphen |
| Relabel.TwoLabels | scripts/collectors.py:168-193 | a rule on two labels looks at both with the separator between them, a semicolon where it sets none |
| MetricValidator.ValidatorSoundIff | scripts/collectors_check.py:224-251 | whoever wrote the rules, a list with every rule read and one guard, mark, clear, drop and keep that reads back as the sources does to every series what they ask, if and only if its clear regex has no final newline or no kept name is a kube_ one |
| ValidatorGaps.ExtraReadsAs | scripts/collectors_check.py:224-251 | for every table and keep-list, the compiled rules with a rule no branch reads, or a second guard, mark, clear, drop or keep, put in still read back as the sources |
| ValidatorGaps.UnreadSlips | scripts/collectors_check.py:224-251 | a rule no branch reads may drop every series of a list that reads back |
| ValidatorGaps.SecondKeepSlips | scripts/collectors_check.py:244-246 | a narrower keep before the last drops every name it lacks in a list that reads back |
| ValidatorGaps.SecondDropSlips | scripts/collectors_check.py:240-243 | a second drop before the clear drops every kube_ series in a list that reads back |
| ValidatorGaps.SecondMarkSlips | scripts/collectors_check.py:233-243 | a second mark after the clear drops every kube_ series in a list that reads back |
| ValidatorGaps.SecondGuardSlips | scripts/collectors_check.py:230-232 | a second guard before the last gives unmapped series its own environment in a list that reads back |
| ValidatorGaps.SecondClearSlips | scripts/collectors_check.py:235-239 | a second clear before the last lets an unmapped kube_ series through in a list that reads back |
| StampCompiler.ByEnvironmentEncodes | scripts/collectors.py:141-145 | the groups say exactly what the table says |
| StampCompiler.KeysListed | scripts/collectors.py:168-193 | the clear rule's names are the table's namespaces, each once, sorted |
| StampCompiler.MetricRules | scripts/collectors.py:168-193 | the rules appended in turn are the compiled list |
| StampCompiler.LogStages | scripts/collectors.py:200-213 | the stages appended in turn are the compiled list |
| StampCompiler.TraceStatements | scripts/collectors.py:215-222 | the statements appended in turn are the compiled list |
| StampCompiler.RulesReadAs | scripts/collectors_check.py:224-251 | the validator reads the compiled rules back as the sources they came from |
| StampCompiler.MetricRulesCorrect | scripts/collectors.py:141-193 | for every valid table, in any order, every valid keep-list and every series that arrives without the temporary label: the table's environment, else the prior one, else unknown; survives iff its name is kept and it is not kube_ from an unmapped namespace; no temporary label is left |
| StampCompiler.NewlineReadsAs | scripts/collectors_check.py:224-251 | for every table and keep-list, the compiled rules with a newline after the clear regex are of the shape, read back as the sources and end in that newline |
| StampCompiler.NewlineMisses | scripts/collectors_check.py:224-251 | with a kube_ name kept, those rules treat some series otherwise than the sources ask |
| StampCompiler.LogStagesCorrect | scripts/collectors.py:200-213 | a log record gets the same environment, keeps only allow-listed labels, and keeps those |
| StampCompiler.TraceStatementsCorrect | scripts/collectors.py:215-222 | a trace resource gets the table's environment, else the one it came with, else unknown |
| StampCompiler.BackEndsAgree | scripts/collectors.py:168-222 | a record with no environment gets the same one as a series, a log record and a trace resource, in whatever order the stamps run |
| StampCompiler.TableStamps | scripts/collectors.py:141-222 | for every environments table: the metric rules, log stages and trace statements made of it do what it says, and agree |
| AlloyText.SkipStringFrom | scripts/collectors_check.py:52-63 | the scan ends where the literal, escapes and raw strings included, does |
| AlloyText.BodyFrom | scripts/collectors_check.py:66-86 | the body is the text up to the brace that closes it, braces in strings and comments not counted |
| AlloyLexing.BodyIs | scripts/collectors_check.py:52-86 | on every text, the body is what lies before the first brace that brings the depth to nothing in code, as a lexer of one character sees code: strings with their escapes, raw strings and comments apart; none exactly when there is no such brace |
| AlloyLexing.BraceSteps | scripts/collectors_check.py:102-105 | a brace goes one level in or out, and a name may follow it at once |
| AlloyLexing.BeforeMatters | scripts/collectors_check.py:106-107 | of the character before a name, only whether it continues one matters |
| AlloyLexing.RawPassed | scripts/collectors_check.py:99-101 | what is in a raw string opens no block |
| AlloyLexing.RawValue | scripts/collectors_check.py:118-122 | a raw string's value is its text |
| AlloyLexing.EscapesAre | scripts/collectors_check.py:118-122 | JSON's one-character escapes, and no other |
| AlloyRoundTrip.TextRoundTrip | scripts/collectors_check.py:88-155 | blocks printed for any control-character-free values, wrapped as a destination, are read back as exactly those blocks, in order, every attribute with its value |
| CollectorText.RulesRoundTrip | scripts/collectors_check.py:157-176 | the rules rendered are the rules read back, in order |
| CollectorText.SourcesToSeries | scripts/collectors.py:168-193 | the text rendered from any grouping of a table, in any order, and a keep-list, read back, does to every series what the sources ask |
| CollectorText.TableToSeries | scripts/collectors.py:141-193 | the same of metric_rules itself: the text of the environments table and the keep-list, read back, does to every series what they ask |
| ProfileMerge.MergeItems | scripts/collectors.py:227-235 | the loop over a copy of the base computes the deep merge |
| ProfileMerge.MergeLeafIff | scripts/collectors.py:227-235 | at every path the merge holds the profile's leaf if it has one there, the base's if the profile has nothing there and no leaf on the way, and no other |
| ProfileMerge.ProfileFrame | scripts/collectors.py:290-301 | a profile with no problems, whose keys on the way are neither dotted nor empty and which holds no empty mapping outside the profile keys, changes no path outside them, whatever the base |
| ProfileMerge.ProfileFrameIff | scripts/collectors.py:290-301 | a profile with no problems changes nothing outside the profile keys, for every base, if and only if no key on the way to them is dotted or empty and it holds no empty mapping outside them |
| ProfileMerge.EmptyMappingSlipsThrough | scripts/collectors.py:290-301 | an empty mapping is no problem to the check and replaces what it meets |
| ProfileMerge.DottedKeySlipsThrough | scripts/collectors.py:290-301 | a dotted key reads as a profile key to the check and sets a path of its own |
| LineEditor.InsertPoint | scripts/promote.py:117-126 | new lines go after the last line of the range that is not blank: every line from there on is blank and the one before is not |
| LineEditor.SetValue | scripts/promote.py:111-143 | the loop down the path makes the one edit its recursive form describes |
| LineEditorProof.FindPrint | scripts/promote.py:97-102 | a key is found at its own entry's line, never in a comment, a deeper block or a longer key |
| LineEditorProof.BlockCovers | scripts/promote.py:82-94 | a nested mapping's lines are all in its block, and what follows decides the rest |
| LineEditorProof.SetLinesPrints | scripts/promote.py:111-143 | the edited lines are the lines of the document with that value set or added, comments and all |
| LineParser.ParsePrint | scripts/promote.py:136-143 | reading a document's lines gives its tree, or fails exactly where it has none |
| LineParser.EditedTree | scripts/promote.py:137-141 | for every path, editing the entries updates the tree, and leaves no tree exactly when the path leads to a mapping or through a scalar that is not empty |
| LineParser.EditRefinesPut | scripts/promote.py:111-143 | for every path, reading the edited lines gives the tree updated at the path, and fails if and only if the path leads to a mapping or through a scalar that is not empty |
| LineParser.TextRefinesPut | scripts/promote.py:111-143 | the same of the text given and returned |
| LineParser.WantIs | scripts/promote.py:137-141 | the tree set_value compares with is the one updated at the path, and cannot be built exactly when a key on the way holds a scalar, an empty one too |
| LineParser.SetValueReturnsIff | scripts/promote.py:111-143 | set_value returns, with text that reads as the tree updated at the path, if and only if the keys on the way are absent or mappings and the last is no mapping |
| LineParser.KeyOnTheWayRaises | scripts/promote.py:137-143 | under a scalar the edited text is no document, under an empty key it is the right one, and set_value raises over both |
| LineParser.OtherLinesKept | scripts/promote.py:111-135 | on any lines at all, one line is replaced or lines are added at one place, and every other line is kept in order |
| DevTags.HistoryIff | scripts/promote.py:50 | a name is a history tag reading as n exactly when it is dev-<n> with n above 0 |
| DevTags.NextNumber | scripts/promote.py:184-187 | one above the highest n of any line that is dev-<n>, under refs/tags/ or bare, peeled or not; 1 when there is none |
| PromotionProof.StepKeeps | scripts/promote.py:224-324 | every step of every promoter keeps the invariant and the history tags; the remote changes only by taking its next number |
| PromotionProof.AcceptedIsNext | scripts/promote.py:299-307 | an accepted push carries the number next on the remote at that moment, adds that one tag, moves dev and release/dev to its commit, and that commit is what was asked for |
| PromotionProof.AlwaysAligned | scripts/promote.py:299-307 | in every state of every interleaving dev, release/dev and the highest dev-<n> name one commit |
| PromotionProof.WriteOnce | scripts/promote.py:299-307 | a dev-<n> tag names the same object ever after |
| PromotionProof.PushedAsAsked | scripts/promote.py:224-307 | a pushed dev-<n> is ever after what its run was asked for: the main commit with that commit's own image and nothing else changed, or the named tag's commit with its marker, its pin and nothing else |
| PromotionProof.AskedFor | scripts/promote.py:392-427 | whatever a promoter is at work on, in any interleaving, its own start asked for, and nothing in between |
| PromotionProof.NumbersConsecutive | scripts/promote.py:184-187 | the numbers given out are consecutive: the first plus the pushes taken, whoever pushed |
| PromotionProof.RefusedPutsBack | scripts/promote.py:277-324 | a refused push leaves the remote alone and the clone's tags as they were when the run began but for the tag a rollback fetched, dev at the saved object |
| PromotionProof.FailedTagsPutBack | scripts/promote.py:268-297 | tags that could not be made leave dev at the saved object, and the clone as it was when the run began exactly when it held no dev-<n> and the fetch brought nothing new |
| PromotionProof.RollbackValues | scripts/promote.py:243-265 | a rollback has values exactly when the marker can be set and, if a round is given or one is to be cleared, the pin; then the marker names its tag, the pin is the round given, or 0 where one was set, and every other path is unchanged |
| PromotionProof.PromotionValues | scripts/promote.py:224-240 | a promotion has values exactly when no scalar is on the way to image.tag and no mapping at it; then image.tag is the main commit's own image and every other path is unchanged |
| PromotionProof.ImageNames | scripts/promote.py:233-235 | an image is sha-, its commit's first twelve characters, @ and the digest, so two of one name have both in common |
| PromotionProof.RolledBackReads | scripts/promote.py:243-265 | after a rollback the image is the tag's and no pin is left but the one given |
| PromotionProof.SettableIff | scripts/promote.py:111-143 | when set_value succeeds, read off the tree: no scalar on the way and no mapping at the end |
| PromotionProof.ImageIsTheOrigins | scripts/promote.py:224-265 | the rolled_back_to chain goes strictly down to a promotion of a main commit, whose image is the one pinned |
| PromotionProof.ChainEndsUnmarked | scripts/promote.py:224-240 | a promotion of a main commit without rolled_back_to has none either, so a reader following the values stops there |
| PromotionProof.RunProvenance | scripts/promote.py:224-265 | so it is of every tag, in every state of every run, and the image it pins is one built of that main commit |
| Schemas.Registry.constructor | scripts/schemas.py:280-294 | an empty registry |
| Schemas.Registry.GetLatest | scripts/schemas.py:438-443 | the latest visible version, or none, or no answer; the call is on the log |
| Schemas.Registry.Lookup | scripts/schemas.py:591-607 | whether the exact source and references are registered at any visible version, or no answer |
| Schemas.Registry.Verdict | scripts/schemas.py:440-444 | the registry's compatibility verdict against one registered version, or no answer |
| Schemas.Registry.Post | scripts/schemas.py:414-425 | at most one new version, the subject's latest; none when refused |
| Schemas.Registry.Delete | scripts/schemas.py:565-588 | one version hidden or removed, or nothing changed |
| Schemas.Registry.SetMode | scripts/schemas.py:554-559 | one compatibility mode set, or none |
| Schemas.RefsSame | scripts/schemas.py:472-494 | a file's references depend only on its imports' subjects |
| Schemas.NamesApart | scripts/schemas.py:213-219 | an environment's names start with its prefix, and two environments' names, their prefixes without a dot, never meet |
| Schemas.RefsAre | scripts/schemas.py:472-494 | a list of references names exactly the registered imports, each at its latest version |
| Schemas.RefsInOrder | scripts/schemas.py:472-494 | in the imports' order |
| SchemaApply.ReferenceList | scripts/schemas.py:472-494 | each registered import at its latest version, in order; no list exactly when an answer was lost |
| SchemaApply.RefsReady | scripts/schemas.py:447-456 | a yes means every import is registered as declared; a no means one is not, or an answer was lost; a file with no import is ready |
| SchemaApply.Incompatible | scripts/schemas.py:428-444 | an answer is the registry's verdict against the latest version, a new subject is accepted, and there is none exactly when one was lost |
| SchemaApply.Ask | scripts/schemas.py:459-469 | the same of an item, with its current references |
| SchemaApply.AskReady | scripts/schemas.py:508-520 | phase 1 passed: every item not deferred was ready and accepted; only importers wait and only ready refused names are reported; with no answer lost those waiting and those refused are exactly those; a failed question means a lost answer |
| SchemaApply.Register | scripts/schemas.py:414-425 | a source already there adds nothing; else its new version is returned; a failure is a lost read or a failed registration of that subject, and leaves at most one version |
| SchemaApply.Put | scripts/schemas.py:524-537 | an item is registered as declared and the version recorded, or nothing changes if it was; a failure leaves at most one version unnamed |
| SchemaApply.Discard | scripts/schemas.py:571-587 | one version deleted softly and, that done, for good; no other version changes |
| SchemaApply.Rollback | scripts/schemas.py:565-588 | every version is deleted, newest first, softly and, that done, for good; undone when both were done, left when either was not, hidden when the soft one was; if no deletion fails nothing is left and the registry is as found; what was found is kept whole; if lost calls are never carried out those left are exactly those remaining |
| SchemaApply.LeftOnlyFailed | scripts/schemas.py:574-587 | a version is left only if a deletion of it was made and was not done, the one for good only after the soft one was |
| SchemaApply.AllGone | scripts/schemas.py:574-587 | nothing is left exactly when every deletion was done |
| SchemaApply.AskLate | scripts/schemas.py:542-552 | phase 3 passed: every deferred subject was accepted; those reported are exactly the deferred ones refused, unless an answer was lost |
| SchemaApply.Settle | scripts/schemas.py:542-552 | a refusal or a lost answer undoes phase 2: the registry as found but for the versions left, each with its failed deletion |
| SchemaApply.ModeReferences | scripts/schemas.py:553-556 | the global mode and the references', or a failed write |
| SchemaApply.ModesAre | scripts/schemas.py:553-559 | a completed run leaves the declared mode globally and for every declared subject, and every other as it was |
| SchemaApply.PutReferences | scripts/schemas.py:538-541 | phase 2's additions are the references', and a reference registered as declared is untouched |
| SchemaApply.PutSubjects | scripts/schemas.py:553-562 | phase 4 adds only what was accepted and ends in sync |
| SchemaApply.Apply | scripts/schemas.py:497-562 | by outcome: a refusal or failed question leaves the registry as found but for the versions reported left, and the modes alone; a failed registration leaves the versions it names and at most one more; success leaves every item registered and every added version accepted against the registry as found, with its source and references; older versions are never touched; a rerun adds none. Every failure has its failed call; with none, the run is applied or refused, refused before registering exactly when an item it can ask about is, naming just those, and a later refusal leaves the registry as found |
| SchemaApply.AskedEarly | scripts/schemas.py:508-520 | the references an item was asked about in phase 1 are the ones it is registered with |
| SchemaApply.AskedLate | scripts/schemas.py:542-552 | a subject asked in phase 3 is judged against the version found |
| KafkaUsers.Render | scripts/kafka_users.py:101-147 | the nested loops give the rendered list, in order |
| KafkaUsers.RenderedAre | scripts/kafka_users.py:101-147 | one user for every environment and principal and every platform principal, and no other |
| KafkaUsers.Check | scripts/kafka_users.py:195-260 | no error exactly when declared topics are known, every user is fine and no declared pair is missing |
| KafkaUsers.CheckUser | scripts/kafka_users.py:206-255 | no error exactly when the user's name, quotas and every ACL are fine |
| KafkaUsers.CheckPlatformAcls | scripts/kafka_users.py:154-183 | no error exactly when every ACL of a platform principal is fine |
| KafkaUsers.CheckEnvAcls | scripts/kafka_users.py:206-251 | no error exactly when every ACL of an environment principal is fine |
| KafkaIsolation.UnderPrefix | scripts/kafka_users.py:214-235 | an environment principal reaches only topics under its own prefix, prefixed ACLs included |
| KafkaIsolation.TopicIsolation | scripts/kafka_users.py:195-260 | for any users the check accepts, with distinct dot-free prefixes, no topic is reachable from two environments |
| KafkaIsolation.TopicsShareIff | scripts/kafka_users.py:195-260 | for any two prefixes, users the check accepts can share a topic across the two environments if and only if one prefix and its dot start with the other's and neither holds a star |
| KafkaIsolation.OperatorsAlone | scripts/kafka_users.py:154-235 | no one holds an operator's topic right but the suite's Create and Delete on its prefixes and the registry's Create on its topic |
| KafkaIsolation.PlatformTopicsOnly | scripts/kafka_users.py:154-183 | a platform principal reaches only declared platform topics |
| KafkaIsolation.SuiteMeetsEnvironmentIff | scripts/kafka_users.py:226-232 | for every prefix, the suite's topics meet an environment's exactly when it starts with it, is andara, or is andara.test or under it |
| KafkaIsolation.SuiteMeetsGroupIff | scripts/kafka_users.py:236-248 | the suite's accepted group ACLs can meet an environment's rendered group if and only if its name starts with it- |
| KafkaIsolation.GroupsMeetIff | scripts/kafka_users.py:109-111 | two declared groups' rendered ACLs meet exactly when one's rendered name is a prefix of the other's |
| KafkaIsolation.SameGroupMeetsIff | scripts/kafka_users.py:109-111 | for one group in two environments, exactly when one environment's name starts with the other's |
| KafkaIsolation.GroupsIsolatedIff | scripts/kafka_users.py:236-248 | of what render makes, no group is reachable from two environments if and only if no two environments' names for declared groups are one a prefix of the other |
| KafkaIsolation.AcceptedGroupsCanMeet | scripts/kafka_users.py:236-248 | a declaration whose users the check accepts, with environments of unrelated names that share a group |
| KafkaIsolation.PrincipalOfRendered | scripts/kafka_users.py:186-192 | principal_of inverts render's naming |
| KafkaIsolation.RenderedPassesIff | scripts/kafka_users.py:101-260 | of what render makes of environments with distinct names, none giving a principal the suite's name, the check refuses exactly the declaration's own rights: never a missing user, a wrong quota or an ACL outside its environment |
| KafkaRights.RenderedRights | scripts/kafka_users.py:101-147 | the rendered users hold exactly the declared rights: in every environment every principal's topics under its prefix, its groups by their prefix and its cluster rights, with the environment's quotas; each platform principal's own; a superuser's none; and no other user |
| KafkaRights.EnvTopicIff | scripts/kafka_users.py:217-233 | the check's verdict on a topic ACL, rule by rule |
| KafkaRights.EnvGroupIff | scripts/kafka_users.py:234-245 | the check's verdict on a group ACL, rule by rule |
| KafkaRights.EnvOtherIff | scripts/kafka_users.py:246-250 | Describe alone on the cluster, and no ACL of another kind |
| KafkaRights.PlatformAclIff | scripts/kafka_users.py:163-182 | the check's verdict on a platform principal's ACL, the registry's two exceptions included |
| CodeOnly.FindQuote | scripts/pipelines_check.py:109-112 | where a string's closing quote is, escapes skipped |
| CodeOnly.FindEndOfLine | scripts/pipelines_check.py:116-119 | where a line comment ends |
| CodeOnly.FindEndOfBlock | scripts/pipelines_check.py:121-124 | where a block comment ends |
| CodeOnly.Scan | scripts/pipelines_check.py:100-129 | the chunk scanner gives what a lexer reading one character at a time gives, but for the last character of a string never closed |
| CodeOnly.PositionsKept | scripts/pipelines_check.py:100-129 | length kept, every character in its place or blanked, newlines exactly where they were, for every input |
| CodeOnly.LinesKept | scripts/pipelines_check.py:132-133 | a line number read off the code is the text's |
| CodeOnly.ScanIsLexIff | scripts/pipelines_check.py:108-115 | the scanner is the lexer exactly when no string is left open, or one only by the last character, or that character is blank |
| CodeOnly.OpenStringShows | scripts/pipelines_check.py:108-115 | a brace ending an open string is read as code |
| TopLevel.FindBlockEnd | scripts/pipelines_check.py:136-146 | past the brace that first brings the depth to nothing, or the end of the input when none does |
| TopLevel.Blocks | scripts/pipelines_check.py:149-166 | the scanning loop finds what the recursive split finds |
| TopLevel.NoStrayTiles | scripts/pipelines_check.py:149-166 | with no stray, the blocks in order tile the text with only whitespace between, each ending at its matching brace or the end |
| TopLevel.TilesNoStray | scripts/pipelines_check.py:149-166 | a text that blocks tile has no stray, and those are its blocks |
| TopLevel.NoStrayIff | scripts/pipelines_check.py:149-166 | no stray exactly when some blocks tile the text |
| HeaderGrammar.HeaderIff | scripts/pipelines_check.py:80 | a header is exactly a dotted name, whitespace around its dots, then perhaps a label, with whitespace around; and its kind is the name without whitespace |
| HeaderGrammar.NameChars | scripts/pipelines_check.py:80 | a name's characters: ASCII letters and the underscore, after the first the digits too |
| Markdown.SplitBlocks | scripts/builder_guide.py:198-257 | the loop over its five variables gives the lines of each class, numbered, and the open fence's line; what the classes are is in MarkdownClasses |
| Markdown.PickIs | scripts/builder_guide.py:198-257 | each line is of one class; a list holds exactly its class's lines under their own numbers, strictly increasing |
| Markdown.FenceIs | scripts/builder_guide.py:214-257 | a fence is open exactly when an opener has only code after it, and it is that opener's |
| Markdown.FirstNotCode | scripts/builder_guide.py:250-256 | the first line after an opener that is not code closes it: the same mark, at least as long, nothing else |
| Markdown.UnclosedIs | scripts/builder_guide.py:257 | 0 exactly when every opener has a later closer; else the last opener's line, with only code after it |
| MarkdownShapes.FenceOpenIff | scripts/builder_guide.py:170 | a fence opens on exactly: at most three spaces, n >= 3 of one mark, a rest not starting with it, and after backquotes no backquote; with that mark and length |
| MarkdownShapes.ClosesIff | scripts/builder_guide.py:250-252 | a fence closes on exactly its mark, at least as often, in whitespace |
| MarkdownShapes.ThematicIff | scripts/builder_guide.py:184 | at most three spaces, then one of -, * and _ three times or more and whitespace, nothing else |
| MarkdownShapes.HeadingIff | scripts/builder_guide.py:183 | at most three spaces, one to six #, whitespace or the end |
| MarkdownShapes.QuotedIff | scripts/builder_guide.py:185 | at most three spaces and a > |
| MarkdownShapes.ContentOffsetIff | scripts/builder_guide.py:182-195 | a list item is exactly whitespace, a bullet or up to nine digits and a delimiter, and a gap or the end, and no thematic break; its content starts after a gap of up to four, or one |
| MarkdownShapes.ExpandTabsIs | scripts/builder_guide.py:216 | each character fills the columns from its own to the next one's, a tab up to the next multiple of four |
| MarkdownShapes.ExpandedLength | scripts/builder_guide.py:216 | and the expanded line ends with the last column |
| MarkdownShapes.IndentIs | scripts/builder_guide.py:216-217 | the indent is the column of the first character that is no whitespace |
| MarkdownShapes.IndentedIff | scripts/builder_guide.py:216-217 | four columns in exactly when the first four characters are whitespace, or a tab is among the whitespace of the first four |
| MarkdownShapes.StartsIff | scripts/builder_guide.py:363-388 | which lines are a paragraph of their own, and which start one, by their characters |
| MarkdownClasses.OpenerIff | scripts/builder_guide.py:218-225 | a line opens a fence exactly when none is open and it has an opener's shape less than four columns into the list item |
| MarkdownClasses.CloserIff | scripts/builder_guide.py:250-254 | it closes one exactly when one is open, of its mark and no longer, and it holds nothing else |
| MarkdownClasses.CodeIff | scripts/builder_guide.py:226-256 | it is code exactly inside a fence it does not close, or outside one when four columns into the item, where code may start or goes on, and no fence, blank, break or item |
| MarkdownClasses.DepthIs | scripts/builder_guide.py:209-243 | a line is in a list exactly when an item before it has been neither ended nor followed by another, and the depth is that item's content offset |
| MarkdownClasses.WithoutLists | scripts/builder_guide.py:198-257 | in a document without list items, openers and code by their characters and the line before alone |
| Markdown.Paragraphs | scripts/builder_guide.py:363-388 | the paragraphs concatenate to the non-blank prose; each is consecutive lines, with a heading alone and a marker only first; and no two adjacent ones could have been one |
| ClusterRebuild.AppliedKeeps | scripts/cluster_secrets.py:170-184 | applying a cleaned Secret leaves every field but status, every metadata entry outside the dropped ones and every annotation but kubectl's note as the Secret had it |
| ClusterRebuild.CleanIs | scripts/cluster_secrets.py:170-184 | clean drops exactly the old cluster's bookkeeping and keeps the rest |
| ClusterRebuild.CleanIff | scripts/cluster_secrets.py:170-184 | two Secrets clean to one exactly when they are the same but for that bookkeeping |
| ClusterRebuild.SameData | scripts/cluster_secrets.py:170-184 | the certificate's data and the labels are not bookkeeping |
| ClusterRebuild.Box.constructor | scripts/cluster_secrets.py:139-147 | a box with a cluster or none, and no export |
| ClusterRebuild.Box.WriteAtomic | scripts/cluster_secrets.py:121-136 | done exactly when no call fails, the new export whole; cut off anywhere, the export is as it was and at most the temporary file is left |
| ClusterRebuild.Box.ExportOne | scripts/cluster_secrets.py:147-166 | written if the cluster has it, absent with its earlier export kept if not; anything else is a failure |
| ClusterRebuild.Box.ExportAll | scripts/cluster_secrets.py:139-167 | it succeeds exactly when no call fails, and then accounts for every listed Secret and has every live one exported whole |
| ClusterRebuild.Box.Down | scripts/cluster.py:251-259 | the cluster is deleted or as it was; what was live is still held where it was exported |
| ClusterRebuild.Box.Up | scripts/cluster.py:204-234 | a cluster that exists is left alone; nothing held is lost |
| ClusterRebuild.Box.Restore | scripts/cluster_secrets.py:187-223 | it fails exactly when a call does or a target namespace is missing, and then before anything is applied; success makes every export of the namespaces live, field by field, over what was live; a Secret not overlaid is held as before, on any failure too |
| ClusterRebuild.Box.Housed | scripts/cluster_secrets.py:203-208 | whether every target namespace is there; a no is a missing one or a failed call |
| ClusterRebuild.Box.RestoreOne | scripts/cluster_secrets.py:209-221 | one export live, field by field, unless a call failed |
| ClusterRebuild.Box.Apply | scripts/cluster_secrets.py:211-219 | the cluster holds every field, metadata entry and annotation of the Secret but what its old cluster assigned, all of it as it was where there was none; no other Secret changes |
| ClusterRebuild.Box.RestoreCa | scripts/platform_up.py:537-552 | success leaves the root live, unless there was none to restore |
| ClusterRebuild.Box.PrivateCa | scripts/platform_up.py:555-560 | success leaves a root live; a live one is untouched, and so is every other Secret |
| ClusterRebuild.Box.CreateAndRestore | scripts/cluster.py:312-314 | a new cluster ends with a live root and nothing held lost |
| ClusterRebuild.Box.Rebuild | scripts/cluster.py:293-317 | it completes exactly when no call of it fails. However it ends, every listed Secret held is still held, every field but the bookkeeping, and no export is partial; a cluster it deleted had its live Secrets exported whole, and one it did not is as it was; when it completes the live root is, field by field, the one live before, or else the earlier export's |
| ClusterRebuild.Box.Rebuilds | scripts/cluster.py:293-317 | over any number of rebuilds, each ending as it may, what was held at the first is held at the last, and a last one that completes leaves that root live |
| SyncPolicy.Application.constructor | scripts/server_ctl.py:88-96 | the Application as read |
| SyncPolicy.Application.Suspend | scripts/server_ctl.py:103-122 | done exactly when no call is cut; cut off anywhere, a prefix of the patches its reading calls for; the result says whether a stop holds the sync |
| SyncPolicy.Application.Restore | scripts/server_ctl.py:125-141 | done exactly when no call is cut; cut off anywhere, a prefix of the patches its reading calls for |
| SyncPolicy.NeverLost | scripts/server_ctl.py:103-141 | over every sequence of stops and starts cut off anywhere the policy is in the spec or the annotation and no other value in either; a completed stop leaves it only in the annotation, a completed start only in the spec |
| SyncPolicy.OverlapLosesIff | scripts/server_ctl.py:103-141 | in every interleaving of a stop and a start, at every point of it, the policy is lost if and only if Remove came after Add and Forget after the stop's Record, or after its read when it made none; otherwise it is held and no other value is in either place |
| SyncPolicy.RecordFirstLoses | scripts/server_ctl.py:103-141 | from the ordinary state: the stop records, a start comes and goes, the stop removes, and the policy is gone |
| PollRecord.FoldShows | scripts/rule_backend.py:95-106 | a poll's state is known exactly when all its instances' are, and then fires exactly when one does |
| PollRecord.Watch.constructor | scripts/rule_backend.py:204-209 | an empty record |
| PollRecord.Watch.Run | scripts/rule_backend.py:211-229 | every poll is kept, its sample or the time it failed, each in order |
| PollRecord.QuietShows | scripts/rule_backend.py:231-243 | with no problem and no firing sample, the rule fired throughout no stretch of the window longer than the interval and as long as the interval and a read, for any number of polls, none included |
| PollRecord.RulesOutIff | scripts/rule_backend.py:231-243 | a quiet record rules out a length of stretch if and only if it is longer than the interval and at least the interval and a read, a read counting for at most the interval |
| PollRecord.ReadTimeCounts | scripts/rule_backend.py:144-146 | for every interval and read time, a quiet record rules out every stretch longer than the interval if and only if reads take no time |

## Left out

- The rest of the simulation: events and their scopes, snapshots and the codec, content loading, the verbs that move no body. A panic or a faulted Zone is a run that ends.
- Handoff sequences and ticks are unbounded; the 64-bit width matters in `RetrySchedule.RetryInterval`, where it is written out.
- The log's own partitions and offsets: messages are a set that only grows, so any delivery order and any repetition is a run.
- Relabelling outside the rules' forms: regexes other than alternations of literal names, `kube_.+` and `drop;(…)`, and `$` references in replacements.
- `log_stages`, `trace_statements` and `trace_table` as readers (scripts/collectors_check.py:254-309), and log stages and trace statements as text: they are modelled as the values they denote.
- Alloy text outside what is printed: `\u` escapes, and whitespace and letters outside ASCII.
- YAML outside two-space block mappings with one-line plain scalars: quoting, block scalars, lists, anchors, and how a scalar's text is typed. `LineParser.Parse` stands for the YAML reader on those documents.
- Runs of promoters begin with the remote as earlier promotions leave it: aligned, its history tags sourced.
- Git below its refs: signatures, the fetch of main, the tags' messages, a local release/dev, and two runs in one clone at a time. An image's digest is a parameter of the request.
- Argo CD's refresh and the wait for it.
- The registry's HTTP errors other than not found on a read: scripts/schemas.py takes those for an unregistered subject. Reads here are answered truthfully or lost.
- SchemaApply.Apply: what it says of accepted versions and of a rerun is for declarations the offline check accepts, in which no subject has a reference's name.
- The offline checks of schemas.yaml and of the broker manifest, and `diff`.
- KafkaIsolation.TopicIsolation: the suite's own principal is apart; `KafkaIsolation.SuiteMeetsEnvironmentIff` says when it matters.
- HeaderGrammar.HeaderIff: the header regex's letters, digits and whitespace in ASCII.
- Crossing.HandoffCompletes: an Entity whose ID is the empty string is refused on arrival, and is left out.
- Combat's extension of a linkdead deadline (server/sim/linkdead.go:175-201), which no handler of the simulation calls.
- Markdown: splitlines' separators, digits and whitespace outside ASCII, and what the guide's other checks do with the lines.
- The box's other platform steps, a certificate renewed between its export and the delete, and what kubectl apply prunes of a Secret it applies over.
- An annotation that is not JSON, a policy edited by hand while the server is stopped, and more than one stop and one start at once.
- The polling loop's own timing: the clock's readings are parameters.
- Command-line parsing, exit codes, messages and logs.
