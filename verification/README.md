# OpenJourney decision logic in Dafny

A model of the decisions OpenJourney makes on behalf of a customer, and proofs about whole runs of
them: who belongs to an audience, how a journey moves a profile from node to node, when a message is
sent and when it is held back, which experiment or flag variant a subject sees, how a source is read
page by page, and how the AI gateway, the extension host and the public API limit what they let
through.

Code that changes state step by step is a class or a loop with its invariants, each tied to a
function of the old state; what is promised over every input, run or interleaving is proved of those
functions. Store calls that may fail, crashes, provider answers, digests and clock readings are
parameters, so every theorem quantifies over them. The store's own SQL (internal/postgres) is
modelled where the property depends on it: claims, the advance transaction, the enrolment key,
AcceptEvents, retries.

| module | subject |
|---|---|
| Audience, AudienceText, AudienceReader, AudienceMeaning, AudienceAgreement, AudienceSyntax | audience compiler, its SQL text and placeholder rewrite, a reader of that text, three-valued meaning, agreement with the interpreter |
| JourneyGraph, JourneyValidate, JourneyNodes, JourneyBranches, JourneyRuntime, JourneyEffects, JourneyRuns, JourneyTiming, JourneyProgress, JourneyExample, JourneyWitness | graph validator, node execution and branch choice, step loop, what every run keeps and reaches |
| Enrollment | reentry policies under interleaved workers |
| JourneyDelivery, JourneyGate, CampaignDelivery, CampaignGate, Policy, QuietHours | delivery state machines, when they call the provider and what they store |
| Experiment, Flags | weighted assignment and rollout |
| S3Source, SourceSync | cursor paging, idempotency keys, row accounting |
| AIGateway, CircuitBreaker, RateLimiter | governors |
| Common, Text | Option, decimal text, string order |

## Where the code and its promise differ

Each of these is a lemma below; most come with the exact condition under which the promise holds.

- A compiled audience and Matches differ on NULL under an odd number of Nots, on empty groups, on
  event history (dropped by the compiler), on companies (refused by Matches) and for another app than
  the profile's.
- The principal of an action (internal/journey/nodes.go:525) has no application, and accepted_events
  demands one, so the store refuses the event of every action: a run that comes to an action never
  leaves it, except by a late skip or a cancellation. The comment at internal/journey/nodes.go:149-154
  calls a replayed action harmless; were the events accepted, the replay would still fail unless it
  reads the same microsecond, because AcceptEvents refuses a known idempotency key whose event has
  another `occurred_at`.
- Because of that comparison a delivered intent whose last write is lost reaches `sent` only in a pass that
  reads the stored microsecond, and a source page read again is refused.
- Runs are unique on (version, profile, entry key, sequence): `once` and `after_exit` hold exactly when
  the enrolments that can enter the version share one entry key or are all events, which the profile's
  row lock takes one at a time. A backfill beside them, a second backfill or a late worker of the
  previous slot breaks them.
- FailJourneyStep, RescheduleJourneyStep and RetryJourneyStep do not look at the step's status. The
  unique index on pending and processing steps keeps those two apart in every run, but not `failed`:
  a step failed after an event finished it, or retried when the newest step is failed, dead or
  closed, is a second live step.
- An intent on its last attempt whose worker dies, and that is reclaimed in quiet hours, is put back
  with no attempts left and never taken again.
- A holdout intent that is retried by hand is sent: `holdout` is not among the terminal decisions.
- The fatigue caps count rows stored as sent, by the time they carry. A campaign attempt keeps the time
  of its first try, which shortens the window by that lag, and a send left at provider_sent or recorded
  as fatigued is not counted at all.
- All endpoints of a campaign profile, and all intents of a journey message node, share one event key;
  only one is ever recorded as sent.
- Two invalid replies in a row are charged in full and audited in part.
- A completed campaign job can leave attempts open: only transient send failures mark it for retry.
- The circuit breaker's cool-down needs every failure stored; one lost failure breaks it.
- Weights whose sum wraps serve nobody. Only flag weights, kept as JSON, can be that large: the
  weights of an experiment are 32-bit columns.
- A split without branches is accepted, can never run, and is where a late skip completes the run.

## Model

| member | source | states |
|---|---|---|
| `Audience.Compiler.CompileNode` | internal/audience/compile_pg.go:62-199 | the recursion over one shared argument list refines the function about which binding and meaning are proved, rejections included |
| `Audience.Compiler.CompileConditions` | internal/audience/compile_pg.go:64-94 | the loop of And and Or keeps the non-empty parts in order and stops at the first rejection |
| `Audience.PlaceholdersCount` | internal/audience/compile_pg.go:106-194 | a successful compilation only appends arguments, and its placeholders above $2, left to right, are exactly the numbers of the appended arguments, each once |
| `Audience.PlaceholdersCountAll` | internal/audience/compile_pg.go:64-94 | the same across the conditions of a group |
| `AudienceText.ShiftTextIsShiftTokens` | internal/audience/evaluate.go:107-117 | on text in which no word runs into a placeholder and only placeholders carry a dollar sign, the regular expression rewrites exactly the placeholders and copies everything else |
| `AudienceText.TokensClean` | internal/audience/compile_pg.go:107-201 | compiled text is of that kind: words apart, quoted field names without quotes, no placeholder that runs into a digit, no other dollar sign |
| `AudienceText.TextShiftIsExpressionShift` | internal/audience/evaluate.go:98-119 | for every compiling audience the rewritten text is the text of the expression with each placeholder above $2 raised by one |
| `AudienceReader.LexRender` | internal/audience/compile_pg.go:107-201 | a lexer that knows only blanks, words, quotes and placeholders recovers the pieces of such text |
| `AudienceReader.ConditionReads` | internal/audience/compile_pg.go:78-194 | in front of any other text, a recursive descent over SQL's grammar reads the text of a condition as that condition: AND and OR as joined, NOT, each comparison, the order of consent and score placeholders, tenant and workspace |
| `AudienceReader.CompiledTextReads` | internal/audience/compile_pg.go:62-199 | for every compiling audience the reader recovers the compiled expression from its text, a group of one condition as that condition |
| `AudienceReader.QueriesRead` | internal/audience/evaluate.go:98-119 | so do the whole texts: the query of all profiles as the compiled condition, the query of one profile as the condition with placeholders above $2 raised by one, TRUE where nothing is left |
| `AudienceReader.FlatKeepsMeaning` | internal/audience/compile_pg.go:75-94 | a group of one condition has the condition's three-valued value on every row |
| `AudienceReader.TextsKeepMeaning` | internal/audience/compile_pg.go:9-20 | for every compiling audience, database, row and parameters, the text read by itself selects the row if and only if the compiled expression does, and the single-profile text likewise |
| `AudienceMeaning.CompileIgnoresGaps` | internal/audience/compile_pg.go:64-104 | an audience compiles to the same text and arguments as the tree without event history and without the groups and negations left empty |
| `AudienceMeaning.Binding` | internal/audience/compile_pg.go:62-199 | whatever arguments later conditions append, the compiled condition evaluates in three-valued logic to the tree's own meaning: each placeholder names its own leaf's argument |
| `AudienceMeaning.LeafBinding` | internal/audience/compile_pg.go:106-194 | the same for attribute, consent, score and company leaves |
| `AudienceMeaning.ShiftKeepsMeaning` | internal/audience/evaluate.go:107-117 | the shifted condition over [tenant, workspace, profile] + args has the value of the original over [tenant, workspace] + args |
| `AudienceMeaning.SingleIsOriginal` | internal/audience/evaluate.go:98-119 | the single-profile query finds a row if and only if the full query selects that profile |
| `AudienceMeaning.Evaluate` | internal/audience/evaluate.go:18-96 | recursion with early-return loops refines Matches, compile errors and store errors included |
| `AudienceMeaning.EvaluateUntil` | internal/audience/evaluate.go:20-42 | the first condition that decides or fails ends the group |
| `AudienceAgreement.ConsentAgreesIff` | internal/audience/evaluate.go:121-130 | DISTINCT ON over all profiles and LIMIT 1 for one profile find the same consent, for every key and whichever of equally new rows each keeps, if and only if equally new rows agree |
| `AudienceAgreement.ConsentAgrees` | internal/audience/compile_pg.go:129-145 | on such a ledger the compiled condition and the single query answer alike for the profile's own app |
| `AudienceAgreement.SelectsIffReading` | internal/audience/compile_pg.go:9-20 | for every compiling audience the query selects exactly the rows on which the pruned tree is true, reading NULL as false, and as true under an odd number of Nots |
| `AudienceAgreement.MatchesIsReading` | internal/audience/evaluate.go:18-96 | on trees both accept, Matches answers without error, reading NULL as false everywhere |
| `AudienceAgreement.CompilerAgreesWithMatches` | internal/audience/evaluate.go:18-96 | a selected profile always matches; the converse holds if and only if the tree stays true with the negated NULLs read as true, and always when there are none |
| `AudienceSyntax.AgreesEverywhereIff` | internal/audience/compile_pg.go:62-199 | for conditions on distinct attributes, consents and scores: compiler and interpreter agree on every database and profile if and only if no attribute stands under an odd number of Nots |
| `AudienceAgreement.AgreementAcrossGaps` | internal/audience/compile_pg.go:62-199 | with event history and empty groups, where each dropped condition is neutral in its group: a selected profile matches, and the two agree if and only if they do on the tree that is left |
| `AudienceAgreement.NegatedAttribute` | internal/audience/compile_pg.go:96-127 | a negated attribute condition agrees if and only if the comparison is not NULL |
| `AudienceAgreement.EmptyOr` | internal/audience/compile_pg.go:80-94 | an empty Or selects every profile and matches none |
| `AudienceAgreement.HistoryIsDropped` | internal/audience/evaluate.go:71-91 | an event-history audience selects everyone, so it agrees exactly where the history holds |
| `AudienceAgreement.HistoryCountsEvents` | internal/audience/evaluate.go:71-91 | on a profile with an external id an event-history condition asks for at least one event and at least minCount of them, and `has_not_occurred`, no other operator, answers the opposite |
| `AudienceAgreement.HistoryWithoutExternalId` | internal/audience/evaluate.go:76-78 | without an external id the answer is yes exactly for `has_not_occurred` |
| `AudienceAgreement.CompanyIsRefused` | internal/audience/evaluate.go:93-95 | a company condition compiles and Matches fails on it |
| `AudienceAgreement.ConsentOfApp` | internal/audience/evaluate.go:67-69 | evaluated for any app, a consent condition is answered as if the profile belonged to that app; it agrees if and only if both apps' newest consents answer alike |
| `AudienceAgreement.OtherAppMisses` | internal/audience/compile_pg.go:129-145 | a consent given in the profile's app only is missed for every other app |
| `JourneyGraph.FindNextNode` | internal/journey/nodes.go:884-891 | the loop finds the first edge with that source and branch |
| `JourneyGraph.FindNextExact` | internal/journey/nodes.go:884-891 | a target is found exactly when such an edge exists, and it is that edge's |
| `JourneyValidate.WantedLabels` | internal/journey/validate.go:264-273 | the labels are accepted exactly when none is empty or repeated |
| `JourneyValidate.ValidateExactBranches` | internal/journey/validate.go:263-289 | accepts exactly when the edges' branches are a permutation of the labels |
| `JourneyValidate.ValidateOutgoing` | internal/journey/validate.go:176-261 | accepts exactly the branch sets the node type allows |
| `JourneyValidate.Expand` | internal/journey/validate.go:291-306 | one expansion keeps the search invariant and marks only targets of edges |
| `JourneyValidate.ReachableNodes` | internal/journey/validate.go:291-306 | the search terminates with exactly the nodes reachable by a path of edges |
| `JourneyValidate.ValidateNodes` | internal/journey/validate.go:17-61 | accepts exactly unique non-empty ids, valid configs and one matching entry |
| `JourneyValidate.IndexEdges` | internal/journey/validate.go:63-72 | accepts exactly closed edges and indexes each by its source |
| `JourneyValidate.CheckOutgoing` | internal/journey/validate.go:74-78 | accepts exactly when every node's branches are right |
| `JourneyValidate.CheckReachable` | internal/journey/validate.go:80-91 | accepts exactly when every node is reachable and an exit exists |
| `JourneyValidate.Validate` | internal/journey/validate.go:12-92 | accepts exactly the graphs of the declarative specification |
| `JourneyNodes.ChooseSplit` | internal/journey/nodes.go:422-516 | the loops over the branches refine the choice the progress proof speaks of |
| `JourneyNodes.SplitChoosesBranch` | internal/journey/nodes.go:422-516 | a runnable split always chooses one of its own labels |
| `JourneyBranches.RandomSplitAt` | internal/journey/nodes.go:444-456 | while the weights do not wrap, a bucket from the weights before a branch up to those through it takes that branch, and the last branch takes what is left |
| `JourneyBranches.RandomSplitIff` | internal/journey/nodes.go:444-456 | with the labels of an accepted graph a branch is chosen for exactly those buckets |
| `JourneyBranches.RandomShares` | internal/journey/nodes.go:444-456 | when the weights sum to 100, each branch takes as many of the 100 buckets as its weight says |
| `JourneyBranches.AcceptedIsLabelled` | internal/journey/validate.go:187-202 | the validator's exact branches give every split distinct, non-empty labels |
| `JourneyBranches.AudienceSplitAt` | internal/journey/nodes.go:456-475 | the first branch whose segment holds the profile; with none the last branch without a segment; with none of those the last branch |
| `JourneyBranches.SplitTaken` | internal/journey/nodes.go:422-484 | the run follows the first edge of the chosen branch, with an experiment that of the stored variant whatever mode, weights and segments say |
| `JourneyBranches.ReplyTaken` | internal/journey/nodes.go:323-420 | a model's or extension's reply is followed exactly when it names a declared branch, and otherwise the fallback |
| `JourneyBranches.FlagTaken` | internal/journey/nodes.go:802-851 | the variant's branch, `default` when the flag has none; a missing key or a failing call is an error |
| `JourneyBranches.ConditionTaken` | internal/journey/nodes.go:285-322 | `true` when the profile matches, `false` when it does not |
| `JourneyBranches.GoalReachedIff` | internal/journey/nodes.go:573-597 | exactly goal nodes set the goal, and no node clears it |
| `JourneyNodes.ExecuteProgresses` | internal/journey/nodes.go:216-891 | on an accepted, runnable graph every execution whose store calls succeed completes at an exit, waits at a wait_event, or follows an existing edge, not before the hold time |
| `JourneyRuntime.Runtime.constructor` | internal/postgres/journey_runtime.go:61-130 | an enrolled run stands at the entry with one pending step |
| `JourneyRuntime.Runtime.ClaimJourneyStep` | internal/postgres/journey_runtime.go:212-257 | for an active version, a claim takes a due step that matches its run, counts the attempt and sets the lease; otherwise, and when the index refuses it, nothing changes |
| `JourneyRuntime.Runtime.FailJourneyStep` | internal/postgres/journey_runtime.go:264-273 | a failed step waits a minute, or is dead after ten attempts, whatever its status was |
| `JourneyRuntime.Runtime.AdvanceRunTx` | internal/postgres/journey_runtime.go:314-447 | only a processing step that still matches its run moves it, finishing the step and adding the next in one transaction; a refused insert fails the step instead |
| `JourneyRuntime.Runtime.RescheduleJourneyStep` | internal/postgres/journey_runtime.go:275-284 | the step is put back whatever its status, unless the index refuses it and it fails |
| `JourneyRuntime.Runtime.RetryJourneyStep` | internal/postgres/journey_runtime.go:1064-1082 | the step is put back with all its attempts whatever its status, unless the index refuses it |
| `JourneyRuntime.Runtime.ProcessClaimed` | internal/journey/runtime.go:25-70 | a claimed step is processed as the step relation says |
| `JourneyRuntime.Runtime.ProcessNode` | internal/journey/runtime.go:71-199 | the late policies skip, reschedule and run, and the execution with its transaction |
| `JourneyEffects.LateIsSkipped` | internal/journey/runtime.go:81-132 | under `skip` a late step executes nothing: the run goes along the node's first edge, due at once, or completes where there is none |
| `JourneyEffects.LateIsRescheduled` | internal/journey/runtime.go:133-152 | under `reschedule` a late step is put back with all its attempts, a delay for its own duration, any other node for the threshold |
| `JourneyEffects.OnTimeIsExecuted` | internal/journey/runtime.go:154-199 | on time, or under `run_anyway`, the run becomes what the execution says, its step is finished and the next step is pending at its own time |
| `JourneyEffects.FailureIsRetried` | internal/postgres/journey_runtime.go:264-273 | a failed load, execution or transaction moves nothing; the step is due again a minute later, and dead once ten attempts were made |
| `JourneyEffects.EventWakesIff` | internal/postgres/journey_runtime.go:847-943 | a matching event moves a waiting run along its first success edge and finishes its timeouts; it changes nothing when the run does not wait, has no such edge or has an advance step open |
| `JourneyEffects.CancelEnds` | internal/postgres/journey_runtime.go:175-210 | a cancellation ends a run that has not ended and removes every unfinished step |
| `JourneyEffects.EndedForever` | internal/postgres/journey_runtime.go:314-447 | over every sequence of operations a completed or cancelled run is never moved again |
| `JourneyRuns.ExecuteShape` | internal/journey/nodes.go:216-891 | run status, next node and next step of every result agree, and a move follows an edge |
| `JourneyRuns.InvStep` | internal/journey/runtime.go:25-209 | every claim, processing, crash, lost write, wake-up, cancellation and retry keeps the one-token invariant unless, in the state before it, it reopens a closed step |
| `JourneyRuns.TokenKeptIff` | internal/postgres/journey_runtime.go:264-284 | in every state of the invariant an operation keeps the token if and only if it does not fail or reschedule a held step that an event has finished, nor retry a superseded or finished step that the index lets through |
| `JourneyRuns.AtMostOneBusy` | internal/postgres/migrations/016_journey_runtime.sql:45-47 | over every sequence of operations on any graph, with no other hypothesis, a run never has two pending or processing steps |
| `JourneyRuns.TokenConserved` | internal/journey/runtime.go:71-183 | over every run on an accepted graph in which nothing closed is reopened: one outstanding step at the run's own node until the end, none after, always at a node reachable from the entry |
| `JourneyRuns.UndisturbedTokenConserved` | internal/journey/runtime.go:71-183 | the same for every run without wake-ups and retries, with nothing more assumed |
| `JourneyTiming.CompletesOnlyAtExit` | internal/journey/runtime.go:71-183 | on an accepted graph, where nothing closed is reopened, a run completes only at an exit, on the late-skip path too unless another node is without an edge |
| `JourneyTiming.UndisturbedCompletesOnlyAtExit` | internal/journey/runtime.go:71-183 | the same for every run without wake-ups and retries |
| `JourneyTiming.OnlyExitsEndIff` | internal/journey/validate.go:176-261 | an accepted graph has only exits without an edge if and only if no split is without branches and no feature flag without edges |
| `JourneyTiming.DelaysNeverShortened` | internal/journey/nodes.go:253-283 | where nothing closed is reopened, nobody retries by hand and the clock does not go back within a tick, no step moves a run before the delay or wait of the node before it is over, however steps fail, are rescheduled or reclaimed |
| `JourneyTiming.UndisturbedDelaysNeverShortened` | internal/journey/nodes.go:743-800 | the same for every run without wake-ups and retries |
| `JourneyTiming.ActionMovesIff` | internal/journey/nodes.go:517-572 | with every other call succeeding, executing an action moves the run if and only if the store accepts its event: it names an application, and it is new or reads the stored microsecond; otherwise the step fails |
| `JourneyTiming.ActionNeverLeft` | internal/journey/nodes.go:525 | as the code stands, with no application in the action's principal, a run that comes to an action never leaves it by any sequence of operations, unless late steps are skipped or the run is cancelled |
| `JourneyTiming.ActionLeftAtOneTime` | internal/postgres/store.go:223-290 | without late-skip, over every sequence of operations, all steps that leave one action read one microsecond, so a cycle through it is not passed twice at different times |
| `JourneyTiming.WedgedForever` | internal/journey/nodes.go:517-572 | without late-skip, no sequence of claims, processings, crashes, wake-ups, retries and sweeps moves a run off an action whose event is refused until it is cancelled |
| `JourneyTiming.CrashAfterActionWedges` | internal/journey/nodes.go:149-154 | were the events of actions accepted, a crash between the event of an action and its transaction would lead there |
| `JourneyProgress.TickMovesIff` | internal/journey/runtime.go:71-183 | on a runnable graph, in every state the invariant allows, a tick whose store calls succeed completes the run at an exit, begins a wait or follows an edge if and only if the node is no action, or its event is accepted then, or the step is skipped as late; otherwise the run stays |
| `JourneyProgress.AcyclicJourneysEnd` | internal/journey/runtime.go:25-209 | on a runnable graph whose edges all go down, without actions or with accepted ones, successful ticks bring an enrolled run to an exit within twice the entry's rank plus two, and until then every due moment allows the next |
| `JourneyExample.ShortestIsRunnable` | internal/journey/validate.go:12-92 | an entry followed by an exit is accepted and runnable |
| `JourneyExample.ShortestCompletes` | internal/journey/runtime.go:25-209 | two successful ticks complete that journey |
| `JourneyWitness.OvertakenTimeoutReopens` | internal/postgres/journey_runtime.go:847-943 | on an accepted graph a run is reached with two live steps: a timeout is claimed, the awaited event finishes it, and the worker fails it again |
| `JourneyNodes.SplitFailsIff` | internal/journey/nodes.go:422-516 | on every accepted graph, a split without an experiment and of a supported mode, with working store calls, fails if and only if it has no branches |
| `JourneyWitness.EmptySplitIsAcceptedAndStuck` | internal/journey/validate.go:187-202 | the validator accepts a graph with such a split |
| `JourneyWitness.LateSkipCompletesAtSplit` | internal/journey/runtime.go:79-103 | under `skip` a run is reached there that has completed at the split, which is no exit |
| `Enrollment.ChooseSequence` | internal/journey/enroll.go:63-123 | the policy branches choose the sequence, or none, from the runs read |
| `Enrollment.Store.ReadRuns` | internal/postgres/store.go:976 | a worker remembers the choice made from the runs it read; an event waits while another of the profile enrols under the row lock, and no key enters a version of the other kind |
| `Enrollment.Store.EnrollJourneyRun` | internal/postgres/journey_runtime.go:61-130 | the insert adds a run exactly when (entry key, sequence) is free |
| `Enrollment.SerialKeysKeepPolicy` | internal/journey/enroll.go:63-123 | in every interleaving that shares an entry key, or enrols by events: `once` yields one run at most, `after_exit` never two live runs, no policy more than MaxReentries + 1, and sequences are distinct |
| `Enrollment.EventsKeepPolicy` | internal/postgres/journey_runtime.go:725-843 | a journey entered by events keeps its policy in every interleaving without a backfill |
| `Enrollment.OnceIffSerial` | internal/journey/enroll.go:218-272 | `once` holds in every interleaving if and only if the keys that can enter the version are one key or all events |
| `Enrollment.OneLiveIffSerial` | internal/postgres/journey_runtime.go:753-830 | the same for the single live run of `after_exit` |
| `Enrollment.RaceMakesTwoLiveRuns` | internal/postgres/migrations/016_journey_runtime.sql:22 | two workers with different entry keys that can enter the version, not both events, make two live runs |
| `Enrollment.SlotFiresOnce` | internal/journey/enroll.go:63-123 | under `always` a schedule slot fires at most once for a profile, in every interleaving |
| `Enrollment.EnrolledIff` | internal/journey/enroll.go:78-98 | with no other plan open, on counting sequences and outside slots: a run is added, with the next sequence, if and only if the version takes the key, fewer runs exist than the policy allows and, under `after_exit`, none is live |
| `Enrollment.SlotEnrolledIff` | internal/journey/enroll.go:69-77 | a slot under `always` is enrolled if and only if the version is scheduled, at most MaxReentries runs exist and the slot has not fired for the profile |
| `Enrollment.BoundAttained` | internal/journey/enroll.go:95-98 | for every version and every key it takes outside slots, some run of workers makes exactly as many runs as the policy allows; every version takes such a key |
| `JourneyDelivery.Worker.DeliverNext` | internal/journey/deliver.go:35-594 | one pass over a claimed intent, with every failing write and crash, refines the pass the theorems speak of |
| `JourneyDelivery.Worker.SendMessage` | internal/journey/deliver.go:453-525 | sending, storing provider_sent and publishing, with each write failing |
| `JourneyDelivery.Worker.Publish` | internal/journey/deliver.go:527-580 | message.sent is accepted before `sent` is stored |
| `JourneyDelivery.Worker.Update` | internal/postgres/journey_runtime.go:983-1011 | a stored update replaces the intent, a failed one leaves it |
| `JourneyGate.CallsIff` | internal/journey/deliver.go:228-525 | a pass calls the provider, once, if and only if the intent is claimable and unsettled, nothing fails on the way, the instant is outside the quiet window, suppression is found false, for a marketing message consent is `subscribed` and no cap is reached, and it renders |
| `JourneyGate.CallsAreGated` | internal/journey/deliver.go:35-594 | over every run of passes and retries there are as many calls as passes that met that gate when they began |
| `JourneyGate.RefusalStored` | internal/journey/deliver.go:319-338 | a message the facts forbid is completed as suppressed, without consent or fatigued exactly on those facts, and as a failed send when a fact cannot be read |
| `JourneyGate.SendStored` | internal/journey/deliver.go:453-580 | the status and decision each answer of the provider stores, by attempts and by what happens to the event |
| `JourneyGate.RenderingStored` | internal/journey/deliver.go:356-420 | a message that does not render is completed as such, and given up by a panic, without a call |
| `JourneyGate.SetupStored` | internal/journey/deliver.go:95-250 | what a missing application, template, token or identity, a settled decision and a failing profile store |
| `JourneyGate.UnstoredIsClaimed` | internal/postgres/journey_runtime.go:945-981 | a pass that dies after its claim, or whose write fails, leaves the claimed intent |
| `JourneyDelivery.DuplicateSuppression` | internal/journey/deliver.go:228-256 | over every run from a fresh intent, sends are at most one more than the sends whose outcome was never stored; message.sent exists only after a stored provider_sent, and `sent` only with it |
| `JourneyDelivery.NeverSentAgain` | internal/journey/deliver.go:228-256 | after provider_sent or a terminal decision no later pass or retry calls Send |
| `JourneyDelivery.EventIsStable` | internal/postgres/store.go:223-290 | a stored message.sent is never replaced |
| `JourneyDelivery.LostLastWriteNeverCompletes` | internal/journey/deliver.go:527-580 | when the last write is lost, no pass at another microsecond reaches `sent` |
| `JourneyDelivery.ReconciledIff` | internal/journey/deliver.go:527-580 | a pass over such an intent in which nothing fails reaches `sent` if and only if it reads the stored microsecond, and else leaves provider_sent |
| `JourneyDelivery.OnlyOneEndpointIsRecordedSent` | internal/journey/deliver.go:544 | over every interleaving of passes and retries on the endpoints of a message node, at most one is recorded as sent |
| `JourneyDelivery.HoldoutNeverSent` | internal/journey/deliver.go:228-256 | no pass changes a completed holdout intent |
| `JourneyDelivery.RetriedHoldoutIsSent` | internal/postgres/journey_runtime.go:1084-1100 | a retried holdout intent is delivered whenever any other intent would be |
| `JourneyDelivery.PostponedUntilOpen` | internal/journey/deliver.go:260-283 | a postponed intent spends no attempt and is not claimable while it is quiet; it is claimable at the new time, and then not postponed again, if and only if it had attempts left before the pass |
| `JourneyDelivery.ReclaimedInQuietHoursIsStranded` | internal/postgres/journey_runtime.go:957-960 | an intent on its last attempt whose worker dies, reclaimed in quiet hours, is stored pending and never taken again by any pass |
| `CampaignDelivery.Delivery.DeliverRecipient` | internal/campaigns/deliver.go:112-449 | one recipient, with every failing call, refines the step the theorems speak of |
| `CampaignDelivery.Delivery.DeliverJob` | internal/campaigns/deliver.go:109-449 | the recipient loop, its interruption by a panic, and the job marked for retry exactly after a transient send failure |
| `CampaignDelivery.JobIsRun` | internal/campaigns/deliver.go:109-449 | a job is a run of a prefix of its recipients, of all of them unless interrupted |
| `CampaignGate.CallsIff` | internal/campaigns/deliver.go:112-341 | a delivery calls the provider, once, if and only if nothing fails before it, the attempt is new or open and not already delivered, the profile is not held out, the facts allow the message and it renders |
| `CampaignGate.CallsAreGated` | internal/campaigns/deliver.go:109-449 | over any deliveries the provider is called for exactly those |
| `CampaignGate.RefusalStored` | internal/campaigns/deliver.go:202-300 | the first obstacle is what is stored: holdout, a profile that does not load, the policy's reason by its facts, a message that does not render |
| `CampaignGate.SendStored` | internal/campaigns/deliver.go:341-428 | the decision each answer of the provider stores, by the writes and the event |
| `CampaignGate.ReconciliationStored` | internal/campaigns/deliver.go:341-428 | a delivered attempt that is still eligible publishes its event without a call and is sent when that and the last write succeed |
| `CampaignGate.OutcomeIff` | internal/campaigns/deliver.go:431-448 | a job is interrupted exactly when its worker dies on some recipient, and otherwise marked for retry exactly when some recipient's message failed transiently |
| `CampaignDelivery.ClosedAfterIff` | internal/campaigns/deliver.go:112-428 | a delivery leaves the recipient's attempt closed if and only if it was closed before or a final decision is stored, by gates, send outcome, event and writes |
| `CampaignDelivery.CompletedJobIsClosedIff` | internal/campaigns/deliver.go:431-448 | a completed job has every recipient's attempt closed if and only if each was closed before it or stored a final decision in it |
| `CampaignDelivery.CompletedJobLeavesOpenAttempt` | internal/campaigns/deliver.go:414-448 | a completed job leaves an attempt open when its event is refused |
| `CampaignDelivery.Delivery.SendMessage` | internal/campaigns/deliver.go:341-428 | sending, provider_sent and publishing, with each write failing |
| `CampaignDelivery.DuplicateSuppression` | internal/campaigns/deliver.go:117-143 | each endpoint gets at most one send more than the sends no write recorded, over any re-deliveries |
| `CampaignDelivery.ClosedStaysClosed` | internal/campaigns/deliver.go:117-143 | a terminal stored decision is never changed, and neither it nor provider_sent leads to another call of Send |
| `CampaignDelivery.HoldoutNeverSent` | internal/campaigns/deliver.go:202-237 | a profile whose stored variant is holdout is never sent to, whatever is computed later |
| `CampaignDelivery.OnlyOneEndpointIsRecordedSent` | internal/campaigns/deliver.go:341-428 | the shared event key lets at most one endpoint of a profile be recorded as sent |
| `CampaignDelivery.DeliveredButRecordedFatigued` | internal/campaigns/deliver.go:202-340 | a delivered message being reconciled is recorded as fatigued if and only if the policy now says so, and then no event is published |
| `Policy.Evaluate` | internal/policy/policy.go:32-131 | the early returns give the decision and a snapshot that explains it |
| `Policy.EligibleIff` | internal/policy/policy.go:32-131 | a send is allowed exactly when suppression and consent are readable and favourable and every positive cap is not reached; a refusal names the first fact that forbids it |
| `Policy.FatigueWindows` | internal/policy/policy.go:84-131 | over every run, a window of a day (a week) less the recording lag holds no more sends than the cap and those the store does not count |
| `Policy.FullWindowIff` | internal/postgres/delivery.go:104-115 | the full daily and weekly windows are capped for every run if and only if no send is recorded before it was evaluated and every send is counted |
| `QuietHours.AnswerIsWindow` | internal/journey/quiethours.go:45-77 | quiet exactly inside the local window, wrapping midnight |
| `QuietHours.QuietUntilEnd` | internal/journey/quiethours.go:45-77 | every instant before the end gives the same answer |
| `QuietHours.QuietEndsAtFirstOpenInstant` | internal/journey/quiethours.go:45-77 | the returned instant is later than now, within a day, not quiet, and the first such |
| `Experiment.BucketOf` | internal/experiment/assign.go:15-24 | a bucket below the modulus |
| `Experiment.Assign` | internal/experiment/assign.go:26-59 | the loops with uint64 arithmetic refine the outcome about which apportionment is proved |
| `Experiment.ServedInterval` | internal/experiment/assign.go:32-57 | a bucket gets a variant exactly when it lies in the variant's interval; the final fallback is unreachable |
| `Experiment.ExactApportionment` | internal/experiment/assign.go:32-57 | each variant's count differs from its quota by less than one, and zero weights get nobody |
| `Experiment.HeldSize` | internal/experiment/assign.go:32-41 | holdout takes exactly 100 buckets a percent, whatever the weights |
| `Experiment.SharesSumToAllBuckets` | internal/experiment/assign.go:26-59 | holdout and variants together are the 10,000 buckets |
| `Experiment.NoVariantIff` | internal/experiment/assign.go:38-47 | nobody is served if and only if the bucket is outside the holdout and the sum of the positive weights is zero modulo 2^64 |
| `Experiment.WrappedTotalServesNobody` | internal/experiment/assign.go:38-47 | positive weights with such a sum exist |
| `Flags.FindVariant` | internal/flags/evaluate.go:30-108 | the first variant with that name, or none |
| `Flags.Evaluate` | internal/flags/evaluate.go:30-108 | targeting, gate and variant choice refine the evaluation the rollout theorems speak of |
| `Flags.OffAnswersDefault` | internal/flags/evaluate.go:32-39 | a flag that is off answers its default for every digest and all rule answers, and no other flag gives that reason |
| `Flags.TargetedIff` | internal/flags/evaluate.go:41-60 | the reason is targeted, with that variant and value, if and only if the flag is on and the first rule that matches or errors is a match that names them |
| `Flags.FailedIff` | internal/flags/evaluate.go:41-60 | evaluation errors if and only if the flag is on and the first such rule errors or names a variant the flag has not |
| `Flags.UntargetedIsRollout` | internal/flags/evaluate.go:62-108 | with every rule answering no the result is the rollout's |
| `Flags.RolloutIsSticky` | internal/flags/evaluate.go:62-100 | raising the percentage never changes what a subject in the rollout gets, whatever the rules answer |
| `Flags.ServedAt` | internal/flags/evaluate.go:62-100 | a variant reaches exactly its interval cut off at the threshold |
| `Flags.RolloutFillsInOrder` | internal/flags/evaluate.go:62-100 | once a variant reaches anyone, every earlier one reaches everyone it ever will |
| `Flags.AdmitsEveryoneIff` | internal/flags/evaluate.go:62-75 | the gate admits every bucket if and only if the percentage is 100 or more, or negative; the store (internal/postgres/flags.go) keeps all but 0 to 100 out |
| `S3Source.CursorRoundTrip` | internal/connector/s3.go:173-183 | cursor text round-trips, also for keys with colons |
| `S3Source.TakeRows` | internal/connector/s3.go:106-113 | rows move from what is left to what is out, and the cursor denotes the rest |
| `S3Source.Read` | internal/connector/s3.go:64-116 | a page is the first rows of what its cursor denotes, as many as the limit allows, and its next cursor denotes the rest; errors keep the cursor |
| `S3Source.PagesPartitionRows` | internal/connector/s3.go:64-116 | pages and the remainder concatenate to what was left, for any limits |
| `S3Source.SyncReadsEverything` | internal/connector/s3.go:64-116 | reading from the empty cursor until an empty page returns every row of every supported object once, in key order |
| `S3Source.PageMakesProgress` | internal/connector/s3.go:64-116 | a page is empty exactly when nothing is left, and otherwise less is left |
| `S3Source.SyncIsBounded` | internal/connector/s3.go:64-116 | no more non-empty pages than rows |
| `SourceSync.MakeSourceEvents` | internal/operations/operations.go:650-704 | events, each with its own clock reading, and rejects split the rows, rejecting exactly those without identity |
| `SourceSync.EventMatchesRow` | internal/operations/operations.go:664-704 | every identified row has its event at its place among them, with that row's identity, body and clock reading and the key of its position |
| `SourceSync.KeyInjective` | internal/operations/operations.go:650-704 | an idempotency key determines cursor and row |
| `SourceSync.KeysUniqueOverSync` | internal/operations/operations.go:650-704 | no two rows of a whole sync share a key |
| `SourceSync.AcceptKeeps` | internal/postgres/store.go:223-290 | an accepted batch keeps every stored event and adds exactly its own |
| `SourceSync.ReplayedPage` | internal/postgres/store.go:223-290 | syncing an accepted page again leaves the store as it is; a batch is accepted again exactly when it does not fail and each of its rows reads the same microsecond |
| `SourceSync.Sync` | internal/operations/operations.go:592-637 | rows in are rows out plus rows rejected; the store and the rows out are those of the batches in order; commit exactly when every batch was accepted; failed exactly when nothing was |
| `AIGateway.Gateway.Generate` | internal/ai/gateway.go:134-350 | every path, with each failing write, refines the call the theorems speak of |
| `AIGateway.Gateway.CheckBudget` | internal/ai/gateway.go:95-115 | refuses when usage is unreadable or has reached a positive budget |
| `AIGateway.OneAuditTwoCalls` | internal/ai/gateway.go:134-350 | each call attempts one activity row and asks the provider at most twice |
| `AIGateway.ReturnedIsAudited` | internal/ai/gateway.go:134-350 | a returned reply was valid, within the per-call limit, and is stored as allowed with its whole usage, tokens and cost |
| `AIGateway.ReturnedIff` | internal/ai/gateway.go:134-350 | a reply is returned if and only if policy, budget and per-call limit allow the call, the activity is stored, and the first reply is valid and affordable or its repair is |
| `AIGateway.ActivityIff` | internal/ai/gateway.go:134-350 | the activity says policy, budget, error or allowed exactly on the facts that decided the call |
| `AIGateway.BudgetOvershoot` | internal/ai/gateway.go:95-132 | usage never exceeds budget - 1 plus the cost of one call, whatever writes fail |
| `AIGateway.ChargeMatchesAudit` | internal/ai/gateway.go:117-132 | a call charges what it audits, except the first of two invalid replies |
| `AIGateway.LedgerVersusAudit` | internal/ai/gateway.go:134-350 | over a run, ledger and audit trail agree if and only if those unaudited replies cost nothing |
| `CircuitBreaker.Host.Invoke` | internal/extension/host.go:109-296 | denials, breaker, transport and health writes refine the step the theorems speak of |
| `CircuitBreaker.AttemptedIff` | internal/extension/host.go:109-225 | the transport is called, once, if and only if the extension resolves, the circuit is not open or opened more than 30 seconds ago, and no check denies the call |
| `CircuitBreaker.AuditedAs` | internal/extension/host.go:109-296 | the audit row names the circuit, the denial or the result that decided the invocation |
| `CircuitBreaker.TripsAfterFive` | internal/extension/host.go:260-283 | over every run the stored health counts the stored failures since the last stored success, and the circuit is closed exactly while there are fewer than five |
| `CircuitBreaker.BreakerCoolsDown` | internal/extension/host.go:150-167 | with a monotone clock and every failure stored, every transport call after five consecutive failures comes more than 30 seconds after the last of them, whatever other health writes are lost |
| `CircuitBreaker.FailedProbeReopens` | internal/extension/host.go:260-286 | one failed probe reopens the circuit at the time of that failure |
| `CircuitBreaker.LostWritesStayGuarded` | internal/extension/host.go:150-167 | whatever writes are lost, `open` carries its time and the stored record is respected |
| `CircuitBreaker.CoolDownIffNoFailureLost` | internal/extension/host.go:260-286 | all monotone runs that lose at most k failures cool down if and only if k is zero |
| `RateLimiter.IPRateLimiter.constructor` | internal/httpapi/publicguard.go:41-55 | no buckets, and usable rate and burst for any arguments |
| `RateLimiter.IPRateLimiter.Allow` | internal/httpapi/publicguard.go:57-82 | the bucket map and the answer are those of the step the theorems speak of |
| `RateLimiter.AdmittedIff` | internal/httpapi/publicguard.go:57-82 | a request is admitted if and only if its address is new or its tokens and what the clock has added make a whole one |
| `RateLimiter.FirstBurstAdmitted` | internal/httpapi/publicguard.go:64-81 | the first burst of requests of a new address is admitted, whatever the clock and other addresses do |
| `RateLimiter.RunInRange` | internal/httpapi/publicguard.go:57-82 | tokens stay between zero and burst over every run |
| `RateLimiter.TokensPayForAdmissions` | internal/httpapi/publicguard.go:57-82 | admissions plus tokens left are at most tokens before plus rate times the advance of `seen`, for any clock |
| `RateLimiter.WindowBound` | internal/httpapi/publicguard.go:57-82 | requests in one window are admitted at most burst + rate × length times |
| `RateLimiter.OthersHaveNoInfluence` | internal/httpapi/publicguard.go:57-82 | dropping all other addresses' requests changes nothing |

## Left out

- HTTP handlers, authentication, token signing, channel adapters, provider clients and Wasm transports: foreign calls.
- SHA-256, JSON, CSV, Liquid and the regular-expression engine: digests and parsed values are parameters; the two expressions used are written out as predicates.
- internal/audience/parse.go: trees are taken as parsed; every tree is allowed, so nothing is assumed of the parser.
- Casts in audience SQL that fail at run time: comparisons are total.
- The join behind a company condition is one function of the database; Matches refuses such conditions anyway.
- SQL beyond the conditions, subqueries and query heads the compiler writes: the reader of AudienceReader reads nothing else.
- CompileProfileRows and the set-based segment resolution of internal/postgres/segments.go: the same condition under another column list.
- AudienceSyntax.AgreesEverywhereIff: trees that read one attribute, consent or score twice are covered by CompilerAgreesWithMatches, whose condition depends on the profile.
- Termination of journeys with cycles: the validator accepts them and they need not end.
- Overlapping leases: two workers that process the same step, intent or recipient at once.
- The tenant's limit of ten messages in progress and the choice between runs in a claim; a claim here names its step or intent.
- Message intents written by a message node and the profile merge of an action: they do not decide where a run goes.
- Cron text of schedules: a schedule is valid or not, and a slot is a number.
- Daylight-saving zones in quiet hours; zones have a fixed offset.
- Rounding: float64 tokens are real numbers.
- Telemetry, contexts, timeouts and message texts.
- JourneyTiming.DelaysNeverShortened: retries by hand are excluded, because RetryJourneyStep sets the step due at once by design; worker and database are taken to share a clock within a tick.
- Policy.FatigueWindows: sends of one profile are serialised, as the fatigue count assumes.
