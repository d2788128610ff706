# OceanX protocols, modelled and proved

OceanX keeps long research alive across interruptions: a durable hypothesis tree that three actors
change, histories repaired before every model call, bounded recovery of model delivery, resumable
downloads, a shared token ledger and closed exports. This project models those protocols in Dafny
and proves what they promise over every input and every run.

Verify everything with `dafny verify dfyconfig.toml`.

## How it is organised

Each protocol has a specification as functions, the same protocol as loops and in-place updates
proved equal to it, and lemmas about the specification. The `Outcomes`, `Actions`, `Outputs` and
`Notices` modules say what a caller sees of each operation without the functions that compute it:
exactly when it is accepted and exactly what it then leaves.

| part | files |
|---|---|
| repair of tool exchanges, compaction of older code exchanges | `ToolHistory`, `ToolHistoryProofs`, `ToolHistoryPreservation`, `ToolHistoryNotices`, `ExpertContext`, `ExpertContextProofs`, `ExpertContextOutcomes`, `Messages` |
| research tree: Coordinator, wave router and Experts over one stored tree | `RootedTree`, `ResearchTree`, `ResearchStore`, `ResearchTreeProofs`, `ResearchRuns`, `ResearchEffects`, `ResearchOutcomes`, `ResearchActions`, `ExpertOutcomes` |
| Expert test facts in the observation journal | `TestNotes`, `TestNotesProofs`, `TestNotesOutcomes` |
| archived first tree protocol | `Legacy`, `LegacyStore`, `LegacyProofs`, `LegacyRuns`, `LegacyResolution`, `LegacyOutcomes` |
| recovery of model delivery, projection of the run tree | `ModelRecovery`, `RecoveryOutcomes`, `RunEvents`, `RunEventsProofs`, `RunEventsOutputs` |
| downloads that survive crashes, and the worker pool | `Transfer`, `TransferOutcomes`, `Era5`, `Era5Outcomes`, `ChunkPool` |
| curator ledger, export closure | `CuratorBudget`, `CuratorOutcomes`, `ExportClosure` |

Conventions. A transaction is one atomic step; a raised error is a failure result and leaves the
store as it was. Clocks and identifiers are parameters. Case folding, derived test ids, verifiers and
hashes are arbitrary functions; where a proof needs more it is a named premise: JSON is read back and
has the length `json.dumps` gives it (`TestNotes.Lawful`), two snapshots of one WorkOrder have
different digests (`TestNotesProofs.NoCollision`), file names follow the planners' pattern
(`Transfer.Naming`). A crash is a parameter that cuts a run after
any number of durable changes, so a theorem about any list of runs covers any schedule of crashes.

## What the code does not quite do

- A tool result that carries an id does not consume its place in the queue of positional ids. Results
  pair by position exactly when no such result stands before a blank one
  (`ToolHistoryProofs.PositionalPairing`; `MixedExchangeLosesAnAnswer` is a history whose second
  answer is dropped).
- An excerpt is shorter than the text of its stream exactly when that text is longer than the kept ends
  and the reference line (`ExpertContextProofs.ExcerptShrinksExactly`); with a long log path the
  replacement text is the longer one (`LongPathGrowsTheStream`).
- The journal ignores a row it already holds, so writing an older snapshot again is lost
  (`TestNotesProofs.RewindIsLost`). A write is read back exactly when it is new or current
  (`WriteIsReadBackExactly`), and Expert calls never write anything else (`ExpertNotesAreDurable`).
- In the archived protocol feedback is accepted while paused. A recorded resolution of an iterative tree
  stays right exactly when no feedback leaves a gap: the node it is about must be closed, have an open
  child or be supporting; and if the feedback closes it, its parent must be the root, closed, have
  another open child or be supporting (`LegacyResolution.FeedbackExactly`, `ResolutionExactly`,
  `ResolutionsAreRight`). Both ways to fail are there: open feedback on a key gap
  (`OpenFeedbackReopens`) and feedback that closes the last open child of one
  (`ClosingFeedbackReopensParent`, and `SolvingTheDetailBreaksIt` on a sound tree of three nodes).
- A summary turn or a tool start after the final answer makes the recovery loop ask again
  (`RunEventsProofs.DeliveredExactly`, `SummaryAfterAnswerIsLost`).
- A crash can leave an ERA5 checkpoint that no longer opens, or, while it is created, one that lacks a
  part; every later run rejects it and none removes it. A clear run succeeds exactly when no run before
  it was cut in such a way (`Era5.ResumesExactly`, `BlockedStops`).
- A review budget's count stays the sum of its own rows exactly as long as no budget returns another
  one's call beyond its reservation (`CuratorBudget.BalancedExactly`).

## Model

| member | source | states |
|---|---|---|
| ToolHistory.NormalizeIds | src/oceanx/tool_history.py:19-48 | the loop over messages with its queue of positional ids computes `Normalize` |
| ToolHistory.RepairToolHistory | src/oceanx/tool_history.py:51-103 | the loop with its dictionary of open calls computes `Repair` |
| ToolHistory.ClosePending | src/oceanx/tool_history.py:57-67 | every open call gets the interruption notice, in the order the calls were opened; `ToolHistoryNotices.RepairedResultsExactly` says what the notices are |
| ToolHistory.RepairIdInjective | src/oceanx/tool_history.py:32 | positional ids of different calls differ, in one message or in two |
| ToolHistoryProofs.RepairIsExchangewise | src/oceanx/tool_history.py:69-102 | the streaming pass is the repair of each exchange on its own: head cleaned, its own block filtered, missing answers added |
| ToolHistoryProofs.RepairIsProviderValid | src/oceanx/tool_history.py:51-103 | for every message list: each result stands directly after an assistant message, answers one of its calls, and each call id is answered exactly once; every call has a non-blank id and a name |
| ToolHistoryProofs.RepairFixesExactlyTheInvalid | src/oceanx/tool_history.py:51-103 | a history is left alone if and only if it already is provider-valid |
| ToolHistoryProofs.RepairIsIdempotent | src/oceanx/tool_history.py:51-103 | repairing twice equals repairing once |
| ToolHistoryProofs.NormalizePointwise | src/oceanx/tool_history.py:19-48 | the first pass changes nothing but blank ids: an assistant message keeps its calls up to the positional ids of the blank ones, and its raw payload unless one was filled; a result keeps its id unless it was blank |
| ToolHistoryPreservation.RepairKeepsHeads | src/oceanx/tool_history.py:51-103 | the messages given that are no results all stay, in order; an assistant message keeps exactly the calls with a non-empty id and name, blank ids replaced by ocean_repair_ with the numbers of message and call, and loses invalid calls and raw payloads |
| ToolHistoryPreservation.RepairKeepsAnswers | src/oceanx/tool_history.py:51-103 | every call left in a message is answered by the first of the results given right after that message which names it once blank ids are filled, otherwise by an error that says the tool of the last call with that id was interrupted |
| ToolHistoryPreservation.BlankExactly | src/oceanx/tool_history.py:15-16 | an id is blank if and only if it is absent or a text of white space alone, the 29 characters that strip removes |
| ToolHistoryPreservation.DecimalReads | src/oceanx/tool_history.py:32 | the numbers in positional ids are written in base ten without leading zeros |
| ToolHistoryNotices.RepairedResultsExactly | src/oceanx/tool_history.py:51-103 | exactly these results follow a message: of those given right after it, blank ids filled, the first for each call; then, in the order of the calls, for every other call an error under its id and the name of the last call with it, saying that the tool execution was interrupted before completion |
| ToolHistoryNotices.InventedResultsAreNotices | src/oceanx/tool_history.py:57-67 | a result that was not given is such an error and answers a call that no given result names |
| ToolHistoryNotices.ResultsWithoutCallsStay | src/oceanx/tool_history.py:42-47 | a blank result that no assistant message stands before, or none since the last other message, gets no id |
| ToolHistoryProofs.NormalizeIsLocal | src/oceanx/tool_history.py:22-46 | the queue never leaks: an exchange inside a history is filled from its own calls only |
| ToolHistoryProofs.PositionalPairing | src/oceanx/tool_history.py:34-44 | results in call order get their own calls' ids if and only if no id-bearing result stands before a blank one |
| ToolHistoryProofs.BlankExchangePairing | src/oceanx/tool_history.py:31-44 | in an exchange without ids the i-th result answers the i-th call |
| ToolHistoryProofs.PairedExchangeKeepsItsResults | src/oceanx/tool_history.py:69-76 | an exchange paired by position keeps its results in order, closes unanswered calls and drops any surplus |
| ToolHistoryProofs.MixedExchangeLosesAnAnswer | src/oceanx/tool_history.py:42-44 | repairing a history of two calls and two answers, the first with an id and the second blank, drops the second answer and reports its call as interrupted |
| ExpertContext.CompactExpertHistory | src/oceanx/expert_context.py:23-138 | the two loops over older exchanges and messages compute `Compact` |
| ExpertContextProofs.CompactKeepsSkeleton | src/oceanx/expert_context.py:106-138 | length, message kinds, call ids, names and result ids are unchanged |
| ExpertContextProofs.CompactThenRepair | src/oceanx/expert_context.py:23-138 | compaction followed by repair is provider-valid and pairs calls and results as repair alone does |
| ExpertContextProofs.ProtectedStayIntact | src/oceanx/expert_context.py:52-66 | the last two completed exchanges and the latest failure are never changed, call or result |
| ExpertContextProofs.AppendKeepsReceipts | src/oceanx/expert_context.py:30-51 | an append with new ids leaves the completed receipts and their calls as they were |
| ExpertContextProofs.CompactIsMonotone | src/oceanx/expert_context.py:50-104 | what is replaced in a history is replaced by the same text after any append with new ids |
| ExpertContextProofs.CompactionSurvivesAppend | src/oceanx/expert_context.py:106-138 | message by message: a compacted call or result reads the same after any append |
| ExpertContextOutcomes.CodeCallsExactly | src/oceanx/expert_context.py:30-36 | the call behind an id is the last code call with that id |
| ExpertContextOutcomes.LatestIsAt | src/oceanx/expert_context.py:48-55 | the failure protected is the last ended code call whose state is not succeeded |
| ExpertContextOutcomes.ResultsExactly | src/oceanx/expert_context.py:56-101 | a result reads as it did unless it answers the call of an exchange that two later ones followed, that is not the latest failure and whose script can be read again: then, as the last such exchange with that id asks, streams over 600 characters kept in a log are cut to their first and last 240 around a line that names the log |
| ExpertContextOutcomes.CallsExactly | src/oceanx/expert_context.py:60-83 | a call keeps its arguments unless such an exchange has a script longer than the two-line note with its path; then the script gives way to the note of the last one, in every call with the id |
| ExpertContextOutcomes.ProseExactly | src/oceanx/expert_context.py:102-136 | an assistant message with such a call loses the script in its content blocks and the raw copy of its calls; any other assistant message stays as it is |
| ExpertContextProofs.ExcerptShrinksExactly | src/oceanx/expert_context.py:93-101 | an excerpt is shorter than the stream if and only if the stream exceeds the kept ends plus the reference line |
| ExpertContextProofs.LongPathGrowsTheStream | src/oceanx/expert_context.py:97-101 | a 601-character stream with a 200-character log path grows |
| RootedTree.DepthOf | src/oceanx/exploration.py:186-191 | the walk to the root terminates and counts the depth |
| RootedTree.RootAboveAll | src/oceanx/exploration.py:186-191 | every key hangs below the root, at a depth no larger than its position |
| RootedTree.DeepestFirstFacts | src/oceanx/exploration.py:237 | the deepest-first order lists every key once, children before parents |
| RootedTree.DeepestFirstIsStable | src/oceanx/exploration.py:237 | keys of one depth are visited in the order in which they were added |
| RootedTree.ChildrenInOrder | src/oceanx/exploration.py:182-184 | the children of a key come in the order in which they were added |
| ResearchStore.GrowHypotheses | src/oceanx/exploration.py:320-336 | the loop over drafts adds each below the parent, refuses a known id or claim, and keeps the tree rooted |
| ResearchStore.GrowTests | src/oceanx/exploration.py:339-363 | the loop over drafts adds tests, skips an identical replan of the same WorkOrder, refuses any other reuse and unknown or root targets |
| ResearchStore.SummarizeOne | src/oceanx/exploration.py:238-244 | one summary computed from the stored summaries of the children is the recursive summary once these are refreshed |
| ResearchStore.Synchronize | src/oceanx/exploration.py:235-244 | the single deepest-first in-place pass computes the recursive summaries of the whole tree |
| ResearchStore.Reserve | src/oceanx/exploration.py:452-471 | the loop over the named tests and the ledger update compute `Reserved`, and the changed flag is set if and only if something changed |
| ResearchStore.TryBegin | src/oceanx/exploration.py:423-473 | a reservation is refused in exactly the listed cases, saves a changed tree and nothing otherwise |
| ResearchStore.DedupDetects | src/oceanx/exploration.py:429 | comparing the sizes detects exactly the lists with a repetition |
| ResearchStore.LinkingChanges | src/oceanx/exploration.py:464-468 | linking a key the test lacks always changes its stored list |
| ResearchStore.RecordFacts | src/oceanx/exploration.py:762-824 | the Expert call computes `ExpertFacts`: scope, ownership and execution checks, then plans, then the result |
| ResearchStore.Store.Save | src/oceanx/exploration.py:379-385 | a save stores the tree under the next revision |
| ResearchStore.Store.CoordinatorCall | src/oceanx/exploration.py:519-647 | a Coordinator action is exactly one step: saved under the next revision, or nothing stored and the same error |
| ResearchStore.Store.DoResearch | src/oceanx/exploration.py:591-644 | the branches propose, plan_test, reflect, mark_infeasible, record and adjudicate compute `Research` |
| ResearchStore.Store.BeginCall | src/oceanx/exploration.py:412-473 | a reservation is exactly one step of the store |
| ResearchStore.Store.ExpertCall | src/oceanx/exploration.py:762-828 | an Expert call on a tree is exactly one step of the store |
| ResearchTreeProofs.SyncedIsCached | src/oceanx/exploration.py:235-244 | recomputing makes every stored summary right and changes nothing else |
| ResearchTreeProofs.AddHypothesesKeeps | src/oceanx/exploration.py:320-336 | normalised claims stay pairwise distinct and existing hypotheses are untouched |
| ResearchTreeProofs.AddTestsKeeps | src/oceanx/exploration.py:339-363 | new tests are never running, carry their WorkOrder and name existing non-root hypotheses; existing tests are untouched |
| ResearchTreeProofs.AdjudicationKeeps | src/oceanx/exploration.py:627-644 | a judgment appends one entry that differs from the last and cites a test on the hypothesis, with two targets if established |
| ResearchRuns.ReservationKeeps | src/oceanx/exploration.py:423-472 | the ledger stays duplicate-free, equal to the number used and within the budget; tests only move up |
| ResearchRuns.ExpertFactsKeep | src/oceanx/exploration.py:790-824 | Expert facts keep every test consistent, touch only own tests in scope and start none |
| ResearchRuns.ExpertsOnlyRecordFacts | src/oceanx/exploration.py:790-828 | Expert calls change no hypothesis, budget, mode or stop decision |
| ResearchRuns.StepKeeps | src/oceanx/exploration.py:412-647 | every call of every actor keeps the whole invariant and undoes nothing |
| ResearchRuns.EveryReachableTree | src/oceanx/exploration.py:412-828 | in every interleaving: rooted tree, distinct claims, fresh summaries, done exactly with a result, todo or running only if feasible, ledger equal to use and within budget, paused exactly with a stop decision, no running test at a final exit |
| ResearchRuns.RunsOnlyGrow | src/oceanx/exploration.py:401-409 | over every run tests only move up todo, running, infeasible, done; results, methods and targets are frozen; judgments and charges are append-only; equal revisions mean equal trees |
| ResearchRuns.NoLostUpdate | src/oceanx/exploration.py:519-520 | after a saved action no second action expecting the same revision is accepted, whatever happened in between |
| ResearchRuns.SummariesAreFresh | src/oceanx/exploration.py:475-647 | in every reachable tree a hypothesis with children stores the recursive summary of its current subtree |
| ResearchRuns.EstablishedIsComparative | src/oceanx/exploration.py:631-635 | an established hypothesis is not the root and cites a stored test on itself and another non-root hypothesis |
| ResearchRuns.OnlyAdjudicationJudges | src/oceanx/exploration.py:217-232 | no other action of any actor changes a judgment, and an adjudication changes only the one it names |
| ResearchRuns.PauseHolds | src/oceanx/exploration.py:569-593 | until a resume, hypotheses, budget and mode are frozen and no test starts running, whatever facts, plans and replays arrive |
| ResearchRuns.ReplayIsFree | src/oceanx/exploration.py:412-473 | a reservation that succeeded is accepted again at any later active iterative moment and charges nothing; if nothing intervened it saves nothing |
| ResearchEffects.ProposalExactly | src/oceanx/exploration.py:320-336 | a proposal is accepted if and only if the parent exists and all ids and normalised claims are new and distinct; each draft then is an untested child of the parent, in order |
| ResearchEffects.CoordinatorPlanExactly | src/oceanx/exploration.py:339-363 | a plan is accepted if and only if its ids are new and distinct and all targets are existing non-root hypotheses |
| ResearchEffects.PlansAreStored | src/oceanx/exploration.py:339-363 | after an accepted plan every draft is stored as planned, and nothing else is new or changed |
| ResearchEffects.ReservationMeans | src/oceanx/exploration.py:443-472 | a reservation starts and links exactly the named tests and charges exactly the identities not charged before, each once, within the budget |
| ResearchEffects.FirstResultWins | src/oceanx/exploration.py:401-409 | whatever happens in between, a recorded result is still there, and a later call to record on that test is refused while paused or with unknown evidence, accepted without a save for the same result, and refused as immutable for any other |
| ResearchEffects.ExpertResultIsStored | src/oceanx/exploration.py:790-824 | an accepted Expert result ends up in one of the Expert's own tests in scope, done with exactly this result |
| ResearchEffects.JudgmentIsStored | src/oceanx/exploration.py:217-232 | an adjudication stores the judgment asked for, and its predecessor joins the history if and only if it differs |
| ResearchOutcomes.GuardsExactly | src/oceanx/exploration.py:519-593 | an action fails as stale, as a second start, for want of a tree or as paused in exactly these cases |
| ResearchOutcomes.StartExactly | src/oceanx/exploration.py:521-549 | a start stores the goal as the only hypothesis, untested, with the budget asked for or else twenty |
| ResearchOutcomes.ResumeExactly | src/oceanx/exploration.py:552-568 | a resume is refused if and only if the budget asked for is below the use; it ends the pause, forgets the decision and changes mode and budget only as asked |
| ResearchOutcomes.PauseExactly | src/oceanx/exploration.py:569-590 | a pause is refused if and only if it is final and a test runs; its exit is ideas delivered, unable to answer, answered, budget exhausted or interrupted in exactly the stated cases, its summary the one given, and only an answer resolves the question |
| ResearchOutcomes.StopHolds | src/oceanx/exploration.py:564-593 | over any run the decision of a paused tree stays until another pause or a resume |
| ResearchOutcomes.RevisionCountsSaves | src/oceanx/exploration.py:379-385 | over any run the stored revision counts the calls that saved a tree |
| ResearchOutcomes.ReservationAcceptedExactly | src/oceanx/exploration.py:423-455 | a reservation is accepted if and only if the tree is active and iterative, the tests are distinct and known, one form of identity is given, there is an identity, and use plus new identities stay within the budget |
| ResearchOutcomes.ReservationExactly | src/oceanx/exploration.py:433-472 | it charges exactly the identities given, or one a test, besides the old ones, raises the use by the number not charged before, starts and links exactly the named tests, and saves nothing only if nothing changes |
| ResearchActions.ProposeExactly | src/oceanx/exploration.py:594-596 | a proposal is accepted if and only if parent, ids, claims and plan are allowed, and the saved tree has exactly its hypotheses, untested below the parent, and its tests besides what was there |
| ResearchActions.PlanTestExactly | src/oceanx/exploration.py:597-598 | a plan is accepted if and only if it is allowed, and the saved tree has exactly its tests in addition |
| ResearchActions.ReflectExactly | src/oceanx/exploration.py:599-614 | a reflection is refused if a test runs or its proposal is not allowed, and only then; it is noted last, and its hypotheses stand below the root |
| ResearchActions.MarkExactly | src/oceanx/exploration.py:615-620 | exactly a waiting or running test can be marked infeasible; only its status, feasibility and reason change |
| ResearchActions.RecordExactly | src/oceanx/exploration.py:621-626 | a result is accepted if and only if the test and the evidence are known and no other result stands; it makes that one test done, and a repeated one saves nothing |
| ResearchActions.AdjudicationAcceptedExactly | src/oceanx/exploration.py:627-636 | a judgment is accepted if and only if hypothesis and evidence are known, a cited test names the hypothesis, and established cites a test with another target |
| ResearchActions.AdjudicationExactly | src/oceanx/exploration.py:637-646 | an accepted judgment changes that one hypothesis as asked, its predecessor joins the history if it differs, and nothing else changes but the summaries |
| ResearchActions.SummaryReads | src/oceanx/exploration.py:235-244 | the summary of a hypothesis has one line a child in key order: id, status, what was said, and the summary below it |
| ResearchActions.JoinedLines | src/oceanx/exploration.py:240 | the lines are joined by single line breaks |
| ExpertOutcomes.ExpertPlanExactly | src/oceanx/exploration.py:762-820 | an Expert plan is accepted if and only if WorkOrder, scope, execution, targets and ids allow it; every draft then stands under its own name or the derived id, new ones with the name of their draft, nothing else changes, and the new ids are the changed ones |
| ExpertOutcomes.ExpertResultExactly | src/oceanx/exploration.py:762-834 | a call with a result is accepted if and only if its plans are and the result fits the own test it is for, stored or just planned; it leaves the plans and, in that one test, the result and the execution named |
| ExpertOutcomes.ExpertSavesExactly | src/oceanx/exploration.py:835-837 | on a tree the call saves those tests, and saves if and only if a test changed |
| ExpertOutcomes.PlansCarryTheirNames | src/oceanx/exploration.py:808-820 | when no two drafts share an id each new test carries the name of its own draft |
| TestNotes.ReadTestNotes | src/oceanx/exploration.py:668-701 | the loop over rows with its chunk table computes `ReadFrom`, including the rows it skips and the ones it fails on |
| TestNotes.NoteJournal.WriteTestNote | src/oceanx/exploration.py:704-736 | a snapshot is written whole or in 3000-character chunks, each row only if the table lacks it |
| TestNotes.NoteJournal.ExpertCall | src/oceanx/exploration.py:780-837 | one transaction reads the notes, records the facts and writes each changed test once, or changes nothing |
| TestNotesProofs.EveryRowFits | src/oceanx/exploration.py:704-720 | every row is within the 8000-character statement limit (up to 10^900 chunks) |
| TestNotesProofs.EscapingAtMostDoubles | src/oceanx/exploration.py:711-720 | re-encoding JSON text at most doubles it |
| TestNotesProofs.PiecesConcat | src/oceanx/exploration.py:708 | the pieces of a snapshot make it up again |
| TestNotesProofs.ReadOneNote | src/oceanx/exploration.py:679-700 | the rows of one snapshot, read with nothing pending, give the snapshot and leave nothing pending |
| TestNotesProofs.WriteAppends | src/oceanx/backend/store.py:3415-3446 | a write appends all its rows if the snapshot is new and none if it was written before |
| TestNotesProofs.JournalRoundTrip | src/oceanx/exploration.py:668-736 | for any mix of notes, whole or chunked, and unrelated rows, reading gives each test's snapshot whose first write came last |
| TestNotesProofs.WriteIsReadBackExactly | src/oceanx/backend/store.py:3423-3446 | a write is what the next read returns if and only if it is new or already current |
| TestNotesProofs.RewindIsLost | src/oceanx/backend/store.py:3423-3446 | after writing a snapshot, another and the first again, reading the rows gives the second |
| TestNotesProofs.ExpertProgress | src/oceanx/exploration.py:790-824 | what an Expert call changes is a new test or one that moves up |
| TestNotesProofs.ExpertNotesAreDurable | src/oceanx/exploration.py:780-837 | without a tree, Expert calls never rewind, so the next call reads back exactly the tests this one computed |
| TestNotesProofs.JournalIsATable | src/oceanx/exploration.py:780-837 | from the empty journal, through any run of Expert calls mixed with rows of other kinds, reading the journal gives exactly the tests the calls would have made of a table of tests |
| TestNotesOutcomes.StatementsExactly | src/oceanx/exploration.py:704-720 | a snapshot of at most 8000 characters is one row; a longer one is cut into parts of 3000, each a row with digest, number, count and text |
| TestNotesOutcomes.RowsAreReadExactly | src/oceanx/exploration.py:671-700 | for any row: what is no object is skipped, a fact replaces its test, a part waits until exactly its numbers are there and the joined text has the digest, which then is read in its place; a broken fact or a snapshot that is no object raises |
| Legacy.BackUp | src/oceanx/exploration_legacy.py:127-133 | the climb terminates and counts the experiment at the node and everything above it, nowhere else |
| Legacy.Statistics | src/oceanx/exploration_legacy.py:114-134 | the nested loops compute, for every node, the tally of the reports at or below it |
| Legacy.Pending | src/oceanx/exploration_legacy.py:137-162 | the loop over nodes computes the pending items |
| Legacy.SyncActiveBranch | src/oceanx/exploration_legacy.py:186-195 | the climb terminates and computes the branch on display |
| LegacyProofs.CountedExactly | src/oceanx/exploration_legacy.py:121-133 | a report counts if and only if it shares no experiment with a report that comes before it |
| LegacyProofs.StatisticsCountOnce | src/oceanx/exploration_legacy.py:114-134 | counted identity sets are pairwise disjoint; attempts never exceed the distinct experiments below and equal them with one identity per report; the reward is the sum over counted reports |
| LegacyProofs.CountedDownwards | src/oceanx/exploration_legacy.py:128-133 | what an ancestor counts, every node on the way down counts |
| LegacyProofs.ConcreteBeatsSynthesis | src/oceanx/exploration_legacy.py:120-121 | of two reports that share an experiment the shallower one does not count |
| LegacyProofs.PendingExactly | src/oceanx/exploration_legacy.py:140-161 | a node is pending if and only if it is an open idea all of whose children are closed |
| LegacyProofs.OpenLeadsToActionable | src/oceanx/exploration_legacy.py:140-150 | at or below every open idea there is one to act on |
| LegacyProofs.PendingEmptyExactly | src/oceanx/exploration_legacy.py:137-162 | nothing is pending if and only if every idea is closed |
| LegacyProofs.AdviceIsBest | src/oceanx/exploration_legacy.py:165-178 | the advice is the first affordable pending item of least rank, or the first expansion of a lone root |
| LegacyProofs.BudgetExhaustedExactly | src/oceanx/exploration_legacy.py:179-183 | the budget is blamed if and only if everything pending would spend it and none is left |
| LegacyProofs.NoEligibleBranchExactly | src/oceanx/exploration_legacy.py:179-183 | no_eligible_branch is reported if and only if there are ideas and all are closed |
| LegacyProofs.ActiveBranchExactly | src/oceanx/exploration_legacy.py:186-195 | the branch on display is the child of the root above the recommended idea |
| LegacyStore.Archive.Call | src/oceanx/exploration_legacy.py:262-409 | an action is exactly one step: saved under the next revision with its branch, or nothing stored and the same error |
| LegacyStore.Archive.Grow | src/oceanx/exploration_legacy.py:357-374 | the loop over candidates adds numbered ideas and refuses a repeated one |
| LegacyStore.Archive.Hear | src/oceanx/exploration_legacy.py:375-404 | recording looks up every experiment, bounds the history and drops a stale reward |
| LegacyRuns.EveryReachableArchive | src/oceanx/exploration_legacy.py:262-409 | every run keeps: distinct ideas, histories of at most eight ending in the current feedback, ideas within the budget, paused exactly with a stop decision |
| LegacyRuns.StepKeeps | src/oceanx/exploration_legacy.py:299-409 | every action keeps that and only adds ideas and feedback |
| LegacyRuns.KeysAreNumbered | src/oceanx/exploration_legacy.py:360-374 | the keys are root, idea_1 to idea_n with n at most the node budget |
| LegacyResolution.CompletionExactly | src/oceanx/exploration_legacy.py:332-341 | a completion summary is accepted if and only if the mode is ideas or every open idea with closed children is merely supporting |
| LegacyResolution.FeedbackExactly | src/oceanx/exploration_legacy.py:375-404 | with only supporting work left, accepted feedback leaves only supporting work if and only if neither its node nor the node's parent becomes a gap, a condition on the tree and the feedback before the call |
| LegacyResolution.ResolutionExactly | src/oceanx/exploration_legacy.py:299-409 | a right resolution of an iterative tree stays right through any call if and only if the call is not accepted feedback that opens such a gap |
| LegacyResolution.ResolutionsAreRight | src/oceanx/exploration_legacy.py:299-409 | in every run without such feedback a recorded resolution is right at every moment |
| LegacyResolution.OpenFeedbackReopens | src/oceanx/exploration_legacy.py:375-404 | open feedback on a key gap without open children makes the recorded resolution wrong |
| LegacyResolution.ClosingFeedbackReopensParent | src/oceanx/exploration_legacy.py:137-150 | feedback that closes the last open child of an open key gap makes the recorded resolution wrong |
| LegacyResolution.SolvingTheDetailBreaksIt | src/oceanx/exploration_legacy.py:375-404 | a sound resolved tree of three nodes on which solving the only detail makes the resolution wrong |
| LegacyOutcomes.GuardsExactly | src/oceanx/exploration_legacy.py:299-319 | every action needs the current revision, a start no tree and every other action one |
| LegacyOutcomes.RevisionCountsActions | src/oceanx/exploration_legacy.py:401-409 | over any run the stored revision counts the accepted actions |
| LegacyOutcomes.StartExactly | src/oceanx/exploration_legacy.py:301-317 | a start stores the goal as the only node with room for twelve ideas unless asked otherwise |
| LegacyOutcomes.PauseExactly | src/oceanx/exploration_legacy.py:320-342 | a completion is accepted if and only if the mode is ideas or all pending work is supporting; any other pause stores the reason to stop or the work it interrupts |
| LegacyOutcomes.ResumeExactly | src/oceanx/exploration_legacy.py:343-351 | a resume is refused if and only if the budget asked for is below the ideas there are, and changes nothing else than asked |
| LegacyOutcomes.ProposeExactly | src/oceanx/exploration_legacy.py:353-374 | a proposal is accepted if and only if the tree is active, the node expandable, the budget not exceeded and the ideas new and distinct; each becomes a numbered open idea below the node |
| LegacyOutcomes.RecordExactly | src/oceanx/exploration_legacy.py:375-400 | feedback is accepted if and only if node, evidence and the eight-entry history allow it; the node then holds the feedback, its WorkOrders or observations in order, the reward rule and whether it may be expanded |
| LegacyOutcomes.ReportIsItsSources | src/oceanx/exploration_legacy.py:124-126 | the statistics take a report for the WorkOrders and observations it rests on, or else for its node |
| LegacyOutcomes.OneOrderIsOneExperiment | src/oceanx/exploration_legacy.py:120-133 | two observations of one WorkOrder are one experiment: of two reports on them the shallower does not count |
| LegacyOutcomes.PendingWorkExactly | src/oceanx/exploration_legacy.py:137-162 | pending are exactly the open ideas with all children closed, each with the action, priority and cost it calls for |
| LegacyOutcomes.RankIsLexicographic | src/oceanx/exploration_legacy.py:168-172 | items rank by priority, then cost, then action |
| LegacyOutcomes.AdviceExactly | src/oceanx/exploration_legacy.py:165-178 | a paused tree and no other is advised to stay so, and an expansion is advised only within the node budget |
| ModelRecovery.ModelEvents | src/oceanx/model_recovery.py:95-164 | the event loop computes, stream by stream, what is passed on, waited for and reported |
| ModelRecovery.RunIsAttempts | src/oceanx/model_recovery.py:103-160 | the output is every stream up to its error with a wait after each resumed attempt: nothing is lost, repeated or reordered |
| ModelRecovery.AtMostMaxRetries | src/oceanx/model_recovery.py:123-147 | for any engine at most max_retries resumes, numbered in order, each after 5 to 300 seconds |
| ModelRecovery.OneErrorAtMost | src/oceanx/model_recovery.py:148-160 | an error is reported at most once, as the last event |
| ModelRecovery.ScanSucceedsExactly | src/oceanx/model_recovery.py:105-121 | a stream succeeds if and only if it has no error and its last turn is an answer after which no tool started |
| ModelRecovery.AnswerOrError | src/oceanx/model_recovery.py:105-160 | a run ends without an error if and only if the attempt it ends with delivers an answer, and that stream then closes the output |
| ModelRecovery.NoResumeOverTools | src/oceanx/model_recovery.py:115-134 | for any engine no resume happens while more tools have started than completed |
| RecoveryOutcomes.DeliveredIsTold | src/oceanx/model_recovery.py:95-164 | for any engine the output is an independent run over its streams: each up to its failure, then a wait and the next, or the report |
| RecoveryOutcomes.EveryFailureIsAnsweredRight | src/oceanx/model_recovery.py:122-160 | after k resumes a failure is followed by a wait if and only if it is retryable with one of the five codes, no tool is outstanding, k is below the retries, the engine resumes and the wait, the larger of 5, 15, 30, 60 seconds and the time asked for, is at most 300; otherwise it is reported, as a pause exactly when it was recoverable and the engine resumes, and unchanged in every other case |
| RunEvents.SubmitMessage | src/oceanx/deep_runtime.py:383-548 | the event loop with its queue, tables and sets computes the projection and the closing event |
| RunEventsProofs.HiddenExactly | src/oceanx/deep_runtime.py:395-407 | an event is dropped if and only if some tool run is around it, at any depth |
| RunEventsProofs.ProjectionIsFlat | src/oceanx/deep_runtime.py:400-407 | projecting a run tree is dropping everything inside tools and projecting the rest |
| RunEventsProofs.CallsAreTakenInOrder | src/oceanx/deep_runtime.py:463-487 | per tool name, announced calls are the taken ones followed by the waiting ones |
| RunEventsProofs.StartTakesOldest | src/oceanx/deep_runtime.py:479-508 | each tool start takes the oldest call of its name not taken before and reports its id, or its own run if there is none |
| RunEventsOutputs.EmissionExactly | src/oceanx/deep_runtime.py:395-526 | what each event of the tree emits: nothing inside a tool, text that is not a summary, a turn with text and call ids at the first end of a model call, and start and completion of a tool under one call id, that of the oldest announced call of its name not taken |
| RunEventsOutputs.RepliesExactly | src/oceanx/deep_runtime.py:437-470 | the last reply and the announced calls are those of the first ends of model calls at the agent's level, summaries left out |
| RunEventsOutputs.SubmissionClosesRight | src/oceanx/deep_runtime.py:527-548 | the stream closes with the exception, the budget notice, nothing after an answer, an output error that is not retried if the reply was cut, and a retryable empty response otherwise |
| RunEventsProofs.CounterIsExact | src/oceanx/model_recovery.py:115-119 | over a well-nested stream the counter equals the number of tools started at the agent's level and not ended |
| RunEventsProofs.ResumeOnlyWhenToolsAreDone | src/oceanx/model_recovery.py:129-147 | an attempt is resumed only if every tool it started at its own level has ended |
| RunEventsProofs.DeliveredExactly | src/oceanx/deep_runtime.py:527-548 | an attempt counts as delivered if and only if the graph finished without a budget notice, its last reply is an answer, and no summary turn or tool start followed |
| RunEventsProofs.SummaryAfterAnswerIsLost | src/oceanx/deep_runtime.py:444-457 | a summary turn after the answer makes the loop report an empty response although the engine reported none |
| Transfer.Archive.EnsureCollection | benchmarking/download/download_data.py:66-89 | one product and release per folder, one request per period, unmanaged files refused; the descriptor is the only change |
| Transfer.Archive.Download | benchmarking/download/download_data.py:276-311 | a run cut after any number of changes leaves exactly the files `Transfer` says |
| Transfer.TransferKeeps | benchmarking/download/download_data.py:276-311 | a run, wherever it is cut, keeps every finished file certified and untouched |
| Transfer.AnySchedule | benchmarking/download/download_data.py:66-89 | under any schedule of runs and crashes no period is taken twice and nothing finished changes again |
| Transfer.FinishedMeansCertified | benchmarking/download/download_data.py:301-311 | a finished file has a receipt that names its request, carries the hash of exactly this content, and the verifier accepted it |
| Transfer.NeverOccupied | benchmarking/download/download_data.py:86-89 | under the planners' file names no finished file is taken for another request's file of its own period |
| Transfer.RerunReportsExisting | benchmarking/download/download_data.py:282-288 | under these names a run over a finished file reports it as existing and changes nothing, for any provider and any cut |
| Transfer.DownloadedForGood | benchmarking/download/download_data.py:276-311 | a file downloaded once is reported as existing, with the same receipt, after any later runs and crashes |
| Transfer.VerifiedPartialIsKept | benchmarking/download/download_data.py:291-311 | a verified partial file is promoted without the provider, and a crash on the way keeps it |
| Transfer.GoodDeliveryFinishes | benchmarking/download/download_data.py:298-311 | an admitted, uncut run with a verified delivery finishes |
| TransferOutcomes.AdmittedExactly | benchmarking/download/download_data.py:66-89 | a request is admitted if and only if the folder is its collection and holds no other finished file of its year and stem, or has neither descriptor nor finished file |
| TransferOutcomes.RefusedExactly | benchmarking/download/download_data.py:66-89 | any other request is refused for its reason and changes nothing |
| TransferOutcomes.FinishedExactly | benchmarking/download/download_data.py:280-289 | over a finished file the outcome follows from its receipt, and nothing changes |
| TransferOutcomes.UncutExactly | benchmarking/download/download_data.py:291-311 | an uncut run finishes a partial file that the verifier accepts, else what the provider wrote if provider and verifier accept it, and otherwise fails and leaves it as the partial file |
| Era5.TimesMatch | benchmarking/download/era5_google.py:85-94 | the block-wise check accepts if and only if every requested hour's coordinate matches, across block boundaries |
| Era5.Region.Download | benchmarking/download/era5_google.py:49-141 | the hour loop over the checkpoint computes `Fetch`, for any crash point, any loss of unsynced writes and a file that may no longer open |
| Era5.HoursKeep | benchmarking/download/era5_google.py:128-140 | from a sound checkpoint a run promotes only the whole result, and otherwise loses no hour unless a crash leaves a file that no longer opens |
| Era5.FetchKeeps | benchmarking/download/era5_google.py:95-141 | a run leaves a file that blocks later runs if and only if it found one, or was cut while the file was open and the file no longer opens, or was cut during creation and a part was lost |
| Era5.AnyInterruptions | benchmarking/download/era5_google.py:95-141 | after any number of runs and crashes the hours below the counter of a usable file hold the right slice and time, and a promoted file is the uninterrupted result |
| Era5.BlockedExactly | benchmarking/download/era5_google.py:98-127 | after any history the file is unusable if and only if some run was cut in such a way |
| Era5.ResumesExactly | benchmarking/download/era5_google.py:98-127 | after any history a clear run promotes the whole result if and only if no run before it was cut in such a way |
| Era5.BlockedStops | benchmarking/download/era5_google.py:99-106 | an unusable file stops every later run and stays as it is |
| Era5Outcomes.TimesOkExactly | benchmarking/download/era5_google.py:86-94 | the coordinate is accepted if and only if its first block can be read and every requested hour stands as far from the first position as it lies from the hour there |
| Era5Outcomes.UnusableExactly | benchmarking/download/era5_google.py:79-127 | without a usable coordinate or checkpoint a run fails for the stated reason and changes nothing |
| Era5Outcomes.UncutExactly | benchmarking/download/era5_google.py:95-141 | an uncut run goes on after the counted hours, promotes the result if and only if it can read all others, and else stops before the first it cannot, with the hours before it stored and counted |
| ChunkPool.ExecuteChunks | benchmarking/download/download_services.py:173-206 | refused exactly for no workers or repeated paths; else every chunk is submitted and yielded exactly once, at most `workers` in flight, for any order of completion |
| ChunkPool.PoolEqualsSerial | benchmarking/download/download_services.py:190-206 | the pool yields the same multiset of results as the serial path |
| ExportClosure.SelectRefs | src/oceanx/exports.py:151-178 | terminates on every finite graph; returns the ascending, duplicate-free, exact closure under intrinsic links, and fails if and only if a reachable artifact is missing, naming one |
| ExportClosure.ClosedIsExact | src/oceanx/exports.py:162-177 | with nothing waiting the selection is exactly what can be reached |
| ExportClosure.SortedRefs | src/oceanx/exports.py:178 | sorting distinct refs makes them strictly ascend |
| ExportClosure.BeforeExactly | src/oceanx/exports.py:178 | refs are ordered by id, code point by code point, and then by version number |
| CuratorBudget.ReviewBudget.Reserve | src/oceanx/curator_budget.py:43-69 | a reservation is the whole estimate in ledger and count, or refused without a change |
| CuratorBudget.ReviewBudget.Finish | src/oceanx/curator_budget.py:71-85 | a return raises the row to the real use, never lowers it, and raises the count by the overrun |
| CuratorBudget.StepKeeps | src/oceanx/curator_budget.py:54-85 | no row ever decreases, and the daily bound is kept by every call of every budget |
| CuratorBudget.BalancedExactly | src/oceanx/curator_budget.py:71-85 | a budget's count stays the sum of its own rows if and only if the step is not another budget's return beyond the reservation |
| CuratorBudget.EveryRun | src/oceanx/curator_budget.py:38-85 | in every run of many budgets and restarts a day's total exceeds the limit only by recorded overruns, and while every budget returns its own calls its count equals its own rows |
| CuratorBudget.LimitIsFinal | src/oceanx/curator_budget.py:57-62 | once a day's total has reached the limit no reservation for that day succeeds |
| CuratorOutcomes.AmountExactly | src/oceanx/curator_budget.py:46-53 | the estimate is the bytes of messages and schema, 256 a message, the whole output and 2048 |
| CuratorOutcomes.ReservationExactly | src/oceanx/curator_budget.py:54-69 | a reservation adds its row and its count if neither limit would be exceeded, and changes nothing otherwise |
| CuratorOutcomes.ReturnExactly | src/oceanx/curator_budget.py:71-85 | a return marks its row, keeps the use reported and raises row and count by what exceeds the row; an unknown call changes nothing |
| CuratorOutcomes.ReviewIsBounded | src/oceanx/curator_budget.py:54-69 | in every run of many budgets the estimates of a budget's own calls never exceed the limit of its review |

## Left out

- Views, `read` actions, recommendations and next_step of the current tree, reflection intervals and
  their bookkeeping, timestamps: they show the tree or annotate it and decide no step.
- Field-by-field validation of requests; requests in the model are the ones that pass it.
- ResearchStore.Store.DoResearch: a reflection's reasons and the list of pending reflections are left
  out; no action adds a reason, so no decision depends on them.
- TestNotesProofs.EveryRowFits: is stated for snapshots of fewer than 10^900 chunks, because the row
  also holds the part number in decimal.
- Test notes whose JSON is a fact without a usable id are one case, the exception they raise.
- Other observations of the same WorkOrder count as equal rows when their text is equal; the table
  also compares their evidence and outcome.
- ExpertContext.CompactExpertHistory: treats a field that is neither a string nor absent as truthy,
  and takes the directory behind an old stdout path as part of the receipt.
- Compaction is not claimed to be idempotent: a replaced exchange no longer has the length that made
  it long.
- LegacyProofs.StatisticsCountOnce: rewards are exact reals, not floating point.
- The archived tree's text view; `information_gain`, `follow_up` and the summary of its feedback are
  one text, since no decision reads them. Start, pause and resume are made at the root, as by default.
- ModelRecovery.ModelEvents: streams are finite and cancellation during a wait is not modelled.
- RunEvents.SubmitMessage: leaves out turn ids, operation ids, usage, durations and tool output, and
  the checkpoint lookup that chooses how a resume begins.
- Classification of provider exceptions: an attempt may end in any error.
- Transfer.Archive.Download: one process at a time; symbolic links, the content of the provenance
  fields and the temporary file behind an atomic JSON write are not state.
- Era5.Region.Download: choosing and ordering grid points, decompression and the coverage dates are
  behind the grid and the readings; a block or hour that cannot be read is one failure. A damaged
  checkpoint does not open, or holds each part and each hour whole or not at all.
- ChunkPool.ExecuteChunks: worker processes that die and the descriptors created before the pool are
  not modelled.
- ExportClosure.SelectRefs: copying, redaction and checksums of the bundle come after the selection.
- CuratorBudget.ReviewBudget.Reserve: message sizes are given as byte counts; the workspace column is
  not read by either operation.
- Prompts, provider clients, the user interface, LLM judging and plotting.
