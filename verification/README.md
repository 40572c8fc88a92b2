# Controlled decisions, routing and budgets: a verified model

This project models the parts of the spatial agent that decide what may happen next, and proves
that they keep their promises.

- **Decisions.** A versioned approval record (PENDING, ACCEPTED, REJECTED, EXPIRED, CONSUMED). The
  SQLite store is a state machine whose workers interleave single statements (SELECT, clock read,
  `UPDATE ... WHERE status and version`, INSERT); it refines an atomic automaton. The in-memory store
  is a class with the same automaton under a lock, and a state machine for the one call that lets
  go of it.
- **Routing.** Scoring and selecting a Domain from a snapshot, reading a language model's selection,
  overriding, the
  recency-bounded ledger of decisions, idempotent commits with receipts, lineage through parent
  pointers, the strict evidence validator that has to accept what the ledger hands out, and the
  application that ties them together, with overrides and runs that take time.
- **Interactions.** The schema normaliser, the input validator that normalises again at every level,
  and the gate that reloads the subject, authorises and dispatches.
- **Graphs and plans.** Depth-first cycle detection, and result references in nested plan arguments.
- **Budgets.** The projection of fetched pages, fair text shares with a binary search against a
  serialised size, the staged fitting of the answer packet, and the bounded planner context with its
  aliased request section.
- **Governors and hosts.** The concurrency gate and the soft token budget under interleaving, and
  service ownership of the multi-Domain host whatever fails.

Wherever input is read (choice words, ids and sessions, commands, schemas, plans, intents, decisions,
evidence, replies, packets), a module named `...Meaning`, or `SqliteDecisionAnswers` and
`RoutingSessions`, states on the input itself, without the function that reads it, what is accepted and
what the result then says, nearly always as an if-and-only-if.

Code that changes state is imperative here too: each such method is proved equal to a specification
function (or relation), and the properties below are proved about that specification over all inputs
and all runs. JSON payloads read through fixed keys are modelled as typed views of those keys; where
the nesting matters (schemas, action input, plans, packets) they are a JSON datatype with a
serialisation whose length is the size.

## Where the code does less than one would expect

Each of these is proved by a counterexample (mostly a whole family), beside the condition under which
the expected property does hold.

- A restored PENDING record with version 0 makes `SQLiteDecisionStore.get` call itself for ever once
  its deadline has passed: the payload reads version 0 back as 1, so the expiry UPDATE never matches
  (`UnversionedNeverReturns`, `UnversionedExists`). As long as no restore supplies a PENDING record
  with a deadline and version 0, every call returns by its eleventh statement, whatever the others do
  (`VersionedCallsReturn`). The application's own restore (`agent/application/decisions.py:247-252`)
  reads records through `from_dict`, which turns version 0 into 1 (`agent/decision_lifecycle.py:147`),
  so version 0 takes a direct call of `restore`.
- A deadline of exactly 0 means "none" to `InMemoryDecisionStore` but "long ago" to the SQLite
  adapter; on everything else a pending decision resolves alike (`AdaptersAgree`).
- Receipts cut the idempotency key at 128 characters, so a longer key can commit for two subjects
  (`LongKeyCommitsTwice`; keys of at most 128 stay distinct, `RunKeysDistinct`). Keys that come through
  the interaction gate have at most 128 (`CheckedKeyIsShort`), so this takes a direct call of the ledger.
- The router bounds no reason code of a decision it is given and the model selector only cuts it at 96,
  so a model that answers with a line break in its reason has its decision routed and saved, but the
  run is refused when its evidence is built (`UnreadableRunExists`), and so is the run of the child an
  override makes of it (`OverrideOfUnreadable`, `UnreadableOverrideExists`). In every reachable state a
  run is evidenced exactly when each of the last eight reasons of its lineage is readable
  (`SelectedRunIsEvidenced`; in production, `ShippedRunIsEvidenced`); a deployment that asks no model
  loses no run this way (`PlainDeploymentIsEvidenced`). A selector object that does not cut its reason
  at 96, which none that ships does, can also make the fallback note blank (`BlankNoteIsRefused`,
  `ShortNoteIsReadable`).
- `InMemoryDecisionStore.get` expires what it read after letting go of the lock, so it can file as
  EXPIRED a decision that was approved meanwhile, under the same version (`ApprovalIsLost`); that late
  write is the only step that loses anything settled (`OnlyLateGetsLose`), and without deadlines there
  is none (`UndatedNeverLoses`).
- The ledger bounds decisions and receipts separately. Saving `max_decisions` other decisions leaves a
  committed command with a receipt whose decision is gone (`SavesStrand`), and it stays refused until
  that receipt goes (`StrandedStays`, `ReceiptGoesWhen`).
- Names cut at 64 characters can end in a blank and are then cut again one level down, so the nested
  validator asks for another name than the one published (`UnstableNameMoves`).
- Revisions are clamped at 1,000,000: a command is dispatched at another revision than the one it
  names exactly when both are a million or more (`RevisionsToldApart`).
- Tokens are charged after the permit is given back, so even a concurrency limit of 1 does not bound
  how far a session overspends its budget (`OneAtATimeOverspends`; `SoftBudget` is the bound that holds,
  and `SoftBudgetIsAttained` shows that no smaller one does).
- A session's binding is checked when a run begins and written when it ends, so overlapping runs of
  one session can complete on two Domains (`OverlapSplitsSession`, `OverlapExists`). A run that begins
  beside another splits the session exactly when their Domains differ (`JoiningDecides`,
  `SessionStaysOnDomain`).
- Only the first eight dependencies of an operation are read, and the cycle check covers what is left:
  the checked graph is the written one exactly when nothing new is named after the eighth
  (`WrittenGraphIsChecked`), and a written cycle can be accepted (`LateCycleIsAccepted`,
  `LateCycleExists`).
- The answer packet's pages are fitted a second time after other texts have been shortened, but by
  then they are gone or fit already: the room that is made never brings one back (`SecondFittingIsIdle`,
  `PagesSurvive`).

## Model

| member | source | states |
|---|---|---|
| DecisionLifecycle.HistoryIsPath | agent/decision_lifecycle.py:500-523 | the writes to one decision, taken out of any accepted log, again start from the state the previous one left |
| DecisionLifecycle.PathAt | agent/decision_lifecycle.py:733-744 | each write of a path is one step of the atomic automaton from the record read just before it |
| DecisionLifecycle.VersionsRise | agent/decision_lifecycle.py:733-744 | the version a reader sees never falls, and any later update has raised it |
| DecisionLifecycle.OneWriterPerVersion | agent/decision_lifecycle.py:500-523 | two successful updates of one decision never read the same version, and each adds 1 to what it read |
| DecisionLifecycle.TerminalIsFinal | agent/decision_lifecycle.py:437-491 | updates leave only PENDING and ACCEPTED, never lead back to PENDING, and ACCEPTED leads only to CONSUMED |
| DecisionLifecycle.CreatedHistory | agent/decision_lifecycle.py:401-491 | a decision that entered through create has version 1 while PENDING, 2 once decided or expired and 3 once consumed, and exactly that many writes |
| DecisionLifecycle.OneResolveOneConsume | agent/decision_lifecycle.py:457-491 | such a history holds at most one resolve and one consume, and the consume follows an approval |
| DecisionLifecycle.EvidenceSimulatesRecord | agent/decision_lifecycle.py:153-181 | evidence of any record builds, offers approve and reject exactly while PENDING, and moving the evidence by a choice gives the evidence of the resolved record |
| DecisionLifecycle.NewRecordMeans | agent/decision_lifecycle.py:211-235 | a request becomes a PENDING record of version 1 that keeps what was asked, its texts cut to their widths |
| DecisionLifecycle.ReloadMeans | agent/decision_lifecycle.py:133-150 | a stored payload reads back as it was written, up to the widths of its texts and version 0, which reads as 1 |
| DecisionLifecycle.ChoiceMeans | agent/decision_lifecycle.py:719-731 | "approve", "accept" and "confirm" (stripped, in lower case) decide ACCEPTED with choice "approve", "reject" and "deny" REJECTED with choice "reject"; any other text is an unknown choice |
| DecisionLifecycle.StepMeans | agent/decision_lifecycle.py:437-491 | each kind of automaton write by its effect: what it reads, which status, version and choice it leaves, and what it keeps |
| SqliteDecisionStore.CasSeesCurrent | agent/decision_lifecycle.py:500-523 | an UPDATE whose WHERE clause matches was computed from the record the row holds now |
| SqliteDecisionStore.LostExpiry | agent/decision_lifecycle.py:437-455 | when the expiry UPDATE is lost the row is still PENDING exactly if it is an overdue row stored with version 0 |
| SqliteDecisionStore.RunKeepsInv | agent/decision_lifecycle.py:357-523 | every interleaving from the empty table keeps rows, log and each worker's local view consistent |
| SqliteDecisionStore.ExecRefinesAutomaton | agent/decision_lifecycle.py:437-523 | every scheduler step changes nothing or performs exactly one write of the atomic automaton, and no REJECTED, EXPIRED, CONSUMED or CANCELLED row ever changes |
| SqliteDecisionStore.RunIsAPath | agent/decision_lifecycle.py:437-523 | on every interleaving the writes to each decision are a path of the automaton that ends in what its row holds |
| SqliteDecisionStore.CreatedDecisionIsSafe | agent/decision_lifecycle.py:401-491 | on every interleaving a created decision has at most one resolve and one consume, and its status fixes its version |
| SqliteDecisionStore.EveryMoveCounts | agent/decision_lifecycle.py:437-497 | unless its row is stuck, one statement of an unfinished call leaves strictly fewer to go, and never are more than 11 to go |
| SqliteDecisionStore.StuckRowNeverReturns | agent/decision_lifecycle.py:437-455 | an overdue PENDING row with version 0 sends get round its recursion any number of times without changing a row |
| SqliteDecisionStore.CreatedNeverSticks | agent/decision_lifecycle.py:401-435 | no decision that entered through create is ever in that state |
| SqliteDecisionStore.RestoreNeverOverwrites | agent/decision_lifecycle.py:357-398 | a step of a restore leaves every existing row as it is, except that reading an overdue PENDING row may expire it |
| SqliteDecisionAnswers.ResolvedAsAsked | agent/decision_lifecycle.py:457-476 | in every reachable state, a resolve that answered was asked with a known word and wrote, over a pending row of the version it expected, REJECTED with "reject" if its word refuses and ACCEPTED with "approve" if it approves |
| SqliteDecisionAnswers.ConsumedAsAsked | agent/decision_lifecycle.py:478-491 | in every reachable state, a consume that answered wrote CONSUMED over an accepted row of the version it named |
| SqliteDecisionAnswers.AnsweredAsAsked | agent/decision_lifecycle.py:357-491 | every answer is about the decision and the Domain asked for and was written by somebody; only a plain read finds nothing |
| SqliteDecisionAnswers.WrittenAsAsked | agent/decision_lifecycle.py:357-523 | over every run, each step writes at most once: a request as it was made, a record as it was restored, or what the call asks for, an unknown word writing at most an expiry |
| SqliteDecisionAnswers.RefusedAsAsked | agent/decision_lifecycle.py:437-491 | an unknown-choice refusal is only ever given to a resolve with an unknown word, not-pending to a resolve, not-accepted to a consume |
| SqliteDecisionTermination.EveryCallReturns | agent/decision_lifecycle.py:437-497 | on any schedule that never sticks its row, a call that has been given eleven statements has returned |
| SqliteDecisionTermination.RunIsVersioned | agent/decision_lifecycle.py:357-523 | such runs keep every row and every record in flight versioned |
| SqliteDecisionTermination.VersionedCallsReturn | agent/decision_lifecycle.py:357-497 | as long as no restore supplies a PENDING record with a deadline and version 0, every call of every worker has returned by its eleventh own statement, under every interleaving |
| SqliteDecisionTermination.UnversionedNeverReturns | agent/decision_lifecycle.py:437-455 | from the empty table: once such a record is restored and its deadline has passed, a `get` goes round its recursion any number of times |
| SqliteDecisionTermination.UnversionedExists | agent/decision_lifecycle.py:357-398 | there is a record a restore takes that is overdue and not versioned |
| InMemoryDecisionStore.InMemoryDecisionStore.constructor | agent/decision_lifecycle.py:206-209 | starts with no records |
| InMemoryDecisionStore.InMemoryDecisionStore.Create | agent/decision_lifecycle.py:211-235 | accepts exactly the well-formed requests and files a PENDING record of version 1; a refusal changes nothing |
| InMemoryDecisionStore.InMemoryDecisionStore.Restore | agent/decision_lifecycle.py:237-246 | accepts exactly the well-formed records and overwrites whatever was filed under the id |
| InMemoryDecisionStore.InMemoryDecisionStore.Get | agent/decision_lifecycle.py:248-253 | answers only for the record's own Domain, and expires an overdue record as it reads it |
| InMemoryDecisionStore.InMemoryDecisionStore.Expire | agent/decision_lifecycle.py:325-333 | moves exactly the overdue PENDING record to EXPIRED, one version up, and files it |
| InMemoryDecisionStore.InMemoryDecisionStore.Resolve | agent/decision_lifecycle.py:255-292 | the whole outcome, codes included: missing, expired on reading, not pending, stale version, bad choice, or resolved; and what is filed afterwards |
| InMemoryDecisionStore.InMemoryDecisionStore.Consume | agent/decision_lifecycle.py:294-317 | consumes exactly the accepted record of the expected version; any refusal changes nothing |
| InMemoryDecisionStore.ResolveMeans | agent/decision_lifecycle.py:255-292 | a resolve succeeds if and only if the record is open and the word known, and files what the word says; an unknown word is refused and changes nothing unless the record was overdue |
| InMemoryDecisionStore.ConsumeMeans | agent/decision_lifecycle.py:294-317 | a consume takes effect if and only if the record is ACCEPTED in the expected version, and then moves it to CONSUMED |
| InMemoryDecisionStore.AdaptersAgree | agent/decision_lifecycle.py:255-292 | a resolve run alone on SQLite ends, with the answer the in-memory store gives, if and only if the record is not pending with deadline 0 |
| InMemoryDecisionRuns.GetAlone | agent/decision_lifecycle.py:248-253 | the steps of a `get`, with nothing in between, leave what the method leaves |
| InMemoryDecisionRuns.RunKeepsInv | agent/decision_lifecycle.py:206-333 | over any interleaving the row a `get` read pending is still that, found overdue, or decided |
| InMemoryDecisionRuns.OnlyLateGetsLose | agent/decision_lifecycle.py:248-253 | in every reachable state a step keeps everything settled if and only if it is not the late write of a `get` whose decision was decided after it was read |
| InMemoryDecisionRuns.UndatedNeverLoses | agent/decision_lifecycle.py:325-333 | over any run of decisions without deadline no answer is lost |
| InMemoryDecisionRuns.ApprovalIsLost | agent/decision_lifecycle.py:248-333 | for any dated request: the approval is answered with version 2, then overwritten with EXPIRED of version 2, and can no longer be consumed |
| DependencyGraph.CycleCheck.constructor | agent/analysis_intent.py:226-233 | starts with both node sets empty |
| DependencyGraph.CycleCheck.Visit | agent/analysis_intent.py:234-246 | a visit ends (the nodes outside both sets shrink), marks the node and leaves `visiting` as it was, or has met a cycle |
| DependencyGraph.CycleCheck.Enter | agent/analysis_intent.py:240 | adds the node to `visiting`, keeping `visiting` a walk of the graph |
| DependencyGraph.CycleCheck.Leave | agent/analysis_intent.py:243-246 | moves the node to `visited` above all its dependencies |
| DependencyGraph.AssertAcyclic | agent/analysis_intent.py:226-249 | accepts if and only if the graph has a rank function, equivalently if and only if it has no cyclic path |
| DependencyGraph.RankedHasNoCycle | agent/analysis_intent.py:226-249 | a graph with a rank function has no cyclic path of any length |
| AnalysisIntent.NormalizeOperations | agent/analysis_intent.py:111-122 | collects the operations in order, or stops with the first failure, a repeated id included |
| AnalysisIntent.CheckEach | agent/analysis_intent.py:124-135 | refuses with the first operation that depends on itself or on an unknown id |
| AnalysisIntent.DependenciesFacts | agent/analysis_intent.py:124-135 | the dependency check passes exactly when every dependency is another known operation |
| AnalysisIntent.NormalizeIntent | agent/analysis_intent.py:76-154 | what is accepted is within the limit, has distinct ids, supported kinds, known dependencies and a rank function |
| AnalysisIntent.AcceptedFacts | agent/analysis_intent.py:111-136 | accepted operations are distinct, supported, and depend only on each other |
| AnalysisIntent.AcceptedIntentSchedules | agent/analysis_intent.py:76-154 | an accepted intent can be scheduled: some ranking puts every operation after all it depends on |
| AnalysisIntent.RetainedDependencies | agent/analysis_intent.py:274-287 | an accepted operation depends on exactly the non-blank names among its first eight written dependencies |
| AnalysisIntent.TailDecides | agent/analysis_intent.py:274-287 | all written dependencies are retained if and only if each one after the eighth is blank or repeats one of the first eight |
| AnalysisIntent.WrittenGraphIsChecked | agent/analysis_intent.py:111-136 | the graph that is checked for cycles is the written one if and only if that holds for every operation |
| AnalysisIntent.LateCycleIsAccepted | agent/analysis_intent.py:111-136 | a family of intents whose written graph has a cycle and which are accepted |
| AnalysisIntent.LateCycleExists | agent/analysis_intent.py:76-154 | one such intent, concretely |
| IntentMeaning.KindMeans | agent/analysis_intent.py:206-214 | a kind is read exactly from one of its words, whatever case and separators |
| IntentMeaning.OperationMeans | agent/analysis_intent.py:157-203 | an operation is accepted as another exactly when that has the kind its word names, its own id or else the kind, and each of the first eight names it depends on once, in order |
| IntentMeaning.IntentMeans | agent/analysis_intent.py:76-154 | an intent is accepted as these operations if and only if there are one to as many as the limit and 64, they are what is written, under distinct ids, each dependency is another of them and no dependency path closes |
| Ranking.SortFacts | agent/domain_selector.py:159-220 | sorting by descending score and name orders the list and keeps exactly its items |
| RoutingDecision.CandidatesFix | agent/domain_selector.py:698-710 | bounded candidates survive the dictionary form in number and Domain, and unchanged exactly when their texts have no blank edge |
| RoutingDecision.SelectionFix | agent/domain_selection.py:36-76 | a selection of a registered Domain from a known source resolves to itself |
| RoutingDecision.RoundTrip | agent/domain_selector.py:416-464 | a bounded decision, whatever its reason, comes back from its dictionary form unless that reason is blank; texts are stripped, the reason cut at 96, and the rest unchanged, so it is equal exactly when there is nothing to strip or cut |
| RoutingDecision.ResolveFacts | agent/domain_selector.py:416-464 | whatever is accepted satisfies the status, selection and candidate checks and carries a hexadecimal fingerprint and an id |
| DecisionMeaning.CandidateMeans | agent/domain_selector.py:698-710 | a candidate is read exactly as written: identity, label or else identity, the first eight capability ids and reasons as far as they are valid, the score within 0 to 1000 |
| DecisionMeaning.ResolveMeans | agent/domain_selector.py:416-464 | the dictionary form is accepted as a decision if and only if every field reads as its own and status, selection and candidates fit together |
| DomainSelector.ScoreCapability | agent/domain_selector.py:673-691 | the score and reasons of one capability, collected hint by hint |
| DomainSelector.ScoreDomain | agent/domain_selector.py:164-188 | a Domain is a candidate exactly when some capability scores, with the best score and the merged reasons |
| DomainSelector.SelectCatalog | agent/domain_selector.py:159-220 | the whole selection: scored, sorted and decided by the margin |
| DomainSelector.ScoredFacts | agent/domain_selector.py:163-189 | the scored list is exactly the candidates, best first |
| DomainSelector.SelectedIffClearLead | agent/domain_selector.py:159-220 | over the whole selection: selected if and only if one candidate leads every rival by the margin; unmatched exactly when nothing scored; ambiguous offers the best of the scored list, two to eight of them, all within the margin of the leader, and leaves somebody within it out only when eight are offered |
| DomainSelector.ScoreBounded | agent/domain_selector.py:673-691 | no capability scores above 160, so the cap of 1000 in the dictionary form is never reached |
| CatalogMeaning.CollapseMeans | agent/domain_selector.py:739-740 | folding blanks keeps everything visible and leaves single blanks only |
| CatalogMeaning.HitsMean | agent/domain_selector.py:673-691 | the hits of a capability are exactly the phrases, the label and the identities that occur in the request, one for each |
| CatalogMeaning.ScoreMeans | agent/domain_selector.py:673-691 | a capability scores if and only if a hint of it occurs in the request, and then the best of 100 plus up to 40, 90 plus up to 30 and 70 plus up to 20, plus 5 for each further match up to 20 |
| CatalogMeaning.CandidateMeans | agent/domain_selector.py:164-188 | a Domain is a candidate if and only if a capability of it matches the request, with the best score and the matching capabilities near it |
| CatalogMeaning.TiesByName | agent/domain_selector.py:189 | among equal scores candidates stand in the order of their ids |
| CatalogMeaning.CatalogMeans | agent/domain_selector.py:159-220 | a request is unmatched if and only if no hint of any Domain occurs in it, and whatever is selected or offered is a Domain scored by what occurs |
| DomainSelector.CatalogDecisionValid | agent/domain_selector.py:159-220 | every catalog decision passes the router's own validation and resolves from its dictionary form |
| DomainSelector.FallbackDecisionValid | agent/domain_selector.py:254-277 | so does the decision taken when the primary selector fails |
| DecisionMeaning.FallbackMeans | agent/domain_selector.py:254-277 | the fallback hands on the catalog's decision in everything but the selector and the reason, and only when the primary selector fails |
| ModelSelector.ReadCandidates | agent/domain_selector.py:606-623 | the loop over the reply's candidates, or its first failure |
| ModelSelector.SelectFromReply | agent/domain_selector.py:587-641 | the whole reading of a model's reply, every refusal included |
| ModelSelector.ReplyIsCoherent | agent/domain_selector.py:587-641 | whatever was replied, an accepted reply makes a root drawn from the snapshot, with at most eight candidates and its reason stripped and cut at 96 |
| ModelSelector.ModelDecisionValid | agent/domain_selector.py:393-398 | the router accepts that decision if and only if the reason written was not all blanks, and its dictionary form then comes back up to blank edges |
| DecisionMeaning.KnownMeans | agent/domain_selector.py:606-623 | a candidate of the reply is accepted exactly as written when the snapshot knows its Domain and all its capabilities, under the snapshot's label |
| DecisionMeaning.ReplyMeans | agent/domain_selector.py:587-641 | a reply makes a decision if and only if that decision says what the reply says: its status, the first eight Domains it lists (or the one it selects), and the selection of the only one |
| DomainSelector.OverrideFacts | agent/domain_selector.py:331-348 | an override is a valid explicit selection, child of the prior decision, for the same request fingerprint |
| DecisionMeaning.OverrideMeans | agent/domain_selector.py:331-348 | an override is accepted if and only if the prior decision reads back and the chosen Domain is enabled and offered, and then selects that Domain explicitly, alone, for the prior's request |
| DomainSelector.OverrideChainKeepsRequest | agent/domain_selector.py:331-348 | along any chain of overrides the request fingerprint is that of the first decision, and each is the child of the one before |
| RoutingLedger.CacheHitsAreExact | agent/domain_routing_entry.py:278-289 | over any run the bounded cache stays within its capacity and every hit is what an unbounded ledger would answer |
| RoutingLedger.RecentDecisionIsKept | agent/domain_routing_entry.py:278-289 | a decision is still there unless its session was forgotten or `max_decisions` other ids were remembered after it |
| RoutingLedger.CommitOk | agent/domain_routing_entry.py:154-276 | a commit keeps both dictionaries within capacity, with distinct keys and decisions filed under their own id |
| RoutingLedger.ForgetOk | agent/domain_routing_entry.py:310-328 | so does forgetting a session |
| RoutingLedger.DomainRoutingState.constructor | agent/domain_routing_entry.py:44-52 | starts empty with a capacity clamped to 16..1024 |
| RoutingLedger.DomainRoutingState.RememberDecision | agent/domain_routing_entry.py:278-289 | moves the decision to the recent end and evicts from the old end |
| RoutingLedger.DomainRoutingState.RememberReceipt | agent/domain_routing_entry.py:291-301 | the same for receipts |
| RoutingLedger.DomainRoutingState.Save | agent/domain_routing_entry.py:77-84 | remembers the decision under its session |
| RoutingLedger.DomainRoutingState.GetDecision | agent/domain_routing_entry.py:86-97 | answers by id, and only to the decision's own session when one is named |
| RoutingLedger.DomainRoutingState.BoundTo | agent/domain_routing_entry.py:54-63 | answers the session's binding, none without a session or for an empty one |
| RoutingLedger.DomainRoutingState.Child | agent/domain_routing_entry.py:132-152 | finds the newest decision with that parent in the session |
| RoutingLedger.DomainRoutingState.CommitInteraction | agent/domain_routing_entry.py:154-276 | the whole commit: repeat, key conflict, existing child, new child, and every refusal |
| RoutingLedger.DomainRoutingState.DropAll | agent/domain_routing_entry.py:310-328 | removes exactly the listed decisions |
| RoutingLedger.DomainRoutingState.Forget | agent/domain_routing_entry.py:310-328 | removes the session's decisions, the receipts about them and, unless kept, its binding |
| RoutingLedger.DomainRoutingState.Bind | agent/domain_routing_entry.py:65-75 | binds a session once; another Domain is refused and changes nothing |
| RoutingLedger.DomainRoutingState.Lineage | agent/domain_routing_entry.py:99-130 | the loop collects the parent chain up to the clamped limit and returns it root first |
| RoutingSessions.LookupMeans | agent/domain_routing_entry.py:86-97 | a read answers a decision if and only if an entry of that id, in that session when one is given, holds it |
| RoutingSessions.ChildMeans | agent/domain_routing_entry.py:132-152 | the child found is the newest of that parent in the session; none is found if and only if there is none |
| RoutingSessions.FirstCommitMeans | agent/domain_routing_entry.py:221-276 | a first commit: a key in use is refused, an existing child is answered if and only if it selects the same Domain and is a conflict otherwise, and without a child the command's own decision is filed |
| RoutingSessions.RepeatedCommitMeans | agent/domain_routing_entry.py:195-219 | a repeated command is answered from its receipt if and only if key and fingerprint agree with it and the decision is still there, and changes nothing |
| RoutingSessions.BindMeans | agent/domain_routing_entry.py:54-75 | binding is refused if and only if the session is bound to another Domain, and touches no other session |
| RoutingSessions.LineageIsOfSession | agent/domain_routing_entry.py:99-130 | every decision of a lineage before the current one is filed where the asking session may read it |
| RoutingLedgerSafety.RunOk | agent/domain_routing_entry.py:77-328 | every run of saves, commits and forgets keeps the ledger well formed |
| RoutingLedgerSafety.RefusalsChangeNothing | agent/domain_routing_entry.py:195-250 | a refused or repeated commit leaves ledger and receipts as they were, and each conflict code has its exact cause |
| RoutingLedgerSafety.RunKeysDistinct | agent/domain_routing_entry.py:221-229 | over any run whose keys have at most 128 characters, no two receipts hold the same idempotency key |
| RoutingLedgerSafety.LongKeyCommitsTwice | agent/recovery_action.py:126-163 | any longer key commits for two subjects and leaves two receipts with one stored key |
| RoutingLedgerSafety.RunNoTwins | agent/domain_routing_entry.py:231-252 | over any run no parent has two retained children in one session |
| RoutingLedgerSafety.CommitLeavesAnswer | agent/domain_routing_entry.py:231-276 | a first commit leaves a receipt naming a retained decision, the one it created or the child it read back (if that keeps its id), and reports created exactly when there was no child yet |
| RoutingLedgerSafety.CommitIsIdempotent | agent/domain_routing_entry.py:196-219 | while receipt and decision are retained, every later commit for the subject and action changes nothing: with the same key and fingerprint it answers created false with the retained decision, which is the first answer if and only if that was created or reads back as itself; any other is refused as a conflict |
| RoutingReceipts.MissingMeansStranded | agent/domain_routing_entry.py:196-213 | a commit reports its result missing if and only if it repeats a command whose receipt is there and whose decision is not; nothing changes |
| RoutingReceipts.ReceiptGoesWhen | agent/domain_routing_entry.py:291-328 | a step drops a receipt if and only if it forgets a session that still holds its subject, or files a new receipt when this is the oldest of `max_decisions` |
| RoutingReceipts.StrandedStays | agent/domain_routing_entry.py:196-219 | over any run that neither drops the receipt nor files the decision again, every commit for the command is refused and changes nothing: as missing with its own key and fingerprint, as a conflict with any other |
| RoutingReceipts.SavesStrand | agent/domain_routing_entry.py:278-289 | saving `max_decisions` other decisions strands every committed command |
| RoutingLedgerSafety.ForgetIsExact | agent/domain_routing_entry.py:310-328 | forgetting removes exactly the session's decisions, exactly the receipts about them, and no other session's binding |
| RoutingLedgerSafety.LineageIsChain | agent/domain_routing_entry.py:99-130 | a lineage is bounded, without repeats, linked by parents, ends at the current decision, and stops early only at a missing, repeated or absent parent |
| RoutingEvidence.NormalizeCandidates | agent/domain_routing_evidence.py:221-236 | bounded, valid, distinct candidate ids that include the selected Domain, or a refusal |
| RoutingEvidence.CheckLinks | agent/domain_routing_evidence.py:248-253 | true exactly when every event names the one before it as its parent |
| RoutingEvidence.NormalizeEvents | agent/domain_routing_evidence.py:247 | every event normalised in order, or the first failure |
| RoutingEvidence.NormalizeLineage | agent/domain_routing_evidence.py:238-283 | the lineage with its ends, count and truncation checked against the decision |
| RoutingEvidence.NormalizeEvidence | agent/domain_routing_evidence.py:174-350 | the whole validator, with the specification function `Normalize` as its partner |
| RoutingEvidence.AcceptedIsWellFormed | agent/domain_routing_evidence.py:174-350 | every accepted payload yields evidence that meets the declarative well-formedness and names the expected Domain |
| RoutingEvidence.WellFormedIsFixed | agent/domain_routing_evidence.py:174-350 | evidence is accepted unchanged if and only if it is well formed and for the expected Domain |
| RoutingEvidence.NormalizeIsIdempotent | agent/domain_routing_evidence.py:174-350 | normalising accepted evidence again returns it unchanged, for all texts |
| RoutingEvidence.MillisecondsSettle | agent/domain_routing_evidence.py:468-477 | clamped and rounded latency lies in one day and is its own rounding |
| EvidenceMeaning.MillisecondsMean | agent/domain_routing_evidence.py:468-477 | a latency is rounded to the nearest count of microseconds, ties to even, and to a day at most |
| EvidenceMeaning.EventMeans | agent/domain_routing_evidence.py:380-408 | an event is accepted exactly as it is written: each identity and text stripped, a selection with a selected status and only then |
| EvidenceMeaning.NormalizeMeans | agent/domain_routing_evidence.py:174-350 | the validator accepts a payload as this evidence if and only if the payload says it, field by field, and it is well formed and about the expected Domain |
| RoutingEvidence.Bind | agent/domain_routing_evidence.py:105-131 | the whole binder: normalise, compare the bound run, replace the binding |
| RoutingEvidence.BindingIsAccepted | agent/domain_routing_evidence.py:105-131 | binding changes the binding alone, and its result is well formed and normalises to itself |
| RoutingEvidence.RebindIsSameRun | agent/domain_routing_evidence.py:105-131 | bound evidence can be bound again, to no effect, if and only if the run is the same; another run is a conflict |
| RoutingEvidenceBuilder.CandidateDomainIds | agent/domain_routing_evidence.py:431-442 | the distinct candidate Domains among the first eight, in order |
| RoutingEvidenceBuilder.BuildEvidence | agent/domain_routing_evidence.py:33-102 | the whole builder: the snapshot of decision and lineage, then the strict validator |
| RoutingEvidenceBuilder.LineageIsAccepted | agent/domain_routing_evidence.py:33-102 | strict building accepts a linked lineage of well-formed decisions if and only if each of its last eight reasons is readable, the current decision is not its own parent, its Domain is among its first eight candidates and its fallback note is not blank; and the evidence shows exactly that lineage |
| RoutingEvidenceBuilder.LineageTells | agent/domain_routing_evidence.py:41-102 | the events are the last eight decisions, and `truncated` is set exactly when more were given or the first retained one has a parent |
| EvidenceMeaning.ShownIdsMean | agent/domain_routing_evidence.py:431-442 | the candidate Domains shown are those of the first eight candidates, each once, in the order they first stand |
| EvidenceMeaning.BuiltTells | agent/domain_routing_evidence.py:41-102 | built evidence is bound to no run yet, and its observation names the selector up to its first dot, the number of Domains shown, the fallback note of the reason, no clarification, and the rounded latency |
| RoutingEvidenceBuilder.LedgerLineageIsAccepted | agent/domain_routing_entry.py:99-130 | the same for the lineage any ledger of well-formed decisions returns |
| RoutingEvidenceBuilder.BlankNoteIsRefused | agent/domain_routing_evidence.py:33-102 | a readable reason of more than 96 characters whose note is cut to blanks is refused |
| RoutingEvidenceBuilder.BlankNoteExists | agent/domain_routing_evidence.py:461-466 | such a decision exists |
| RoutingEvidenceBuilder.ShortNoteIsReadable | agent/domain_routing_evidence.py:57-62 | no reason within 96 characters has such a note |
| RoutingApplication.Application.constructor | agent/domain_routing_entry.py:402-423 | one router over one ledger |
| RoutingApplication.Application.RouteFor | agent/domain_routing_entry.py:611-617 | a bound session is restored without interpreting the request; any other is routed by name or by the selector |
| RoutingApplication.Application.SelectDomain | agent/domain_routing_entry.py:439-442 | routes and remembers, or changes nothing |
| RoutingApplication.Application.OverrideDecision | agent/domain_routing_entry.py:444-491 | looks the decision up for its session, and commits only what the gate let through |
| RoutingApplication.Application.CommitOverride | agent/domain_routing_entry.py:493-534 | override, binding check and commit, with the ledger each outcome leaves |
| RoutingApplication.Application.ChooseDecision | agent/domain_routing_entry.py:536-568 | a named decision is looked up, revalidated and checked against the binding; any other request is routed and saved |
| RoutingApplication.Application.PrepareRun | agent/domain_routing_entry.py:536-585 | a run up to its execution: clarification, or a selected decision with its evidence |
| RoutingApplication.Application.FinishRun | agent/domain_routing_entry.py:589-593 | binds the session to the Domain it ran on, or reports that it is bound elsewhere |
| RoutingApplication.Application.ClearUnboundSession | agent/domain_routing_entry.py:595-603 | forgets a session unless it is bound |
| RoutingSessions.ForeignOverride | agent/domain_routing_entry.py:444-491 | an override of a decision filed only under another session finds nothing and changes nothing |
| RoutingSessions.ForeignRun | agent/domain_routing_entry.py:536-556 | so does a run that names one |
| RoutingSessions.SessionsAreApart | agent/domain_routing_entry.py:444-568 | both over every interleaving: in no reachable state does a session get at a decision of another |
| RoutingSessions.NamedRunIsOwn | agent/domain_routing_entry.py:536-568 | a named run executes only a selected decision its session may read, on the Domain the session is bound to |
| RoutingSessions.RouteMeans | agent/domain_routing_entry.py:611-617 | a bound session is routed to its Domain, a named one (other than "auto") is taken as named, and only else does the selector decide |
| RoutingApplicationSafety.CatalogSupplies | agent/domain_selector.py:159-220 | every catalog answer is a coherent root, with a readable reason and at most eight candidates |
| RoutingApplicationSafety.FallbackSupplies | agent/domain_selector.py:254-277 | so is every fallback answer, for any error code; its reason is readable when the code has no control character |
| RoutingApplicationSafety.RoutedFacts | agent/domain_routing_entry.py:611-617 | a routed decision is a fresh root, valid for the deployment, and on the session's own Domain if it has one |
| RoutingApplicationSafety.OverrideIsRoutable | agent/domain_selector.py:331-348 | an override of a ledger decision is its child, valid, within the evidence bounds and for the same request fingerprint |
| RoutingApplicationSafety.AuthorizedIsFiled | agent/domain_routing_entry.py:493-528 | what an authorised override is about to commit is a fresh, valid child for its parent's request, even when the parent has been forgotten since it was looked up |
| RoutingApplicationSafety.SelectedRunIsEvidenced | agent/domain_routing_entry.py:536-585 | in every reachable state, whatever reasons the selector gave, a run on a selected decision has its lineage accepted as evidence if and only if each of the last eight reasons is readable and the decision's Domain and note can be shown, which they always can with at most eight candidates and a reason within 96 characters |
| RoutingApplicationSafety.RoutedRunIsEvidenced | agent/domain_routing_entry.py:536-585 | a run that routes its request on such a decision is evidenced if and only if that decision's own reason is readable |
| RoutingApplicationSafety.LineageSharesRequest | agent/domain_routing_entry.py:99-130 | all decisions of a lineage in the ledger carry one request fingerprint |
| RoutingApplicationRuns.RunKeepsApp | agent/domain_routing_entry.py:439-609 | over any interleaving of routing and saving, of an override's lookup, check and commit, of runs and forgets: bounded ledger, valid decisions, one child per parent and session, distinct idempotency keys, children answering their parent's request, bindings to registered Domains |
| RoutingApplicationRuns.OverrideAlone | agent/domain_routing_entry.py:444-534 | the three steps of an override, with nothing in between, leave the ledger `override` leaves |
| RoutingApplicationRuns.SelectAlone | agent/domain_routing_entry.py:439-442 | so do the two steps of a selection |
| RoutingApplicationRuns.BindingNeverMoves | agent/domain_routing_entry.py:65-75 | over any interleaving a session's binding stays until a forget drops it |
| RoutingApplicationRuns.SessionStaysOnDomain | agent/domain_routing_entry.py:536-593 | as long as each run begins on the Domain its session's runs are on, all the session completes is on the one Domain it is bound to |
| RoutingApplicationRuns.LoneRunBinds | agent/domain_routing_entry.py:589-593 | and no such run finds its session bound elsewhere when it ends |
| RoutingApplicationRuns.OneAtATimeAgrees | agent/domain_routing_entry.py:536-593 | runs that do not overlap meet that condition |
| RoutingApplicationRuns.JoiningDecides | agent/domain_routing_entry.py:589-593 | in every reachable state of a session on one Domain, a run that begins beside another and ends with it leaves the session on one Domain if and only if the two agree |
| RoutingApplicationRuns.OverlapSplitsSession | agent/domain_routing_entry.py:536-593 | two overlapping runs of an unbound session complete on two Domains, and only the first binds it |
| RoutingApplicationRuns.OverlapExists | agent/domain_routing_entry.py:536-593 | that happens in a deployment of two Domains |
| RoutingEvidenceReach.ModelSupplies | agent/domain_selector.py:587-641 | whatever the model replies, its selector meets what the application proofs ask of a selector |
| RoutingEvidenceReach.ShippedSupplies | agent/domain_selector_provider.py:307-312 | so does the selector production runs |
| RoutingEvidenceReach.ShippedRunIsEvidenced | agent/domain_selector_provider.py:307-312 | with that selector a run that routes its request is evidenced if and only if its stripped reason has no control character |
| RoutingEvidenceReach.PlainRunIsEvidenced | agent/domain_routing_entry.py:536-585 | where every decision retained has a readable reason within the cut, every run on a selected one is evidenced |
| RoutingEvidenceReach.PlainDeploymentIsEvidenced | agent/domain_routing_entry.py:439-609 | over any interleaving with a selector of such answers, explicit names, restored bindings and overrides included, no run on a selected decision is refused its evidence |
| RoutingEvidenceReach.ChildOfUnreadable | agent/domain_routing_evidence.py:41-48 | a decision whose retained parent is unreadable is refused its evidence |
| RoutingEvidenceReach.OverrideOfUnreadable | agent/domain_routing_entry.py:493-534 | so is the child of any override of an unreadable decision, as long as that is retained |
| RoutingEvidenceReach.UnevidencedStops | agent/domain_routing_entry.py:571-580 | such a run reports the refused evidence and never executes; what it routed stays saved |
| RoutingEvidenceReach.UnreadableRunExists | agent/domain_selector.py:632-641 | a reply with a line break in its reason does this in a deployment of two Domains |
| RoutingEvidenceReach.UnreadableOverrideExists | agent/domain_routing_entry.py:444-534 | and an ambiguous one does it to the Domain the user then chooses |
| Json.EscapedSize | agent/answer_generation.py:506-507 | a string's escaped form costs one to six characters for each of its own |
| Json.ReplaceSize | agent/answer_generation.py:506-507 | replacing one value changes the serialised size by exactly the difference of the two values' sizes |
| Json.FieldsGrow | agent/answer_generation.py:506-507 | fields that grow one by one never make the object shorter |
| Text.BoundedIdempotent | agent/domain_selector.py:713-719 | stripping and cutting again changes nothing exactly when the cut left no blank edge |
| Text.StripMeans | agent/domain_selector.py:713-719 | stripping takes the blanks off both edges and nothing else |
| Text.TokenMeans | agent/interaction_contract.py:903-905 | a token is the start of the text with NULs as blanks and its edges stripped, as far as the limit allows |
| InteractionSchema.CollectRequired | agent/interaction_contract.py:198-266 | the distinct required names that are declared properties, in order |
| InteractionSchema.CollectProperties | agent/interaction_contract.py:198-266 | the distinct named properties, each normalised one level down, or the first failure |
| InteractionSchema.NormalizeSchema | agent/interaction_contract.py:198-266 | the whole recursive normaliser, with the specification function `Normalize` as its partner |
| InteractionSchema.NormalizeIsShaped | agent/interaction_contract.py:198-266 | every accepted schema has at most 24 distinct properties per object, ordered bounds, required names that are declared, and at most the depth left to it |
| InteractionSchema.Renormalize | agent/interaction_contract.py:198-266 | a shaped schema with stable names is normalised to itself at any depth it fits |
| InteractionSchema.FixedIsStable | agent/interaction_contract.py:198-266 | only schemas with stable names come back unchanged |
| InteractionSchema.PublishedIsFixed | agent/interaction_contract.py:198-266 | a published schema survives a second normalisation if and only if all its names are stable |
| SchemaMeaning.RequiredMeans | agent/interaction_contract.py:236-240 | required are the declared names among the first 24 written, each once, in order |
| SchemaMeaning.EntriesMean | agent/interaction_contract.py:219-235 | published are exactly the first entry of each visible name among those read, in order; a schema below an entry that is not published is not looked at |
| SchemaMeaning.PublishMeans | agent/interaction_contract.py:198-266 | a schema is published if and only if it is admitted (a known type, published parts admitted, four levels deep), and the published one says what is written, keyword by keyword and level by level |
| InteractionInput.LevelsAgree | agent/interaction_contract.py:346-414 | validation that normalises at every level gives, for every value, the verdict of the checker that walks the published schema |
| InteractionInput.AcceptedConforms | agent/interaction_contract.py:346-414 | that checker accepts exactly the values that conform to the declarative meaning of type, enum, bounds, required, additionalProperties and items |
| InteractionInput.ValidateMeansConforms | agent/interaction_contract.py:346-414 | validating against any raw schema with stable nested names accepts exactly the conforming values |
| InteractionInput.CarriedEnumIsIdle | agent/interaction_contract.py:346-414 | for every value, raw schema and depth, validation gives the same verdict when all enums beside objects and arrays, at any depth, are erased |
| InteractionInput.UnstableNameMoves | agent/interaction_contract.py:346-414 | for a name cut to a blank edge the nested validator asks for the name cut twice, the published schema for the name cut once |
| InteractionInput.UnstableNameExists | agent/interaction_contract.py:903-905 | there is such a name |
| InteractionHost.CollectActions | agent/interaction_contract.py:131-140 | the distinct actions in order, or the first failure |
| InteractionHost.CollectBlocked | agent/interaction_contract.py:141-145 | the distinct recognised blocked actions in order |
| InteractionHost.NormalizedIsSound | agent/interaction_contract.py:119-173 | every normalised interaction has at most 12 distinct actions, allowed actions equal to their ids, shaped schemas, and none of either when unavailable |
| InteractionGate.InteractionFix | agent/interaction_contract.py:119-173 | a sound interaction with stable texts is its own normal form |
| InteractionGate.DispatchedIsPermitted | agent/interaction_host.py:36-97 | with stable texts a command is dispatched if and only if the freshly loaded interaction is available, has the same subject and revision, lists the action and the input conforms; and it is handed over unchanged |
| InteractionGate.CheckedKeyIsShort | agent/interaction_contract.py:269-307 | every dispatched command carries a key of 1 to 128 characters |
| InteractionGate.DispatchIsGuarded | agent/interaction_contract.py:310-343 | whatever the texts, a dispatched command met an available, sound interaction of its own subject and revision that allows the action and validates the input |
| InteractionGate.StaleRevisionIsRefused | agent/interaction_contract.py:310-343 | below a million, a command naming another revision than the current one is never dispatched |
| InteractionGate.RevisionsBeyondMillionMerge | agent/interaction_contract.py:684-702 | from a million on, neither the revision a command names nor the current one makes any difference to the gate's verdict |
| InteractionGate.RevisionsToldApart | agent/interaction_contract.py:310-343 | some command naming one revision is dispatched at another if and only if both are a million or more |
| InteractionGate.Host.constructor | agent/interaction_host.py:26-34 | starts with nothing dispatched |
| InteractionGate.Host.Publish | agent/interaction_host.py:36-66 | what is stored about a subject may change between any two commands |
| InteractionGate.Host.InvokeCommand | agent/interaction_host.py:68-97 | over any sequence of commands the dispatcher runs exactly when the gate lets the command through, and every command it ever saw was guarded |
| InteractionMeaning.ActionMeans | agent/interaction_contract.py:798-802 | a value is read as an action if and only if its token in lower case is that action's word, or "approve" for confirm |
| InteractionMeaning.SubjectMeans | agent/interaction_contract.py:684-716 | a subject is accepted exactly as written: both references, the revision within its bounds, the Domain |
| InteractionMeaning.CommandMeans | agent/interaction_contract.py:269-307 | a command is accepted if and only if it can be read, and then says what was written |
| InteractionMeaning.OneActionMeans | agent/interaction_contract.py:176-195 | an action entry is accepted as an action exactly when its word and its schema say so |
| InteractionMeaning.BlockedMeans | agent/interaction_contract.py:141-145 | blocked are exactly the actions that some entry's word says |
| InteractionMeaning.InteractionMeans | agent/interaction_contract.py:119-173 | a normalised interaction says what was written, or is the one unavailable interaction about nothing |
| InteractionMeaning.DispatchMeans | agent/interaction_host.py:36-97 | a dispatched command carries the action its own word says and its own input, and the interaction just loaded offers that action, about the same subject at the same bounded revision |
| InteractionMeaning.UnknownWordIsRefused | agent/interaction_contract.py:269-288 | a command whose word says no action is never dispatched |
| TextShares.SharesWithin | agent/answer_generation.py:559-570 | the shares together stay within the budget and none exceeds its document |
| TextShares.SharesStep | agent/answer_generation.py:559-570 | one more character of budget takes nothing from any share and adds at most one in all |
| TextShares.SharesMonotone | agent/answer_generation.py:559-570 | shares grow with the budget, none faster than it |
| TextShares.FairShares | agent/answer_generation.py:559-570 | when no document is shorter than an even share, the shares sum to the budget and differ by at most one |
| TextShares.FirstIsServed | agent/answer_generation.py:559-570 | any budget buys some of a non-empty first document |
| AnswerBudget.WithTextBudget | agent/answer_generation.py:559-570 | the loop over `remaining` gives each card exactly its share of its page |
| AnswerBudget.MoreTextCostsMore | agent/answer_generation.py:572-583 | a budget that fits leaves every smaller one fitting |
| AnswerBudget.MoreCardsCostMore | agent/answer_generation.py:542-550 | a leading run that fits leaves every shorter one fitting |
| AnswerBudget.LargestBudgetFits | agent/answer_generation.py:572-583 | a text budget fits if and only if it is no larger than the one chosen |
| AnswerBudget.LongestRunFits | agent/answer_generation.py:542-550 | a leading run of cards fits if and only if it is no longer than the one kept |
| AnswerBudget.AnswerContext.KeepLeadingCards | agent/answer_generation.py:542-550 | the countdown ends at the longest leading run that fits |
| AnswerBudget.AnswerContext.FitTexts | agent/answer_generation.py:572-583 | the binary search leaves the packet with the largest fitting budget |
| AnswerBudget.AnswerContext.FitWebDocuments | agent/answer_generation.py:520-583 | both steps together, the empty and the non-list cases included |
| AnswerContextFit.Fitted | agent/answer_generation.py:503-645 | whatever the packet and the steps, the result is within 12000 characters |
| AnswerContextFit.EssentialsFit | agent/answer_generation.py:631-645 | the final projection fits whatever the packet held |
| AnswerContextFit.DocumentsFitted | agent/answer_generation.py:520-583 | fitting the documents changes no other key, leaves a packet that fits, and drops them only when not even one card fits |
| AnswerContextFit.CardsMatchPages | agent/answer_generation.py:520-541 | every card and the page text at its place come from one document if and only if the documents that are objects stand before all others |
| AnswerContextFit.ExcerptsAreOwn | agent/answer_generation.py:520-570 | when the objects stand first, as they do in every packet, each card carries the start of its own page |
| AnswerContextFit.ContextFitter.CompactAll | agent/answer_generation.py:587-611 | the blocks' loop compacts each object where it stands |
| AnswerContextFit.ContextFitter.TrimSummary | agent/answer_generation.py:587-612 | compacts the summary and keeps the first eight of the given steps |
| AnswerContextFit.ContextFitter.ShortenTexts | agent/answer_generation.py:616-645 | the stages after compaction, ending within the limit |
| AnswerContextFit.ContextFitter.KeepEssentials | agent/answer_generation.py:631-645 | the final projection replaces the packet only when it is still too long |
| AnswerContextFit.ContextFitter.FitAnswerContext | agent/answer_generation.py:503-645 | all stages in order, ending within 12000 characters for every packet |
| AnswerMeaning.BlockMeans | agent/answer_generation.py:589-610 | a summary block loses its facts, the entries of its evidence bundle and all but five keys of each source record, and nothing else |
| AnswerMeaning.FewStepsMeans | agent/answer_generation.py:587-612 | the first stage keeps the first eight blocks, each reduced where it stands, and the first eight steps of the run; nothing else is touched |
| AnswerMeaning.CompactStepsMeans | agent/answer_generation.py:509-518 | the second keeps of each step that is an object its id, tool, status and error, in order |
| AnswerMeaning.ShortTextsMeans | agent/answer_generation.py:624-626 | the third keeps the first three assumptions and the starts of goal and request |
| AnswerMeaning.EssentialsMean | agent/answer_generation.py:635-645 | the last holds seven keys and no other: the schema, five texts that are starts of the packet's own, and whether execution is complete as the packet says |
| AnswerMeaning.FittedMeans | agent/answer_generation.py:503-645 | the fitted context is the packet itself if and only if that fits; else it differs from it in six keys only, each reduced as above, or is its seven essentials when even the shortened packet does not fit |
| AnswerPages.ProjectWebDocuments | agent/answer_generation.py:480-500 | the last eight pages, within 6000 characters of text in all |
| AnswerPages.ProjectLeading | agent/answer_generation.py:484-499 | the loop: pages without text are skipped, and it ends at the first item that is no object or when the room is used up |
| AnswerPages.WebDocumentsFacts | agent/answer_generation.py:480-500 | at most eight pages and 6000 characters, all objects, each naming a fetched page and carrying the start of its text |
| AnswerMeaning.WebDocumentsMean | agent/answer_generation.py:480-500 | the pages are those of the last eight items, in order, each with its own address, title and as much of its own text as the pages before it left of 6000 characters; an item is passed over only if it is blank, stands after one that is no object, or finds no room |
| AnswerPages.SecondFittingIsIdle | agent/answer_generation.py:619-628 | when the packet is still too long after fitting its documents, fitting them again later changes nothing |
| AnswerPages.PagesSurvive | agent/answer_generation.py:503-645 | an oversized packet keeps pages if and only if one card fits beside its still unshortened texts |
| AnswerPages.AnswerCarriesOwnPages | agent/answer_generation.py:473-645 | whatever was fetched and however much had to go, every source card left names one of the projected pages, in their order, and what text it carries is the start of that page's own |
| ContextBudget.BoundedFits | agent/context_engineering.py:119-190 | with room for at least 512 characters the rendered context never exceeds it |
| ContextBudget.TextIsSections | agent/context_engineering.py:119-190 | the text is the serialisation of the returned sections, except for the last fallback, which is used only when no request prefix fits |
| ContextBudget.UntruncatedIsUnchanged | agent/context_engineering.py:119-190 | when nothing is reported as truncated every section, and the shared request object, is unchanged |
| ContextBudget.SectionsSurvive | agent/context_engineering.py:119-190 | every section is kept, compacted or marked as omitted; none appears or disappears |
| ContextBudget.SharedIsAtMostCut | agent/context_engineering.py:158-165 | the request object shared with the full sections is left alone or its two texts are cut once |
| ContextBudget.LongerPrefixCostsMore | agent/context_engineering.py:166-189 | a longer request prefix never renders shorter |
| ContextBudget.LongestPrefixIsKept | agent/context_engineering.py:166-189 | the prefix kept is the longest that fits, and without any the fallback is returned |
| ContextBudget.FallbackFits | agent/context_engineering.py:188 | the last fallback needs no more than 512 characters |
| ContextMeaning.TemplatesMean | agent/context_engineering.py:193-249 | a compacted catalog keeps everything but its templates, of which each keeps ten keys and its steps four, and counts what it returns and leaves out |
| ContextMeaning.OmittingMeans | agent/context_engineering.py:138-157 | sections give way in the listed order, each only if the text did not fit with those before it, and none after it fits |
| ContextMeaning.CutMeans | agent/context_engineering.py:158-163 | the cut keeps the start of each request text under its own key, with an ellipsis if and only if something was cut, and touches nothing else |
| ContextMeaning.PrefixMeans | agent/context_engineering.py:166-186 | a shortened request holds the start of each text under its own key, of the same length as far as the text goes, and its follow-up flag |
| ContextMeaning.BoundedMeans | agent/context_engineering.py:119-190 | nothing is given up if the context fits; else templates are reduced first, then sections give way, and only then is the request cut, to a third of the room or 40 characters, and then to a start that fits |
| ContextBuilder.RequestSection.Cut | agent/context_engineering.py:158-163 | cuts both texts of the shared object in place |
| ContextBuilder.SectionDict.OmitSections | agent/context_engineering.py:138-157 | omits advisory sections one by one, in the given order, until the text fits |
| ContextBuilder.SectionDict.SearchPrefix | agent/context_engineering.py:166-186 | the loop over prefix lengths ends with the longest that fits, if any |
| ContextBuilder.SectionDict.FitPrefix | agent/context_engineering.py:166-189 | the binary search finds the longest fitting prefix, on a fresh request object |
| ContextBuilder.SectionDict.ShrinkSections | agent/context_engineering.py:138-190 | omission, cut and search in order |
| ContextBuilder.SectionDict.BoundedRender | agent/context_engineering.py:119-190 | text, flag, sections and the state of the shared request object, all as specified |
| ContextBuilder.Build | agent/context_engineering.py:35-117 | the text is within the budget, and the full sections keep everything except the request object they share |
| CostGovernance.TokenBudget.constructor | agent/cost_governance.py:92-111 | starts with all permits free and nothing spent |
| CostGovernance.TokenBudget.CheckBudget | agent/cost_governance.py:128-134 | passes exactly without a limit or while the session has spent less than it |
| CostGovernance.TokenBudget.Charge | agent/cost_governance.py:136-143 | adds positive charges to that session and nothing else |
| CostGovernance.TokenBudget.AcquirePermit | agent/cost_governance.py:152-159 | takes a permit exactly when one is free or there is no gate |
| CostGovernance.TokenBudget.CountIn | agent/cost_governance.py:160-161 | counts one run in, as a step of its own |
| CostGovernance.TokenBudget.ReleasePermit | agent/cost_governance.py:163-165 | gives a permit back |
| CostGovernance.TokenBudget.CountOut | agent/cost_governance.py:166-168 | counts one run out unless the counter is already zero |
| CostGovernance.RunKeepsGate | agent/cost_governance.py:152-168 | every interleaving of paired callers keeps permits, counter and run phases consistent |
| CostGovernance.GateIsSafe | agent/cost_governance.py:152-168 | permits held never exceed the limit, the counter differs from them by exactly the runs inside the two gaps, and both agree when no run is in a gap |
| CostGovernance.NoStepIsLost | agent/cost_governance.py:163-168 | a running caller can always give its permit back, and the `> 0` guard never skips a decrement |
| CostGovernance.SoftBudget | agent/cost_governance.py:128-143 | with at most k runs between check and charge, each charging at most c, a session never spends more than limit - 1 + k*c |
| CostGovernance.SoftBudgetIsAttained | agent/cost_governance.py:128-143 | for every limit, k and c some run within those terms spends exactly limit - 1 + k*c |
| CostGovernance.OneAtATimeOverspends | agent/application/submission.py:133-173 | because the charge follows the release, a concurrency limit of 1 still lets any number n of runs charge n*c |
| PlanSchema.RefsAreFound | agent/plan_schema.py:140-161 | the search fails exactly on a malformed reference, and otherwise finds exactly the references that stand anywhere inside the arguments |
| PlanSchema.StepsFacts | agent/plan_schema.py:64-82 | accepted steps are as many as given, have distinct ids and use allowed tools |
| PlanSchema.StepMeans | agent/plan_schema.py:84-100 | a step passes exactly when each of its references is to a declared, strictly earlier step |
| PlanSchema.StepsMean | agent/plan_schema.py:84-100 | the reference check passes if and only if every step is sound |
| PlanSchema.AcceptedPlanRuns | agent/plan_schema.py:54-130 | in every accepted plan a list-order executor finds each reference, at any nesting depth, already completed by a declared dependency |
| PlanSchema.DirectAnswersHaveNoSteps | agent/plan_schema.py:102-130 | a plan has no steps if and only if it is a direct answer, and carries a message |
| PlanSchema.ParseSteps | agent/plan_schema.py:64-82 | the step loop, or its first failure |
| PlanSchema.CheckStepReferences | agent/plan_schema.py:84-100 | the reference loop of one step, or its first failure |
| PlanSchema.CheckReferences | agent/plan_schema.py:84-100 | the same over all steps |
| PlanSchema.ParseTaskPlan | agent/plan_schema.py:54-130 | the whole parser, every refusal included |
| PlanMeaning.WrittenRefMeans | agent/plan_schema.py:140-161 | a result reference is recognised exactly as it is written |
| PlanMeaning.StepMeansItem | agent/plan_schema.py:64-82 | an item is accepted as a step exactly when the step has its id, tool, arguments and dependencies, the id new and the tool allowed |
| PlanMeaning.StepsMeanItems | agent/plan_schema.py:64-82 | so are the items of a payload as its steps, in order |
| PlanMeaning.ParseMeans | agent/plan_schema.py:54-130 | a payload is accepted if and only if it is acceptable as it is written, and the plan then has its goal, its steps with their arguments, its assumptions and its output |
| PlanMeaning.AcceptedReferencesAreEarlier | agent/plan_schema.py:84-100 | in an accepted payload every object with a reserved key that is written anywhere in the arguments of an item is a reference to an earlier item it declares |
| DomainRuntimeHost.RuntimeHost.EnsureService | agent/domain_runtime_host.py:118-135 | makes a Domain's service at most once and files it only when the factory delivers |
| DomainRuntimeHost.RuntimeHost.StartServiceOf | agent/domain_runtime_host.py:180-186 | starts a Domain once |
| DomainRuntimeHost.RuntimeHost.Service | agent/domain_runtime_host.py:118-135 | the whole lookup: closed, disabled, made, started late when the host is running |
| DomainRuntimeHost.RuntimeHost.StartEach | agent/domain_runtime_host.py:137-169 | makes and starts the enabled Domains in order until one fails |
| DomainRuntimeHost.RuntimeHost.CloseEach | agent/domain_runtime_host.py:188-205 | the loop closes every service in reverse order, whatever fails, and tells whether any did |
| DomainRuntimeHost.RuntimeHost.Start | agent/domain_runtime_host.py:137-169 | a failed start closes all owned services and the host |
| DomainRuntimeHost.RuntimeHost.CloseServices | agent/domain_runtime_host.py:188-205 | closes every owned service in reverse order, whatever fails |
| DomainRuntimeHost.RuntimeHost.Close | agent/domain_runtime_host.py:171-178 | closes once; a second call does nothing |
| DomainRuntimeHost.RunKeepsOwnership | agent/domain_runtime_host.py:118-205 | on every run, whatever fails, each service made is owned or closed, by one enabled Domain |
| DomainRuntimeHost.ClosedIsFinal | agent/domain_runtime_host.py:207-212 | a closed host stays exactly as it is |
| DomainRuntimeHost.ClosedOnce | agent/domain_runtime_host.py:171-205 | no service is closed twice, and once the host is closed each service ever made has been closed exactly once |
| DomainRuntimeHost.ServiceIsStable | agent/domain_runtime_host.py:118-135 | while the host stays open a Domain keeps the one service it was given |
| DomainRuntimeHost.ServedIsStarted | agent/domain_runtime_host.py:118-186 | on every run, whatever fails, no service is started twice, and one handed out by a started host has been started exactly once |
| DomainRuntimeHost.StartStartsAll | agent/domain_runtime_host.py:137-169 | a start that succeeds has started the service of every enabled Domain |

## Left out

- Text: blanks and letter case beyond Latin-1 and ASCII, Unicode normalisation; NaN.
- SHA-256, UUIDs, clocks, SQL and JSON text: fingerprints and fresh ids are parameters, the clock never falls, rows are a map with compare-and-set, and a rolled-back write attempt is assumed to leave nothing behind.
- Decisions: bounding of `input_data`, labels, and restored status strings outside the known ones.
- RoutingLedger.DomainRoutingState.CommitInteraction: models the process-local ledger; a durable `store`, when one is given, is not part of this model.
- RoutingApplicationRuns.RunKeepsApp: routing and saving at the start of a run, and the lineage it reads, are one step; selections and overrides are taken apart at the ledger's lock.
- RoutingApplication.Application.OverrideDecision: the gate's verdict is a parameter (InteractionGate proves what it lets through); the projection of a decision into an interaction, the derived default key and the metrics are not part of this model.
- RoutingApplication.Application.PrepareRun: making the selected service (before the evidence is built) and calling it (before FinishRun) leave the ledger alone and are not part of this model.
- Receipts: the action label and optional evidence fields of `project_action_receipt`.
- DomainSelector.SelectCatalog: takes the snapshot already normalised; `normalize_domain_discovery_snapshot` is not part of this model.
- ModelSelector.SelectFromReply: the prompt, the transport and the reply's decoding are not part of this model; fields arrive as the texts and numbers Python reads from them.
- RoutingApplicationSafety.SelectedRunIsEvidenced: a selector may give any reason, but is taken to draw a fresh id and to answer with bounded candidates and a canonical selection, as every selector that ships does.
- Routers with more than 16 enabled Domains, the coercion of `template_count`, the selection's schema version, and an empty `source` in a selection mapping, which `resolve_domain_selection` reads as explicit.
- AnalysisIntent.NormalizeIntent: data kinds, fact references, unsupported fields and the field aliases of an intent are not part of this model.
- AnswerPages.AnswerCarriesOwnPages: takes the packet as it stands before fitting; the other sections `build_answer_context` puts in it are not part of this model.
- RoutingEvidence.MillisecondsSettle: rounds half to even over the reals; binary floating-point error and `float()` of arbitrary text are not modelled (a latency arrives as a reading).
- Evidence: the unavailable view for non-strict callers and `routing_evidence_identity`.
- Interactions: labels, titles, descriptions, kind, phase, reason, content, receipt and lineage fields; the legacy projections, which all end in `normalize_interaction`; the default input schemas are a parameter.
- InteractionGate.Host.InvokeCommand: the response's reprojection after dispatch and the loader's own I/O are not part of this model.
- ContextBuilder.Build: `sort_keys` ordering inside the rendering, `_safe_value` and the sanitising of overrides are not modelled; sections arrive already safe.
- AnswerContextFit.ContextFitter.FitAnswerContext: summary blocks or assumptions that are not lists count as empty, where the code would raise.
- InMemoryDecisionStore.InMemoryDecisionStore.Get: one sequential method; what other callers do between its read and its write is in InMemoryDecisionRuns, which has no `restore`.
- CostGovernance.GateIsSafe: assumes callers pair acquire with release, as `submission.py` does; the per-run token cap and the environment parsing are not part of this model.
- Domain runtime host: its catalog and Domain selection by request.
- HTTP routes, adapters, scripts, providers, prompts, streaming and field-by-field projections.
