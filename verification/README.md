# Verification of the approval, routing and evidence cores

A Dafny model of the parts of this repository whose correctness carries the rest, with proofs about every
input, every run and every interleaving.

- **Evidence canonicaliser** (`Numerals`, `CanonicalText`, `Evidence`, `CanonicalWriting`). The length-prefixed
  text of an evidence packet, a parser that inverts it, and an exact account of what the text remembers
  and forgets.
- **Approval protocol** (`Approvals`, `ApprovalService`, `ApprovalInterleaving`, `ApprovalFinality`). The state
  machine, the execution gate, the handlers over the in-memory store run one at a time, and the same handlers
  cut into single store accesses that interleave freely.
- **Model routing** (`PolicyGate`, `TierSelector`, `RoutingPlanner`). Complexity score, policy gate, tier
  choice, decision and HTTP status.
- **Order routing** (`Rounding`, `BestExecution`, `RoutePlanning`, `SimulatedOms`, `OrderProtocol`,
  `OrderApprovals`). Rounded cost arithmetic, venue ranking, propose/execute requests interleaving over one store,
  and what an approval is good for.
- **Policy sets** (`PolicyDiff`, `PolicyRepository`). Validation, the rendered difference, optimistic
  versions and history.
- **Demonstration data** (`DeterministicRandom`, `DemoData`). The 64-bit generator and its named streams,
  generated executions and alerts.
- **Surveillance triage** (`Triage`) and **research attribution** (`Attribution`).

`Prelude`, `Ordinal`, `Sorting`, `Runs` and `Platform` hold what these share: sequence facts, ordinal string
comparison, the stable sort behind `OrderBy`/`ThenBy`, runs of a state machine, and the platform functions a
`Host` supplies.

Methods and loops of the source are methods and loops here, proved against specification functions; what
the source promises is proved about those functions.

## Conventions

- A `char` stands for a UTF-16 code unit; only equality and order of characters are used. Stream names
  are hashed by code unit, as the source does.
- The digest of a packet, letter case and white space are functions of a `Host`; every result holds for every
  host. `Hashing` is the host whose digest hashes the canonical text; collisions are named where they matter.
- A packet's `double` is its round-trip text, and its `decimal` a mantissa and a scale without negative
  zero. Everywhere else a `decimal` is an exact real, rounded where the source rounds.
- Clock readings and generated identifiers are parameters. Exceptions the source raises on bad values are
  results (`Err` or `None`).
- A packet's dictionaries are sequences of entries in enumeration order, so that ignoring insertion order
  is a theorem. Sets enumerated and then sorted are sets.

## Where code and documentation differ

- The canonical text is documented as insensitive to the order of sources. The sort key omits the score,
  so this holds exactly when sources that share a key share a score (`SourceOrderIgnoredIff`).
- An outcome is documented as final. The store write carries no version check, so two handlers that read
  the same pending record can overturn one another (`FinalityFails`); outcomes of a run are final exactly when
  no write is stale (`OutcomesStandIff`), and always when handlers run one at a time.
- The endpoint's table of statuses differs from the one refusals publish, on three kinds
  (`StatusAgreesIff`), but none of them is ever answered: every refused request gets the published status as
  long as the clock does not go back (`RefusalsAnsweredAsPublishedIff`, `ProposalsAnsweredAsPublished`).
- A 410 can leave a proposal pending, when the deadline falls between two clock readings
  (`GoneLeavesPendingIff`, `GoneLeavesPendingExample`). On expiry the store is written before the event is
  appended, and the result of adding a new record is ignored; both are modelled as they are.
- A routing halt is documented to name its breaches; without quotes it names none (`HaltNamesBreachIff`,
  `NoQuotesHaltNamesNothing`). The endpoint turns away requests without quotes, so only a direct caller of the
  planner sees this.
- A candidate at the tier of the selected model is reported as costing more; it may cost the same, with a later
  deployment (`ReasonsAreTrue`).
- An approval is documented as single-use, and as checked against the proposal it was issued for. It names
  neither a proposal nor a correlation: the handler makes the authority out to the id the request names, so the
  check never refuses (`ProposalCheckNeverRefuses`), and one approval fills every stored proposal it is presented
  for, once each (`ServeFillsIff`, `ApprovalReusedIff`, `RequestsReuseIff`, `OneApprovalTwoFills`). The id comes
  from the order id alone, so a proposal can be replaced under it between review and fill
  (`RequestFillsReviewedIff`, `ReplacementIsFilled`).
- A request without a limit price is given the limit zero, so the notional ceiling never applies to it
  (`NoLimitEscapesCeiling`).
- Joined region names can hide a change of regions (`RegionChangeAlwaysShowsIff`), and slashes can make
  two policy sets share a key (`KeyUniqueIff`).
- Ranking is documented as immune to arrival order. A later assessment supersedes an earlier one, so this holds
  exactly when the assessments of every submitted alert agree and ranked alerts sharing an identifier are equal
  (`RankIgnoresArrivalIff`).

## Model

| member | source | states |
|---|---|---|
| CanonicalText.ParseUndoesEmit | src/Fcmr.Approvals.Domain/EvidencePacket.cs:226-230 | A parser reads any run of length-prefixed records back to exactly the records emitted. |
| CanonicalText.EmitUndoesParse | src/Fcmr.Approvals.Domain/EvidencePacket.cs:226-230 | The parser accepts nothing but text the writer emits. |
| CanonicalText.EmitAllInjective | src/Fcmr.Approvals.Domain/EvidencePacket.cs:226-232 | Two record lists with equal text are equal: no label or value can shift across a boundary. |
| CanonicalText.EmitExample | src/Fcmr.Approvals.Domain/EvidencePacket.cs:226-230 | The exact text of two records, lengths, separators and line end included. |
| Numerals.ValueOfDigits | src/Fcmr.Approvals.Domain/EvidencePacket.cs:214-215 | Printed counts and lengths read back to the number. |
| Numerals.NormaliseDecidesAmount | src/Fcmr.Approvals.Domain/EvidencePacket.cs:208-212 | Dividing by 1.000…m makes two decimals alike exactly when they are the same number, whatever their scales. |
| Numerals.DecimalTextInjective | src/Fcmr.Approvals.Domain/EvidencePacket.cs:208-212 | The printed decimal determines mantissa and scale. |
| Numerals.DecimalTextExamples | src/Fcmr.Approvals.Domain/EvidencePacket.cs:208-212 | Three decimals and their text: a point, zeros in front, a minus sign, and none of them. |
| CanonicalWriting.CanonicalWriter.Map | src/Fcmr.Approvals.Domain/EvidencePacket.cs:217-224 | Writing a dictionary appends its count and its entries in ordinal key order to the records written. |
| CanonicalWriting.CanonicalWriter.Money | src/Fcmr.Approvals.Domain/EvidencePacket.cs:208-212 | Writing an amount appends the record of the normalised decimal. |
| CanonicalWriting.Canonicalize | src/Fcmr.Approvals.Domain/EvidencePacket.cs:138-188 | The writer, driven field by field and loop by loop, produces the canonical form of the packet. |
| Evidence.RecordOrder | src/Fcmr.Approvals.Domain/EvidencePacket.cs:138-188 | For every packet the labels of its text, section by section, in the order of the source. |
| Evidence.FieldsUnderLabels | src/Fcmr.Approvals.Domain/EvidencePacket.cs:138-188 | Every text field and the score stands under its own label with its own type prefix, null told from empty. |
| Evidence.MoneyDecidesAmount | src/Fcmr.Approvals.Domain/EvidencePacket.cs:208-212 | Money records agree exactly when the amounts do. |
| Evidence.CanonicalFormDecides | src/Fcmr.Approvals.Domain/EvidencePacket.cs:138-188 | For every two packets: equal text if and only if equal scalar fields, claims in order, same amount, and equal sorted maps and sources. |
| Evidence.CanonicalFormDeterminesEvidence | src/Fcmr.Approvals.Domain/EvidencePacket.cs:138-188 | Equal text means the same evidence: no change of any field, map entry, claim or source survives hashing unnoticed. |
| Evidence.CanonicalFormIsEvidence | src/Fcmr.Approvals.Domain/EvidencePacket.cs:149-163 | With scores following keys, equal text if and only if the same maps, bag of sources, claims and amounts; insertion order, source order and scale are ignored. |
| Evidence.SourceOrderIgnoredIff | src/Fcmr.Approvals.Domain/EvidencePacket.cs:155-163 | The documented insensitivity to source order holds exactly when sources sharing document, chunk and excerpt share a score. |
| Evidence.SourceOrderCounterexample | src/Fcmr.Approvals.Domain/EvidencePacket.cs:155-163 | Two sources differing only in score, presented the other way round, change the text. |
| Approvals.ApplySound | src/Fcmr.Approvals.Domain/ApprovalStateMachine.cs:50-212 | A transition is accepted only from pending, keeps the proposal, yields a sound record stamped with the time, and its event says exactly that; a refusal event names the state in force. |
| Approvals.AcceptedDecisionIs | src/Fcmr.Approvals.Domain/ApprovalStateMachine.cs:107-174 | For every record, command, reason and instant an accepted command leaves its own target state, decider and time, exactly its reason when that is not blank and none otherwise, and the rest as it was. |
| Approvals.RefusedExactlyWhen | src/Fcmr.Approvals.Domain/ApprovalStateMachine.cs:50-156 | Each refusal kind is given exactly when it is the first rule broken, stated on the record and the command; so a command is accepted exactly when none is. |
| Approvals.EventSays | src/Fcmr.Approvals.Domain/ApprovalStateMachine.cs:50-212 | Every attempt leaves an event with its actor, record, instant, hash, resulting state and refusal. |
| Approvals.RunSound | src/Fcmr.Approvals.Domain/ApprovalStateMachine.cs:50-174 | Over any run of commands the record stays sound, the proposal unchanged, and a record that has left pending never changes. |
| Approvals.DecidedOnce | src/Fcmr.Approvals.Domain/ApprovalStateMachine.cs:50-174 | In any run at most one command is accepted, and exactly one when the record has left pending. |
| Approvals.DeadlineDivides | src/Fcmr.Approvals.Domain/ApprovalStateMachine.cs:80-126 | Before the deadline a person can decide and the expiry cannot be recorded; from the deadline on, the reverse. |
| Approvals.ProposeSound | src/Fcmr.Approvals.Domain/Approval.cs:93-160 | Every accepted proposal is a sound pending record pinned to its packet. |
| Approvals.ProposeSays | src/Fcmr.Approvals.Domain/Approval.cs:93-160 | Each refusal of a proposal exactly when it applies, and every field of an accepted one. |
| Approvals.RehydrateSays | src/Fcmr.Approvals.Domain/Approval.cs:193-279 | Each refusal to read a stored record back exactly when it applies; one that is read back is as it was stored. |
| Approvals.GateSays | src/Fcmr.Approvals.Domain/ExecutionGate.cs:61-131 | Each refusal of the gate exactly when it applies, and what an authorisation copies. |
| Platform.SameIdentityIff | src/Fcmr.Approvals.Domain/ApprovalStateMachine.cs:181-182 | Identities are the same exactly when, trimmed, they agree letter for letter but for case. |
| Platform.TrimRemovesPadding | src/Fcmr.Approvals.Domain/ApprovalStateMachine.cs:181-182 | Trimming removes the white space at both ends and nothing else. |
| Approvals.ReachableRecordsReadBackAndGate | src/Fcmr.Approvals.Domain/Approval.cs:193-279 | Every record reachable through Propose and any commands rehydrates field by field unchanged; the gate authorises it at any instant exactly when it is Approved, and what is authorised is what was proposed, by another identity, before the deadline. |
| Approvals.VerifiesIffSameText | src/Fcmr.Approvals.Domain/Approval.cs:79-83 | A record whose packet was replaced verifies exactly when the canonical text is the one pinned, or collides with it under the hash. |
| Approvals.ReplacedEvidenceIsRefused | src/Fcmr.Approvals.Domain/ExecutionGate.cs:61-131 | Barring a collision, no decision is accepted on, and no execution authorised by, a record whose packet was replaced by one with other evidence. |
| ApprovalService.InMemoryApprovalStore.UpdateAsync | src/approvals-service/Persistence/ApprovalStore.cs:80-86 | An update overwrites whatever record is there: no version is checked. |
| ApprovalService.InMemoryApprovalStore.AuditTrailAsync | src/approvals-service/Persistence/ApprovalStore.cs:96-105 | The trail of a correlation id is its events in append order. |
| ApprovalService.HandleCreate | src/approvals-service/Endpoints/ApprovalEndpoints.cs:40-113 | The create handler leaves the store and returns the status its specification gives. |
| ApprovalService.HandleDecide | src/approvals-service/Endpoints/ApprovalEndpoints.cs:142-225 | The decide handler leaves the store and returns the status its specification gives, expiry branch included. |
| ApprovalService.CreateSays | src/approvals-service/Endpoints/ApprovalEndpoints.cs:40-113 | When a create request is answered 201, 400 and 403, exactly, and what it leaves in the store and on the trail. |
| ApprovalService.DecideSays | src/approvals-service/Endpoints/ApprovalEndpoints.cs:142-225 | How every decision request is answered and what it leaves: 404, 400, 403, the expiry branch, and the decision it says under the name of the caller. |
| ApprovalService.RefusalsAnsweredAsPublishedIff | src/approvals-service/Endpoints/ApprovalEndpoints.cs:173-234 | A refused decision is answered with the status the refusal publishes, for every request, caller and record, unless the clock went back over the deadline between the two readings. |
| ApprovalService.ProposalsAnsweredAsPublished | src/approvals-service/Endpoints/ApprovalEndpoints.cs:80-98 | A refused proposal is answered with the status the refusal publishes. |
| ApprovalService.ServedWorldsReplayAndStand | src/approvals-service/Endpoints/ApprovalEndpoints.cs:99-225 | Over any calls served one at a time, the trail replays to the store, every refusal event carries the state in force, and a stored outcome is final. |
| ApprovalService.TrailReproducesStore | src/approvals-service/Endpoints/ApprovalEndpoints.cs:99-225 | From the empty store, replaying the trail of any approval gives its state, decider and decision time. |
| ApprovalService.GoneLeavesPendingIff | src/approvals-service/Endpoints/ApprovalEndpoints.cs:173-187 | A 410 leaves a proposal pending exactly when the deadline falls between the two clock readings of the handler. |
| ApprovalService.GoneLeavesPendingExample | src/approvals-service/Endpoints/ApprovalEndpoints.cs:173-218 | A create call and a late decision call from the empty store answer 410 and leave the proposal pending. |
| ApprovalInterleaving.UninterruptedDecide | src/approvals-service/Endpoints/ApprovalEndpoints.cs:142-225 | The decide handler split into read, resolve, audit and write steps does, uninterrupted, what one handler run does. |
| ApprovalInterleaving.UninterruptedCreate | src/approvals-service/Endpoints/ApprovalEndpoints.cs:40-113 | The same for the create handler. |
| ApprovalInterleaving.InterleavingsKeep | src/approvals-service/Endpoints/ApprovalEndpoints.cs:142-218 | Under every interleaving of handler steps proposals never change, nothing returns to pending, the trail only grows, and every stored record is sound with its event behind it. |
| ApprovalInterleaving.StoredDecisionsAreAttributable | src/approvals-service/Endpoints/ApprovalEndpoints.cs:190-218 | Every stored decision names a non-blank decider other than the proposer, was made before the deadline, and its event is in the trail. |
| ApprovalInterleaving.QuiescentTrailIsComplete | src/approvals-service/Endpoints/ApprovalEndpoints.cs:173-218 | With no handler in flight the request of every stored record, and every stored outcome, expiries included, are in the trail. |
| ApprovalFinality.OverturnsIffStale | src/approvals-service/Persistence/ApprovalStore.cs:80-86 | A step overturns a stored outcome exactly when it writes over a record that is no longer the one its handler read, with a different one. |
| ApprovalFinality.OutcomesStandIff | src/approvals-service/Persistence/ApprovalStore.cs:80-86 | Over any run from the empty store, every outcome ever stored stands to the end exactly when no write of the run replaces a record its handler did not read by a different outcome. |
| ApprovalFinality.RaceOverturns | src/approvals-service/Endpoints/ApprovalEndpoints.cs:142-218 | Whenever a proposal can be made and decided, one run from the empty store stores it Approved and then replaces that by Rejected. |
| ApprovalFinality.FinalityFails | src/approvals-service/Endpoints/ApprovalEndpoints.cs:142-218 | Such a run, with concrete requests, identities and instants. |
| PolicyGate.ScoreFollowsSignals | src/Fcmr.Router.Decisions/ComplexityScorer.cs:33-55 | The raw score lies in [0, 1] and stronger signals never lower the rounded score or the indicated tier. |
| PolicyGate.ScoreMeasures | src/Fcmr.Router.Decisions/ComplexityScorer.cs:33-55 | The score is within half a unit in its fourth place of the weighted sum of the signals, and the tier follows it at 0.35 and 0.70. |
| PolicyGate.Evaluate | src/Fcmr.Router.Decisions/PolicyGate.cs:110-183 | The loop puts a candidate among the eligible exactly when its region, vendor, classification and cost are all cleared, and excludes every other under the first rule it breaks, catalog order kept. |
| PolicyGate.GateDecides | src/Fcmr.Router.Decisions/PolicyGate.cs:110-183 | Eligible are exactly the candidates the policy clears for the classification and region; each exclusion kind is given exactly when it is the first rule broken. Stated on policy, request and candidate alone. |
| PolicyGate.GateAccountsForAll | src/Fcmr.Router.Decisions/PolicyGate.cs:110-183 | Every candidate is on exactly one side, and exclusions are exactly the candidates with an objection, with that objection. |
| PolicyGate.TighterPermitsLess | src/Fcmr.Router.Decisions/PolicyGate.cs:110-183 | What a stricter policy permits, the laxer one permits. |
| TierSelector.PreferenceIsTotalOrder | src/Fcmr.Router.Decisions/TierSelector.cs:95-120 | The preference behind the three stages is one total preorder whose ties agree on tier, cost and deployment. |
| TierSelector.ChooseIsMinimum | src/Fcmr.Router.Decisions/TierSelector.cs:95-120 | The three-stage choice is a minimum of that order. |
| TierSelector.ChoiceIsFirst | src/Fcmr.Router.Decisions/TierSelector.cs:95-120 | The choice is the cheapest at the indicated tier; with none there the cheapest of the highest tier below; with none there the cheapest of the lowest above. |
| TierSelector.ChoiceSurvivesWithdrawal | src/Fcmr.Router.Decisions/TierSelector.cs:95-120 | Withdrawing candidates other than the chosen one leaves the choice unchanged. |
| TierSelector.RaisingCeilingHelps | src/Fcmr.Router.Decisions/TierSelector.cs:48-88 | Raising the ceiling never loses a selection, never worsens it, and keeps it once it is at the indicated tier. |
| TierSelector.BuildCandidates | src/Fcmr.Router.Decisions/TierSelector.cs:138-196 | The loop reports every candidate in catalog order, marking the chosen deployment and giving each other its first reason. |
| TierSelector.CandidatesShowPrices | src/Fcmr.Router.Decisions/TierSelector.cs:138-196 | The candidates are the prices, each once, by tier, cost and deployment, with every field shown and the chosen deployment marked. |
| TierSelector.CandidatesMarkSelection | src/Fcmr.Router.Decisions/TierSelector.cs:138-196 | Exactly one candidate is marked when a model is chosen and none otherwise; every unmarked one carries a reason. |
| TierSelector.ReasonsAreTrue | src/Fcmr.Router.Decisions/TierSelector.cs:155-181 | Each reason is true of its candidate: down, too dear, above or below the indicated tier, or at the tier of the selected model and never cheaper, as dear only with a later deployment. |
| RoutingPlanner.PlanRunsSelected | src/Fcmr.Router.Decisions/RoutingPlanner.cs:45-82 | A plan names exactly the selected model, which is permitted, up and within both ceilings, and is a downgrade exactly when it is below the indicated tier. |
| RoutingPlanner.PlanDecides | src/Fcmr.Router.Decisions/RoutingPlanner.cs:45-82 | End to end in plain terms: refused exactly when policy clears nothing, denied when nothing cleared may run, and otherwise the first choice among the cleared, available and affordable, at its tier and vendor. |
| RoutingPlanner.RefusalExplainsAll | src/Fcmr.Router.Decisions/RoutingPlanner.cs:84-144 | A refusal reports every candidate, in order, under the first rule of policy it breaks. |
| RoutingPlanner.SelectionSurvivesTightening | src/Fcmr.Router.Decisions/RoutingPlanner.cs:45-82 | Withdrawing models and tightening the policy together keep the selection as long as it is itself still offered and permitted. |
| RoutingPlanner.SelectionIgnoresCatalogOrder | src/Fcmr.Router.Decisions/RoutingPlanner.cs:45-82 | The selection does not depend on the order of the catalog. |
| RoutingPlanner.SelectedNoneIff | src/Fcmr.Router.Decisions/RoutingPlanner.cs:45-82 | Nothing is selected exactly when every permitted, available model exceeds the request ceiling. |
| RoutingPlanner.RaisingRequestCeilingHelps | src/Fcmr.Router.Decisions/RoutingPlanner.cs:70-73 | Raising the request ceiling never turns a selection into a denial nor into a worse-ranked model, and keeps one at the indicated tier. |
| RoutingPlanner.PolicyCeilingIsRedundant | src/Fcmr.Router.Decisions/RoutingPlanner.cs:70-73 | Taking the minimum with the policy ceiling never changes selection or outcome. |
| RoutingPlanner.StatusSaysWhy | src/router-service/Routing/RouteStatusMapper.cs:26-74 | End to end the status is 503 exactly when something is permitted and none of it is up, 402 exactly when something permitted is up and all of it is too dear, and 200 otherwise. |
| RoutingPlanner.OneCandidateMarked | src/Fcmr.Router.Decisions/RoutingPlanner.cs:45-144 | End to end one candidate is marked when a model is chosen and none otherwise. |
| Rounding.RoundMonotone | src/Fcmr.OrderRouting.Domain/BestExecutionEvaluator.cs:196-197 | Half-even rounding to any number of places never reverses an order. |
| BestExecution.ComputeCost | src/Fcmr.OrderRouting.Domain/BestExecutionEvaluator.cs:150-184 | Each figure is within half a unit in its last place of what it measures: share of liquidity, half the spread over the mid at lit venues and nothing at dark ones, impact, price moved against the order, cost on arrival value. |
| BestExecution.EvaluateVenue | src/Fcmr.OrderRouting.Domain/BestExecutionEvaluator.cs:95-148 | The evaluator lists each boundary exactly when it is broken, in assessment order, at the cost ComputeCost measures; the spread rule is stated on spread and mid to within half a hundredth of a basis point. |
| BestExecution.EvaluateOrder | src/Fcmr.OrderRouting.Domain/BestExecutionEvaluator.cs:74-93 | The order-level list holds the notional breach exactly when the notional exceeds its ceiling. |
| RoutePlanning.PlanRoute | src/Fcmr.OrderRouting.Domain/RoutePlanner.cs:87-151 | The planner as written, calling both evaluators, returns the specified outcome. |
| BestExecution.CostGrowsWithQuantity | src/Fcmr.OrderRouting.Domain/BestExecutionEvaluator.cs:150-184 | Through every rounding step total cost never falls as quantity grows, the empty-venue sentinel included. |
| BestExecution.CostFallsWithLiquidity | src/Fcmr.OrderRouting.Domain/BestExecutionEvaluator.cs:150-184 | Total cost never rises as displayed liquidity grows, from an empty venue upwards. |
| BestExecution.PriceFollowsCost | src/Fcmr.OrderRouting.Domain/BestExecutionEvaluator.cs:150-184 | A dearer total moves the projected price against the order. |
| BestExecution.EligibleForSmaller | src/Fcmr.OrderRouting.Domain/BestExecutionEvaluator.cs:95-148 | A venue eligible for an order is eligible for a smaller one exactly when it is lit or the smaller one still reaches the dark-pool minimum. |
| RoutePlanning.PlanProposesIff | src/Fcmr.OrderRouting.Domain/RoutePlanner.cs:87-151 | The plan proposes exactly when the notional is within its ceiling and some quote is eligible. |
| RoutePlanning.PlanPicksBest | src/Fcmr.OrderRouting.Domain/RoutePlanner.cs:87-151 | A proposal names the cheapest eligible venue, ties by code, at that venue's cost and within the limit price. |
| RoutePlanning.BestIsCheapest | src/Fcmr.OrderRouting.Domain/RoutePlanner.cs:98-103 | No eligible quote has a smaller sum of spread, impact and fee than the venue named, and none as cheap an earlier code. |
| RoutePlanning.HaltNamesBreachIff | src/Fcmr.OrderRouting.Domain/RoutePlanner.cs:87-151 | A halt names a breach exactly when there were quotes or the notional was too large. |
| RoutePlanning.HaltNames | src/Fcmr.OrderRouting.Domain/RoutePlanner.cs:105-127 | A halt names the notional ceiling alone when the order exceeds it, and otherwise exactly the boundaries broken at its venues. |
| RoutePlanning.NoQuotesHaltNamesNothing | src/Fcmr.OrderRouting.Domain/RoutePlanner.cs:118-127 | Without quotes an order within its ceiling is halted with no breach and nothing considered. |
| RoutePlanning.PlanIgnoresQuoteOrder | src/Fcmr.OrderRouting.Domain/RoutePlanner.cs:87-151 | With distinct venue codes the whole outcome ignores the order of the quotes. |
| OrderProtocol.Validate | src/orderrouting-service/Endpoints/OrderRoutingEndpoints.cs:293-323 | The validator lists each thing wrong with a request once, and nothing else. |
| OrderProtocol.RoutedSays | src/orderrouting-service/Endpoints/OrderRoutingEndpoints.cs:50-141 | When a propose request is answered 400, 500, 422 and with a proposal, exactly, and that the proposal is for the order asked for at the best of its quotes. |
| OrderProtocol.ProposeAsync | src/orderrouting-service/Endpoints/OrderRoutingEndpoints.cs:50-141 | The propose handler saves exactly the routed proposal and answers 201, or saves nothing and answers the status that turns it away. |
| OrderProtocol.ExecuteAsync | src/orderrouting-service/Endpoints/OrderRoutingEndpoints.cs:156-258 | The execute handler leaves the store and answers as its specification says. |
| OrderProtocol.ServeSays | src/orderrouting-service/Endpoints/OrderRoutingEndpoints.cs:156-258 | When an execute request is answered 404, 403, 409 and filled, exactly, and that only a fill marks its proposal. |
| SimulatedOms.FilledIffNoRuleBroken | src/Fcmr.OrderRouting.Domain/SimulatedOms.cs:120-184 | Each refusal exactly when it is the first rule broken, and what a fill copies. |
| OrderProtocol.InMemoryProposalStore.TryMarkExecuted | src/orderrouting-service/Persistence/ProposalStore.cs:50 | The mark succeeds exactly once for an id and records it. |
| OrderProtocol.UninterruptedExecute | src/orderrouting-service/Endpoints/OrderRoutingEndpoints.cs:156-258 | Find, check and mark without interruption do what one handler run does. |
| OrderProtocol.AtMostOneFill | src/orderrouting-service/Endpoints/OrderRoutingEndpoints.cs:156-258 | Under any interleaving of propose and execute requests an id is filled at most once, and marked executed exactly when it is filled. |
| OrderProtocol.RefusalConsumesNothing | src/orderrouting-service/Endpoints/OrderRoutingEndpoints.cs:198-232 | No action marks a proposal executed without filling it, and none fills without consuming exactly the proposal it fills. |
| OrderProtocol.FillsStandOnPlansAndAuthority | src/Fcmr.OrderRouting.Domain/SimulatedOms.cs:120-184 | Every fill copies venue, quantity and price of a saved proposal whose venue was the best eligible quote of some order, on an unexpired authority presented by an identity other than the proposer and made out, by the handler, to the proposal and correlation the request names. That the approval was given for that proposal is not established; see OrderApprovals. |
| OrderApprovals.ProposalCheckNeverRefuses | src/orderrouting-service/Endpoints/OrderRoutingEndpoints.cs:188-199 | On every reachable store, and for every request in flight, the check that the authority is for the proposal at hand never refuses. |
| OrderApprovals.ServeFillsIff | src/Fcmr.OrderRouting.Domain/SimulatedOms.cs:120-184 | A request is filled exactly when its proposal is stored and not executed, it carries an unexpired approval presented by some identity other than the proposer, and its correlation is the proposal's. Nothing asks which proposal was approved. |
| OrderApprovals.ServedTwiceIff | src/orderrouting-service/Endpoints/OrderRoutingEndpoints.cs:156-258 | Two requests served in turn are both filled on one approval exactly when each could be filled first and they carry that approval for two different proposals. |
| OrderApprovals.FillsComeFromRequests | src/orderrouting-service/Endpoints/OrderRoutingEndpoints.cs:156-258 | Under any interleaving every fill was made for a request of the run: on the approval it carried, for the proposal stored when it looked. |
| OrderApprovals.ApprovalReusedIff | src/orderrouting-service/Persistence/ProposalStore.cs:43-50 | Under any interleaving two fills stand on one approval exactly when two of the requests filled carried it for two different proposals: single use holds per proposal, not per approval. |
| OrderApprovals.OneProposalPerApproval | src/orderrouting-service/Persistence/ProposalStore.cs:43-50 | If no approval is presented for two proposals, no approval fills twice, under any interleaving. |
| OrderApprovals.RequestsReuseIff | src/orderrouting-service/Persistence/ProposalStore.cs:43-50 | On every host, some run from the empty store fills two given requests on one approval exactly when both carry that approval, presented by someone, for two different ids that orders can have. |
| OrderApprovals.OneApprovalTwoFills | src/orderrouting-service/Endpoints/OrderRoutingEndpoints.cs:156-258 | A concrete run from the empty store: two orders proposed and both filled on the approval "ap". |
| OrderApprovals.ReplacementIsFilled | src/orderrouting-service/Endpoints/OrderRoutingEndpoints.cs:156-258 | For every presentable request there is a run in which the proposal under its id is replaced by one for twice the quantity, which is then filled. |
| OrderApprovals.ReplacementIsFilledExample | src/orderrouting-service/Endpoints/OrderRoutingEndpoints.cs:156-258 | A concrete such run: "prop-A" stands for quantity 1 and is filled for quantity 2. |
| OrderApprovals.SmallShareRoutes | src/orderrouting-service/Endpoints/OrderRoutingEndpoints.cs:82-139 | A sell of any positive quantity without a limit routes, given one venue that shows enough. |
| OrderApprovals.NoLimitEscapesCeiling | src/orderrouting-service/Endpoints/OrderRoutingEndpoints.cs:82-96 | Without a limit price the notional ceiling never stops a request: it is answered 422 exactly when no quote is eligible, and a buy is eligible only at a price of zero or less. |
| OrderApprovals.RequestFillsReviewedIff | src/orderrouting-service/Endpoints/OrderRoutingEndpoints.cs:156-258 | After any further actions a request fills the proposal that stood earlier under the id it names exactly when the last save under that id since then saved the same proposal. |
| OrderApprovals.SameOrderSavesOver | src/orderrouting-service/Persistence/ProposalStore.cs:34-38 | The id comes from the order id alone, so a second entry of an order saves over the first under the same id and correlation. |
| PolicyDiff.ValidSetsServeWhatTheyPromise | src/Fcmr.Router.Decisions/PolicySetValidation.cs:70-122 | A valid set gives every approved vendor and no other a ceiling, and some approved vendor may process Restricted data when that is promised. |
| PolicyDiff.ValidateSays | src/Fcmr.Router.Decisions/PolicySetValidation.cs:70-122 | Each failure is given exactly when it is the first rule broken, and a set is valid exactly when none is. |
| PolicyDiff.Diff | src/Fcmr.Router.Decisions/PolicySetRepository.cs:186-250 | The method adds one entry per comparison that differs, in field order, with both renderings. |
| PolicyDiff.ChangesReport | src/Fcmr.Router.Decisions/PolicySetRepository.cs:186-250 | With plain region names the difference lists every governed field that changed, each once, and nothing else. |
| PolicyDiff.EmptyDifferenceIff | src/Fcmr.Router.Decisions/PolicySetRepository.cs:186-250 | With plain region names the difference is empty exactly when all five governed fields are unchanged. |
| PolicyDiff.EmptyDifferenceHidesOnlyRegions | src/Fcmr.Router.Decisions/PolicySetRepository.cs:186-250 | For every two sets an empty difference means four fields unchanged and equal rendering of regions: only regions can hide. |
| PolicyDiff.RenderInjective | src/Fcmr.Router.Decisions/PolicySetRepository.cs:255-256 | Sets of plain names render alike exactly when they are equal. |
| PolicyDiff.RegionChangeAlwaysShowsIff | src/Fcmr.Router.Decisions/PolicySetRepository.cs:255-256 | Every change away from a region set shows exactly when it is one non-empty name that does not split at a separator into ascending parts. |
| PolicyDiff.VendorsRenderInjective | src/Fcmr.Router.Decisions/PolicySetRepository.cs:252-253 | Vendor sets render alike exactly when equal. |
| PolicyDiff.ClassificationsRenderInjective | src/Fcmr.Router.Decisions/PolicySetRepository.cs:258-261 | Classification maps render alike exactly when equal. |
| PolicyRepository.Open | src/Fcmr.Router.Decisions/PolicySetRepository.cs:71-82 | A repository opens over its seed exactly when every set is valid, and otherwise reports the first failure. |
| PolicyRepository.SeedingGivesBaseline | src/Fcmr.Router.Decisions/PolicySetRepository.cs:71-82 | Seeding succeeds exactly when every set is valid, and files each under its own key. |
| PolicyRepository.InMemoryPolicySetRepository.Update | src/Fcmr.Router.Decisions/PolicySetRepository.cs:106-165 | An update answers not found, stale or invalid exactly when it is and then leaves the store alone; otherwise it puts every supplied field in force, keeps every other, records who updated, takes the next version and is logged with its difference. |
| PolicyRepository.AcceptedUpdateApplies | src/Fcmr.Router.Decisions/PolicySetRepository.cs:126-163 | For every accepted update each supplied field is in force, each other governed field is kept, and the updater is recorded. |
| PolicyRepository.RefusedUpdateSays | src/Fcmr.Router.Decisions/PolicySetRepository.cs:106-140 | Each refusal exactly when it applies. |
| PolicyRepository.FieldsFollowUpdates | src/Fcmr.Router.Decisions/PolicySetRepository.cs:126-138 | Over any run each governed field holds the value of the last accepted update that supplied it, or else the one seeded. |
| PolicyRepository.InMemoryPolicySetRepository.History | src/Fcmr.Router.Decisions/PolicySetRepository.cs:167-179 | History is the newest entries first, as many as asked for. |
| PolicyRepository.HistoryLeadsToCurrent | src/Fcmr.Router.Decisions/PolicySetRepository.cs:167-179 | After any run history shows nothing exactly when nothing was accepted, and otherwise shows the set in force first. |
| PolicyRepository.RunsKeep | src/Fcmr.Router.Decisions/PolicySetRepository.cs:106-165 | Over any run of updates stored sets are valid, keys never appear or vanish, and the log is exactly the accepted updates, chaining the seed to the present without a gap. |
| PolicyRepository.VersionCountsAccepted | src/Fcmr.Router.Decisions/PolicySetRepository.cs:126-163 | The version is the seed version plus the number of accepted updates, and each log entry is one version on. |
| PolicyRepository.OneAcceptedPerVersion | src/Fcmr.Router.Decisions/PolicySetRepository.cs:119-124 | Two accepted updates of one set never named the same expected version; later ones named later versions. |
| PolicyRepository.AcceptedIff | src/Fcmr.Router.Decisions/PolicySetRepository.cs:106-140 | After any run an update is accepted exactly when its set exists, it names the current version, and the result is valid. |
| PolicyRepository.UpdatesReachTheirOwnSet | src/Fcmr.Router.Decisions/PolicySetRepository.cs:263 | With business units free of slashes an accepted update changed the set it named. |
| PolicyRepository.KeyUniqueIff | src/Fcmr.Router.Decisions/PolicySetRepository.cs:263 | A key belongs to one business unit and id exactly when neither holds a slash. |
| PolicyRepository.EmptyUpdateBurnsAVersion | src/Fcmr.Router.Decisions/PolicySetRepository.cs:142-151 | An update that supplies nothing changes no field and still takes a version. |
| DeterministicRandom.StepInverse | src/Fcmr.Demo.Data/DeterministicRandom.cs:22-30 | The three shifts are a bijection on 64-bit states, inverted explicitly. |
| DeterministicRandom.OutputInverse | src/Fcmr.Demo.Data/DeterministicRandom.cs:29 | The output multiplication is a bijection. |
| DeterministicRandom.NothingIsZero | src/Fcmr.Demo.Data/DeterministicRandom.cs:16-30 | No state reached and no value drawn is ever zero. |
| DeterministicRandom.DrawsAgreeIff | src/Fcmr.Demo.Data/DeterministicRandom.cs:16-30 | Two generators agree at any one draw exactly when they have the same seed or one is zero and the other the constant that displaces it. |
| DeterministicRandom.FnvTellsApart | src/Fcmr.Demo.Data/DeterministicRandom.cs:69-79 | Names of one length that differ in one character hash apart. |
| DeterministicRandom.StreamsApartIff | src/Fcmr.Demo.Data/DeterministicRandom.cs:69-82 | Such names give streams whose k-th draws differ, for every k, exactly when neither derived seed displaces the other. |
| DeterministicRandom.Generator.NextUInt64 | src/Fcmr.Demo.Data/DeterministicRandom.cs:22-30 | A draw moves the state by one step and returns its output. |
| DeterministicRandom.ForStream | src/Fcmr.Demo.Data/DeterministicRandom.cs:69-82 | The loop computes the hash of the name and starts at the derived seed. |
| DeterministicRandom.FnvVectors | src/Fcmr.Demo.Data/DeterministicRandom.cs:69-79 | The published FNV-1a values of three names. |
| DeterministicRandom.DrawVectors | src/Fcmr.Demo.Data/DeterministicRandom.cs:22-30 | The first two states and values from the seed one. |
| DeterministicRandom.FractionTells | src/Fcmr.Demo.Data/DeterministicRandom.cs:47 | A drawn fraction tells the place of the raw value among all values to within one part in 2 to the 53. |
| DemoData.GenerateExecutions | src/Fcmr.Demo.Data/DemoDataGenerator.cs:180-212 | The nested loops produce the blotter that is a function of seed and orders alone. |
| DemoData.FillsConserve | src/Fcmr.Demo.Data/DemoDataGenerator.cs:190-208 | The fills of an order are positive, at most as many as drawn, numbered on, and add up to what remained. |
| DemoData.FillSizeShares | src/Fcmr.Demo.Data/DemoDataGenerator.cs:194-197 | A fill before the last takes an equal whole share of what remains, or a hundred when that is more. |
| DemoData.ExecutionsFulfilOrders | src/Fcmr.Demo.Data/DemoDataGenerator.cs:180-212 | Every order with its own identifier gets one to three positive executions summing exactly to its quantity, within fifteen minutes of it, at its own venue or a listed one; under any identifier what is executed is what was ordered. |
| DemoData.Shuffle | src/Fcmr.Demo.Data/DemoDataGenerator.cs:274-278 | The in-place exchanges realise the shuffle of the draws. |
| DemoData.ShufflePermutes | src/Fcmr.Demo.Data/DemoDataGenerator.cs:274-278 | The shuffle only rearranges. |
| DemoData.GenerateAlerts | src/Fcmr.Demo.Data/DemoDataGenerator.cs:214-281 | The batch is the function of seed and inputs that AlertsResolve describes; it fails exactly on a negative count, or a positive one without orders or without benign communications. |
| DemoData.AlertsResolve | src/Fcmr.Demo.Data/DemoDataGenerator.cs:214-281 | After the shuffle the alerts are a permutation of those built, each citing only existing communications and orders, minutes after the communication it grows from and in its symbol, with exactly the planned number concerning. |
| Triage.Rank | src/Fcmr.Surveillance.Domain/TriageRanker.cs:95-166 | The loops and sorts produce the specified batch, the last assessment of an alert in force; GapReportedIff, GapsAreOrdered and QueueIsOrdered say what that batch is. |
| Triage.GapReportedIff | src/Fcmr.Surveillance.Domain/TriageRanker.cs:113-144 | For every identifier and deficiency a gap is reported exactly when some submitted alert has no assessment, or one in force with a blank rationale, or with no evidence, respectively. |
| Triage.GapsAreOrdered | src/Fcmr.Surveillance.Domain/TriageRanker.cs:157-164 | Gaps stand in order of alert id, then deficiency. |
| Triage.BatchIgnoresAssessmentOrderIff | src/Fcmr.Surveillance.Domain/TriageRanker.cs:95-166 | The batch is the same for every arrangement of the assessments exactly when the assessments of every submitted alert agree. |
| Triage.RankAccountsForAll | src/Fcmr.Surveillance.Domain/TriageRanker.cs:113-165 | Ranked rows and not-scored gaps together are as many as the alerts submitted. |
| Triage.CompleteIff | src/Fcmr.Surveillance.Domain/TriageRanker.cs:70 | A batch is complete exactly when every alert has an assessment with a rationale and evidence. |
| Triage.QueueIsOrdered | src/Fcmr.Surveillance.Domain/TriageRanker.cs:146-155 | Positions count from one, risk never rises on the way down, ties stand in order of alert id. |
| Triage.QueueHoldsTheScored | src/Fcmr.Surveillance.Domain/TriageRanker.cs:113-155 | The rows are exactly the alerts that have an assessment, each with the one in force. |
| Triage.RankIgnoresArrivalIff | src/Fcmr.Surveillance.Domain/TriageRanker.cs:95-166 | The batch is the same for every arrangement of alerts and assessments together exactly when, besides, ranked alerts sharing an identifier are equal. |
| Triage.RankIgnoresSwapsIff | src/Fcmr.Surveillance.Domain/TriageRanker.cs:146-163 | The batch ignores the order of the alerts exactly when ranked alerts sharing an identifier are equal. |
| Triage.Measure | src/Fcmr.Surveillance.Domain/TriageQuality.cs:108-149 | The sets and the counting loop give the specified report, or the exception on a negative depth. |
| Triage.QualityMeasures | src/Fcmr.Surveillance.Domain/TriageQuality.cs:108-149 | The numbers of a report, by counting: rows examined, concerning alerts among them, and concerning alerts submitted. |
| Triage.SubmittedAreAlerts | src/Fcmr.Surveillance.Domain/TriageQuality.cs:119-130 | The identifiers counted as submitted are exactly those of the alerts, unscored ones included. |
| Triage.DeeperCatchesMore | src/Fcmr.Surveillance.Domain/TriageQuality.cs:132-148 | True positives never fall with depth and never exceed what is examined; the denominator of recall does not move. |
| Triage.CaughtWithinConcerningIff | src/Fcmr.Surveillance.Domain/TriageQuality.cs:117-148 | For every answer key and depth true positives stay within the concerning alerts exactly when no identifier is ranked twice. |
| Triage.PercentagesHonest | src/Fcmr.Surveillance.Domain/TriageQuality.cs:42-52 | For every batch precision lies in [0, 100], is never rounded up and shows 100 only when earned; so does recall when no identifier is ranked twice. Each is missing only when its denominator is zero. |
| Triage.RecallGrows | src/Fcmr.Surveillance.Domain/TriageQuality.cs:50-52 | Recall never falls as review goes deeper. |
| Triage.DistinctAlertsMeasureHonestly | src/Fcmr.Surveillance.Domain/TriageQuality.cs:108-149 | End to end, over alerts with distinct identifiers, true positives stay within the concerning alerts submitted, both percentages are honest, and the denominator of recall counts the submitted alerts the key names. |
| Attribution.Retrieve | src/Fcmr.Research.Domain/Retrieval.cs:46-67 | A retrieval is rejected exactly when an identifier occurs twice, naming the first that does; otherwise it keeps every chunk in order. |
| Attribution.RetrievalResult.Resolve | src/Fcmr.Research.Domain/Retrieval.cs:75-76 | Resolving finds the chunk retrieved under an identifier, if any. |
| Attribution.DetectedIff | src/Fcmr.Research.Domain/InjectionDetector.cs:73-115 | A chunk is detected exactly when its own text holds a finding. |
| Attribution.DetectionsAre | src/Fcmr.Research.Domain/InjectionDetector.cs:73-115 | Exactly the findings in retrieved texts are reported, under their chunk and source. |
| Attribution.QuarantinedAre | src/Fcmr.Research.Domain/AttributionGate.cs:92-98 | Quarantined are exactly the tainted chunks, in ordinal order, when the policy says so, and none otherwise. |
| Attribution.Apply | src/Fcmr.Research.Domain/AttributionGate.cs:82-192 | The nested loops produce the specified synthesis. |
| Attribution.PublishedIff | src/Fcmr.Research.Domain/AttributionGate.cs:115-145 | A claim is published exactly when some citation resolves to a retrieved chunk that is not quarantined, supported by exactly those chunks, each once. |
| Attribution.SupportingInOrder | src/Fcmr.Research.Domain/AttributionGate.cs:109-145 | Supporting chunks stand in the order in which they are first cited. |
| Attribution.UnresolvedInOrder | src/Fcmr.Research.Domain/AttributionGate.cs:115-130 | The unresolved identifiers are those of the citations of things never retrieved, all of them, in order. |
| Attribution.WithheldReasonIff | src/Fcmr.Research.Domain/AttributionGate.cs:105-177 | Each reason is given exactly when it applies, so the final branch is never taken; the unresolved identifiers are exactly those cited and not retrieved. |
| Attribution.SynthesisPartitions | src/Fcmr.Research.Domain/AttributionGate.cs:100-192 | Published and withheld claims partition the claims, each side in presentation order, and coverage counts them all. |
| Attribution.NoPublishedClaimRestsOnInjection | src/Fcmr.Research.Domain/AttributionGate.cs:92-145 | Under quarantine no published claim rests on a chunk whose text holds a finding. |
| Attribution.QuarantineOnlyWithholds | src/Fcmr.Research.Domain/AttributionGate.cs:94-96 | Quarantine only ever withholds, and detections are reported either way. |
| Attribution.CoverageHonest | src/Fcmr.Research.Domain/AttributionGate.cs:22-24 | Coverage is absent only without claims, never rounded up, and 100 exactly when nothing is withheld. |
| Attribution.BarIgnoresTruncation | src/Fcmr.Research.Domain/AttributionGate.cs:30-34 | With a minimum of one decimal place truncation never moves a synthesis across the bar. |

## Left out

- HTTP transport, authentication, role filters, hosting, telemetry, health checks, the Cosmos adapter and the web UI.
- SHA-256, UTF-8 encoding (with its replacement of lone surrogates) and JSON: results stop at the canonical text.
- Pattern matching for injection: what a text triggers is a function parameter.
- Prose: rationales, justifications, headlines, explanations, and the permitted/observed texts of breaches; reasons are enumerations.
- Escalation gate, route request validation, correlation id accessor, list endpoints: small beside the cores above.
- 32-bit overflow of versions, quantities and counts, and exceptions on null arguments.
- PolicyGate.ScoreFollowsSignals: the score is exact arithmetic, not binary floating point.
- BestExecution.CostFallsWithLiquidity: the same exact quotients as in CostGrowsWithQuantity.
- BestExecution.EvaluateVenue: a breach is its boundary and venue; the permitted and observed texts are not modelled.
- Attribution.DetectedIff: the detector's expressions are a function parameter, so what a text triggers is open.
- BestExecution.CostGrowsWithQuantity: quotients are exact before rounding, without the 28-digit limit of decimal division.
- PolicyDiff.Diff: costs are shown in thousandths, as the source formats them; the spelling of the digits is not modelled.
- DemoData.GenerateExecutions: the price of an execution is not modelled, though the draw it takes is; probabilities are exact reals.
- DemoData.GenerateAlerts: communications and orders are inputs; the generators of research, communications and orders only draw.
- DeterministicRandom.Generator.NextUInt64: the multiplication is taken from the function Output; draws within a range take the remainder of the raw value.
- Triage.Rank: an assessment's risk score is taken as stored; its range check and rounding on construction are not modelled.
- PolicyRepository.InMemoryPolicySetRepository.Update: the lock is modelled by serving updates one at a time.
