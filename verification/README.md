# Stagehand, verified

This project models the parts of Stagehand whose correctness is hardest to see and proves what they
promise, in Dafny. `dafny verify dfyconfig.toml` checks all of it.

| files | what they model |
|---|---|
| Stripe, StripeLaws, StripeRuns, StripeWitnesses, StripeRequests, StripeRejections, StripeSimulator | the Stripe ledger simulator: its state, the plan of each request, whole runs with injected and store failures, runs on which an expected law fails, and the simulator as an object |
| EventStore, EventQueue, EventCalls, EventManager | the event tables, AdvanceTime and PullDue as interleaved transactions, and the queue manager over its store as objects |
| SessionStore, Sessions, SessionLaws, SessionCalls, StuckFork, SessionManager | session, snapshot and run tables, Create, Snapshot, Fork and Restore as interleaved steps beside recorded runs and other writers of snapshots, and the manager over its store as objects |
| IgnorePaths, IgnoredPlaces, RunDiff, RunDiffLaws, RunDiffReport, RunDiffer, TreeDiff, DiffPlaces, Conformance, ConformanceFailures | path deletion on JSON trees, occurrence-indexed run alignment, the two recursive tree comparisons, and the conformance comparison |
| Replay, ReplayLaws, ReplayStore | the Python replay store: first-in-first-out queues under header-subset keys, and the nearest tier |
| Streams, StreamLaws, StreamCalls, StreamTools, StreamCapture | capturing a server-sent-event stream as events and rebuilding its text |
| Assertions, AssertionLaws, ActionKeys, Gates, GateLaws, GateEvaluator, StringSets | release gates, their direct reading, and their compilation to assertions |
| Actions, Contracts, ContractRules, ContractGenerator, GeneratedContracts, ContractEnforcer, ContractLaws, ContractDiff, ContractChanges, ContractDiffer | behaviour contracts: generation, validation, enforcement and the order-insensitive diff |
| Times, TimeTexts | stored time texts and the calendar |
| InspectTree, InspectNesting, InspectPrinter | the inspect forest |
| Luhn, Fallback, FallbackScores, FallbackMatcher | the card number check and the runtime fallback matcher |
| Text, TextLaws, Sorting, SortingLaws, KeyOrder, Results, Json, Int64 | strings, ordering, JSON trees and machine integers |

A loop of the original is a method with a loop, tied by its contract to a specification function; an
object whose methods change its fields is a class. The laws are lemmas about the specifications, for
all inputs, all runs and all interleavings. Every locked method of the simulator and of the replay
store is one step of a run; the queue and session managers hold no lock across store calls, so there
each store transaction is a step and calls interleave freely.

A specification function can be wrong in the same way as the loop it specifies. So what each main
operation does is said a second time without it, over the fields of the request and of the rows, lists
and documents before and after: StripeRequests, StripeRejections, EventCalls, SessionCalls,
RunDiffReport, IgnoredPlaces, DiffPlaces, ConformanceFailures, StreamCalls, StreamTools, AssertionLaws,
ActionKeys, GateLaws, ContractRules, GeneratedContracts, ContractChanges, FallbackScores, InspectNesting,
TimeTexts and TextLaws hold these laws.

What the model takes as given: canonical JSON text is injective; the classifications, amounts,
channels, domains, models and approval evidence that Stagehand observes in an interaction are fields of
the interaction; identity fields with their normalised URL, query and header views, JSON parsing of a stream
block and nearness scores of the replay store are arbitrary functions; scores are reals; generated ids
are new.

## Model

| member | source | states |
|---|---|---|
| StripeRuns.ReachableSound | internal/services/stripe/simulator.go:771-1058 | in every state any run of requests reaches: each intent's refunded amount is the sum of its refunds, lies between 0 and its amount, is positive only when succeeded, and the refunded flag holds exactly when both are equal; every refund names an existing succeeded intent of its currency; no payment method exactly in requires_payment_method; all references resolve |
| StripeLaws.RunSound | internal/services/stripe/simulator.go:484-1058 | soundness of the ledger is kept by every run from any sound state, whatever is injected and whichever loads, saves and queue writes fail |
| StripeLaws.PlanSound | internal/services/stripe/simulator.go:484-1058 | every accepted request of the eight kinds keeps the ledger sound |
| StripeLaws.RefundArithmetic | internal/services/stripe/simulator.go:1009-1041 | the 64-bit arithmetic of an accepted refund never wraps: the new total is the exact sum and stays within the amount |
| StripeLaws.RefundAcceptedIff | internal/services/stripe/simulator.go:980-1023 | in a sound ledger a refund request is accepted exactly if it names an existing succeeded intent and wants between 1 and what is left, where wanting 0 means all that is left |
| StripeLaws.RefundAmount | internal/services/stripe/simulator.go:1009-1023 | an accepted refund takes what was asked for, or all that is left if nothing was, and the 64-bit total does not wrap |
| StripeLaws.IdentityAlwaysFound | internal/services/stripe/simulator.go:1204-1209 | in a sound ledger the customer whose identity the webhooks of an accepted request carry always exists |
| StripeLaws.TotalAdd | internal/services/stripe/simulator.go:1025-1041 | a new refund adds exactly its amount to the total of its intent and to no other, whatever order the refunds are summed in |
| StripeLaws.NextIdIsFresh | internal/services/stripe/simulator.go:790-800 | the next formatted id of a counter was never formatted before |
| StripeRuns.NewIdsAreFresh | internal/services/stripe/simulator.go:484-521 | in a sound ledger no newly formatted id belongs to an object that is already there |
| StripeRuns.RunEvolves | internal/services/stripe/simulator.go:890-978 | over every run objects stay, refunds never change, an attached method never changes its customer, statuses only move forward in the table, and a terminal intent keeps amount, currency, status and method |
| StripeRuns.StepFollowsTable | internal/services/stripe/simulator.go:1425-1464 | one request moves a status by at most one edge of the transition table |
| StripeRuns.RejectedChangesNothing | internal/services/stripe/simulator.go:1060-1202 | a rejected request leaves the state as it was, whether it was injected, could not load or save, or broke a rule; only a webhook queue failure comes after the state was saved |
| StripeRuns.RunBounded | internal/services/stripe/simulator.go:1129-1162 | over every run, with any failures, no webhook is scheduled more often than the objects account for |
| StripeRuns.RunComplete | internal/services/stripe/simulator.go:1129-1162 | with scheduling succeeding none is missing either |
| StripeRuns.ExactlyOnce | internal/services/stripe/simulator.go:1129-1162 | with scheduling succeeding, each succeeded intent has exactly one succeeded webhook, each canceled one exactly one canceled webhook, each created object one creation webhook, and no intent more than one capturable webhook |
| StripeRuns.FullyRefundedIsFinal | internal/services/stripe/simulator.go:1009-1023 | a fully refunded intent accepts no further refund |
| StripeRuns.TerminalCustomerChangesIff | internal/services/stripe/simulator.go:1334-1364 | an accepted update of a terminal intent changes its customer exactly when that was empty and its method has an owner |
| StripeRuns.AttachKeepsAgreementIff | internal/services/stripe/simulator.go:722-769 | attaching a method keeps intents and their methods agreed on the customer exactly when every intent already using the method names the new owner |
| StripeRuns.OnlyAttachBreaksAgreement | internal/services/stripe/simulator.go:771-978 | every other accepted request keeps that agreement |
| StripeWitnesses.AgreementCanBreak | internal/services/stripe/simulator.go:722-822 | a run of four accepted requests from the empty ledger after which an intent and its attached method name different customers |
| StripeWitnesses.TerminalCustomerCanMove | internal/services/stripe/simulator.go:1334-1364 | a run of four accepted requests from the empty ledger that leaves a succeeded intent without a customer, and an accepted update asking for nothing that then gives it one |
| StripeRequests.CreateAcceptedIff | internal/services/stripe/simulator.go:771-822 | a new intent is accepted exactly if the customer and the method it names exist, the method belongs to nobody or to that customer, the amount is positive, a currency is given, and the status asked for fits the method |
| StripeRequests.CreateGivesWhatWasAsked | internal/services/stripe/simulator.go:771-822 | the intent answered and stored has the amount and the trimmed, lower-cased currency asked for, the method asked for, its owner or the customer asked for, and the status asked for or the one its method gives it; nothing else changes |
| StripeRequests.UpdateAcceptedIff | internal/services/stripe/simulator.go:890-960 | an update is accepted exactly if its intent exists, a terminal intent is asked for nothing it does not have, customer and method fit each other, the amount and currency asked for are usable, and the status reached follows the table and fits the method |
| StripeRequests.UpdateGivesWhatWasAsked | internal/services/stripe/simulator.go:890-978 | in the intent answered and stored every field named by the request has the value asked for and every other the old one, but for the owner a method brings and the status a first method gives; nothing else changes |
| StripeRequests.SimpleAcceptedIff | internal/services/stripe/simulator.go:484-720 | which requests on customers and methods are accepted |
| StripeRequests.CustomerGivesWhatWasAsked | internal/services/stripe/simulator.go:484-625 | a customer answered and stored has the e-mail asked for, or keeps it where none is named |
| StripeRequests.MethodGivesWhatWasAsked | internal/services/stripe/simulator.go:627-720 | a new method belongs to nobody and an update leaves it its owner |
| StripeRequests.AttachAcceptedIff | internal/services/stripe/simulator.go:722-769 | a method can be attached exactly to an existing customer, unless it is somebody else's |
| StripeRequests.AttachGivesWhatWasAsked | internal/services/stripe/simulator.go:722-769 | an attached method has the customer asked for; attaching it once more changes nothing |
| StripeRequests.RefundTakesWhatWasAsked | internal/services/stripe/simulator.go:980-1058 | the refund answered and stored takes what was asked for, or all that is left, in the currency of its intent; the intent's total grows by it, the refunded flag tells whether anything is left, and nothing else changes |
| StripeRequests.AnsweredIff | internal/services/stripe/simulator.go:1060-1202 | a request is answered exactly if nothing is injected, the state loads and saves, it is acceptable, and the queue takes as many webhooks as it causes |
| StripeRejections.RejectedFor | internal/services/stripe/simulator.go:484-1058 | a request of any kind is planned exactly if nothing in the list of objections to its kind holds, and else fails with the error of the first one that does: what is missing, what cannot be used, what does not fit, in the order of the checks |
| StripeRejections.FailsFor | internal/services/stripe/simulator.go:1060-1202 | the error of a request over all that can go wrong: an injected error, a state that cannot be loaded, the first objection, a state that cannot be saved, a queue that does not take all webhooks |
| StripeSimulator.Simulator.Save | internal/services/stripe/simulator.go:1097-1105 | the saved state is replaced as a whole or not at all |
| StripeSimulator.Simulator.ScheduleWebhook | internal/services/stripe/simulator.go:1164-1202 | one webhook is appended unless the queue refuses |
| StripeSimulator.Simulator.SchedulePaymentIntentWebhooks | internal/services/stripe/simulator.go:1129-1162 | the creation webhook comes first, a status webhook only for a status just reached, and a failure leaves the prefix already scheduled |
| StripeSimulator.Simulator.CreateCustomer | internal/services/stripe/simulator.go:484-521 | the whole new state, log and answer equal the specified step |
| StripeSimulator.Simulator.UpdateCustomer | internal/services/stripe/simulator.go:581-625 | likewise, with the customer webhook after the save |
| StripeSimulator.Simulator.CreatePaymentMethod | internal/services/stripe/simulator.go:627-664 | likewise, with a rejected card changing nothing |
| StripeSimulator.Simulator.UpdatePaymentMethod | internal/services/stripe/simulator.go:683-720 | likewise |
| StripeSimulator.Simulator.AttachPaymentMethod | internal/services/stripe/simulator.go:722-769 | likewise; attaching again to the same customer schedules nothing |
| StripeSimulator.Simulator.CreatePaymentIntent | internal/services/stripe/simulator.go:771-822 | likewise, in the order references, amount, currency, status |
| StripeSimulator.Simulator.NextIntent | internal/services/stripe/simulator.go:890-960 | the field-by-field update is the planned one, with the same errors in the same order |
| StripeSimulator.Simulator.UpdatePaymentIntent | internal/services/stripe/simulator.go:890-978 | the whole new state, log and answer equal the specified step |
| StripeSimulator.Simulator.FinishRefund | internal/services/stripe/simulator.go:1025-1058 | refund and intent are saved together before the webhook |
| StripeSimulator.Simulator.CreateRefund | internal/services/stripe/simulator.go:980-1058 | the whole new state, log and answer equal the specified step |
| EventQueue.RunInvariant | internal/runtime/queue/manager.go:108-193 | under every interleaving of the transactions of any number of calls, with any of them failing: what each call has read stays true, no event is in two results, and no delivered event is lost |
| EventQueue.DeliveredExactlyOnce | internal/runtime/queue/manager.go:177-193 | every delivered event is in exactly one successful result and every event of a result is delivered |
| EventQueue.NeverEarly | internal/store/sqlite/store.go:644-697 | an event of a result was due at the clock of its call, in its session and mode, and the clock has been reached |
| EventQueue.FailedCallMarksNothing | internal/runtime/queue/manager.go:108-152 | in every run, none of the steps of a call that failed or has not ended has changed any event |
| EventQueue.NextExtends | internal/store/sqlite/store.go:465-535 | no clock goes back, no event is forgotten, and a delivered event never changes again |
| EventQueue.AdvanceAlone | internal/runtime/queue/manager.go:108-133 | an undisturbed AdvanceTime returns exactly the pending push events due by the new clock, in (due, id) order, and leaves none of them pending |
| EventQueue.PullAlone | internal/runtime/queue/manager.go:135-152 | likewise for PullDue and pull events |
| EventStore.ListingIs | internal/store/sqlite/store.go:644-697 | a due query has exactly the pending rows of the session and mode that are due, each once, in order |
| EventCalls.AdvanceHandsOut | internal/runtime/queue/manager.go:108-133 | an undisturbed AdvanceTime succeeds exactly for an existing session, a step that is not negative and times that are not the zero time; the batch then has exactly the rows that were pending, of the session and mode push, with a due time not after the new clock, stamped with that clock, by due time and then id, and exactly these rows are delivered |
| EventCalls.PullHandsOut | internal/runtime/queue/manager.go:135-152 | likewise for PullDue, pull events and the clock as it stands |
| EventCalls.ScheduleStores | internal/store/sqlite/store.go:586-631 | a scheduled event is stored under its id exactly if it is complete and its session exists |
| EventCalls.EnsureClockIff | internal/store/sqlite/store.go:416-463 | a clock that is there stays, a missing one of an existing session is set to the time given, and everything else is refused |
| EventCalls.AdvanceClockIff | internal/store/sqlite/store.go:465-535 | a clock moves by the step from where it stands or from the initial time, never back and never to the zero time |
| EventStore.ListingUnique | internal/store/sqlite/store.go:663-677 | there is only one such list, so the row order of the table is irrelevant |
| EventStore.MarkAllIs | internal/store/sqlite/store.go:699-758 | marking succeeds exactly if the ids are distinct pending rows of the session, then marks all of them, and otherwise marks none |
| EventManager.Store.EnsureSessionClock | internal/store/sqlite/store.go:416-463 | an existing clock is kept, a missing one is created |
| EventManager.Store.AdvanceSessionClock | internal/store/sqlite/store.go:465-535 | the clock moves by the step from where it stands or from the initial time |
| EventManager.Store.ListDueScheduledEvents | internal/store/sqlite/store.go:644-697 | the loop finds the one listing whatever order the rows come in |
| EventManager.Store.MarkScheduledEventsDelivered | internal/store/sqlite/store.go:699-758 | the loop marks all or none |
| EventManager.Manager.EnsureManagerClock | internal/runtime/queue/manager.go:154-175 | reads first and creates only a missing clock |
| EventManager.Manager.MarkDelivered | internal/runtime/queue/manager.go:177-193 | an empty batch touches nothing; otherwise all ids or none |
| EventManager.Manager.Stamp | internal/runtime/queue/manager.go:195-203 | every event of the batch carries the delivery time |
| EventManager.Manager.DeliverDue | internal/runtime/queue/manager.go:113-133 | listing then marking is the interleaved model run without interruption |
| EventManager.Manager.AdvanceTime | internal/runtime/queue/manager.go:108-133 | the method is the interleaved call run alone |
| EventManager.Manager.PullDue | internal/runtime/queue/manager.go:135-152 | the method is the interleaved call run alone |
| IgnorePaths.RemovesExactly | internal/analysis/diff/diff.go:292-328 | after a removal a place exists exactly if it did before and neither it nor a place around it is addressed by the path |
| IgnoredPlaces.StepIntoItem | internal/analysis/diff/diff.go:296-315 | what a segment means at an array: a star goes into every item, digits into the item they denote in 64-bit arithmetic, and any other segment looks into every item as if the array were not there |
| IgnoredPlaces.StepIntoMember | internal/analysis/diff/diff.go:317-327 | at an object a segment, even a star or a number, is the name of a member, and the last one ends there |
| IgnoredPlaces.IndexIs | internal/analysis/diff/diff.go:360-377 | a segment of decimal digits denotes its number wrapped to 64 bits |
| IgnorePaths.KeepsRest | internal/analysis/diff/diff.go:292-328 | at every place a removal does not cover the value is kept: scalars equal, arrays equally long, objects still objects |
| IgnorePaths.PlacesDetermine | internal/analysis/diff/diff.go:292-328 | a value is determined by its places and what stands there, so these two laws leave one possible result |
| IgnorePaths.Commutes | internal/analysis/diff/diff.go:292-328 | two removals can be done in either order on every JSON tree, stars, indexes and implicit descent included |
| IgnorePaths.Idempotent | internal/analysis/diff/diff.go:292-328 | removing a path twice is removing it once |
| IgnorePaths.OrderIrrelevant | internal/analysis/diff/diff.go:286-290 | any two listings of the same ignored set leave the same tree |
| IgnorePaths.RemoveIgnoredFields | internal/analysis/diff/diff.go:286-290 | ranging over the set in any order gives the value of every listing of it |
| RunDiff.KeyInjective | internal/analysis/diff/diff.go:165-166 | an occurrence key determines identity and number |
| RunDiff.AtNth | internal/analysis/diff/diff.go:160-172 | the interaction under the key of number n is the n-th occurrence of the identity, and there is one exactly for 1 to the number of occurrences |
| RunDiffLaws.OccurrencesMeet | internal/analysis/diff/diff.go:113-150 | the alignment consists of exactly the pairs of equally numbered occurrences, each once, in order of sequence and key |
| RunDiffLaws.NothingLost | internal/analysis/diff/diff.go:113-150 | the base sides of all pairs are a rearrangement of the base run, the candidate sides of the candidate run |
| RunDiffLaws.CountsAddUp | internal/analysis/diff/diff.go:87-110 | matched plus removed is the size of the base, matched plus added that of the candidate |
| RunDiffLaws.MatchedIsLeast | internal/analysis/diff/diff.go:113-150 | an identity is matched as often as it occurs on the side where it occurs less |
| RunDiffLaws.InputOrderIrrelevant | internal/analysis/diff/diff.go:152-158 | when no two interactions of a run share sequence and id, permuting either run changes nothing in the result |
| RunDiffLaws.NoChangesIff | internal/analysis/diff/diff.go:87-110 | no change is reported exactly if every identity occurs equally often and the n-th occurrences agree in sequence, document and a tier no worse |
| RunDiffLaws.SelfComparison | internal/analysis/diff/diff.go:69-111 | a run compared with itself shows no change |
| RunDiffLaws.ReportAddsUp | internal/analysis/diff/diff.go:87-110 | the additions and removals in the report account for the difference in size |
| RunDiffReport.ReportedIff | internal/analysis/diff/diff.go:69-111 | two runs of one named session are compared; a change is reported exactly if, for some numbered occurrence of an identity, it says what is the case: only the candidate or only the base has it; both do and their sequences differ; the tier comes later among none or exact, nearest neighbour, state synthesis, LLM synthesis, anything else; their documents differ without the ignored places. The flag for failing goes with the kind |
| RunDiffReport.RegressedIsRank | internal/analysis/diff/diff.go:513-532 | the ranks of the tiers are that order, spelled out |
| RunDiffReport.PairsInOrder | internal/analysis/diff/diff.go:135-144 | the report goes through the occurrences by sequence and then by key |
| RunDiffReport.ChangesInTurn | internal/analysis/diff/diff.go:87-108 | the changes follow the pairs and those of one pair come each at most once, the sequence before the tier before the content |
| RunDiffer.IdentityKey | internal/analysis/diff/diff.go:176-188 | the identity is the text of the identity fields without the ignored ones, removed in any order |
| RunDiffer.IndexInteractions | internal/analysis/diff/diff.go:152-174 | the counting loop numbers the occurrences |
| RunDiffer.AlignInteractions | internal/analysis/diff/diff.go:113-150 | the map, the order list and the sort by key produce the specified alignment |
| RunDiffer.SameContent | internal/analysis/diff/diff.go:102-106 | removing the ignored fields of both documents in any order decides whether they differ |
| RunDiffer.Report | internal/analysis/diff/diff.go:87-108 | the changes of one pair |
| RunDiffer.Compare | internal/analysis/diff/diff.go:69-111 | errors for missing and different sessions, else the reports of all pairs in order |
| TreeDiff.NoDifferenceIffEqual | internal/analysis/diff/diff.go:645-692 | the run diff reports no path exactly when the values are equal |
| TreeDiff.NoDiffIffErasedEqual | internal/analysis/conformance/runner_helpers.go:573-618 | the conformance diff reports no path exactly when the values are equal once null members and trailing nulls are erased |
| TreeDiff.DropNullsEqual | internal/analysis/conformance/runner_helpers.go:597-612 | lists without their final nulls are equal exactly when they agree at every index, missing items read as null |
| DiffPlaces.DiffersIff | internal/analysis/diff/diff.go:645-692 | a path is reported by the run diff exactly if it is the text of a place where the two values part: other scalars, another kind, a member only one has, lists of other lengths |
| DiffPlaces.CollectedIff | internal/analysis/conformance/runner_helpers.go:573-618 | likewise for the conformance diff, where missing members and items are read as null |
| TreeDiff.CollectDifferingPaths | internal/analysis/diff/diff.go:645-692 | the recursion over sorted keys and indexes appends exactly the specified paths |
| TreeDiff.CollectDiffPaths | internal/analysis/conformance/runner_helpers.go:573-618 | likewise for the conformance diff |
| Conformance.TableIs | internal/analysis/conformance/runner_helpers.go:486-495 | indexing observations loses none: each is found under its own numbered key |
| Conformance.NoFailuresIff | internal/analysis/conformance/runner.go:469-511 | nothing fails exactly if both sides have the same keys and every pair of equal keys differs at most at tolerated paths |
| Conformance.SelfConforms | internal/analysis/conformance/runner.go:469-511 | observations compared with themselves never fail |
| ConformanceFailures.FaultIff | internal/analysis/conformance/runner.go:469-511 | a failure is reported exactly if it is the case: an observation without a counterpart on the other side, where counterparts have the same base key and the same number of earlier observations with it; or a place where two counterparts part and that is neither listed as tolerated for the operation nor below a listed path |
| ConformanceFailures.ToleratedIff | internal/analysis/conformance/runner_helpers.go:658-668 | a path is tolerated exactly if it is listed or continues a listed one with a dot or a bracket |
| ConformanceFailures.ToleratedAtIff | internal/analysis/conformance/runner_helpers.go:637-656 | a difference is counted as tolerated exactly if it is covered and is not the interaction id |
| ConformanceFailures.MatchedAre | internal/analysis/conformance/runner.go:469-511 | the keys both sides have are as many as the observations with a counterpart |
| ConformanceFailures.FailuresInOrder | internal/analysis/conformance/runner.go:469-511 | the failures come by key and under one key by path |
| ConformanceFailures.KeyNumbers | internal/analysis/conformance/runner_helpers.go:486-495 | observations of one base key are numbered from 1 |
| Conformance.IndexObservations | internal/analysis/conformance/runner_helpers.go:486-495 | the counting loop builds the table |
| Conformance.SplitPaths | internal/analysis/conformance/runner_helpers.go:627-657 | failing, tolerated and internal paths partition the differing ones |
| Conformance.CompareObservations | internal/analysis/conformance/runner.go:469-511 | matched plus missing is the real side, matched plus extra the simulated side, the matched ones are the keys both sides have, missing, extra and failing paths together are the failures, and the tolerated paths of all pairs are counted |
| ReplayLaws.CandidateIff | sdk/python/stagehand/_openai.py:442-486 | a request tries the key of a recording exactly when verb, URL and body are the same and its headers are among the request's |
| ReplayLaws.MoreHeadersFirst | sdk/python/stagehand/_openai.py:533-545 | of two matching recordings the one with more headers is tried first |
| ReplayLaws.RunInOrder | sdk/python/stagehand/_openai.py:68-161 | over every sequence of seeds and requests, under every key: what was served exactly followed by what still waits is what was recorded, in order |
| ReplayLaws.ExactIff | sdk/python/stagehand/_openai.py:138-147 | a request is answered exactly if and only if a waiting recording matches it, and nothing that waits matches with more headers |
| ReplayLaws.NearestIff | sdk/python/stagehand/_openai.py:149-160 | a request is answered by the nearest tier exactly when nothing waits under its keys, the tier is allowed and an unused recording scores enough |
| ReplayLaws.BestIs | sdk/python/stagehand/_openai.py:173-192 | the nearest recording is the first of the highest score among the unused ones |
| ReplayLaws.OwnRequests | sdk/python/stagehand/_openai.py:68-161 | requests asked no more often than recorded are all answered by the exact tier, one recording of their own key after the other |
| ReplayLaws.RecordingsReplay | sdk/python/stagehand/_openai.py:68-161 | recordings answer their own requests, asked in the order recorded: each gets the interaction it came from |
| ReplayLaws.RunOnce | sdk/python/stagehand/_openai.py:138-161 | in every run with distinct ids an interaction answers twice only if the first answer was nearest and the second exact |
| ReplayLaws.ServedAtMostOnce | sdk/python/stagehand/_openai.py:138-161 | where the nearest tier is not allowed no interaction is served twice |
| ReplayLaws.ServesAgainIff | sdk/python/stagehand/_openai.py:138-161 | an answer repeats something served exactly if the head of the first queue found is marked used |
| ReplayLaws.NearestServedTwice | sdk/python/stagehand/_openai.py:149-159 | a concrete run in which a request whose body differs from the recorded one in its only field gets it as nearest, and the recorded request gets it again |
| ReplayStore.OpenAIReplayStore.Seed | sdk/python/stagehand/_openai.py:68-80 | every recording is appended to the queue of its one key and to the list |
| ReplayStore.OpenAIReplayStore.NearestMatch | sdk/python/stagehand/_openai.py:173-192 | the loop finds the best unused candidate |
| ReplayStore.OpenAIReplayStore.PopMatchForKeys | sdk/python/stagehand/_openai.py:130-161 | state and answer after one request are the specified ones |
| ReplayStore.OpenAIReplayStore.PopMatch | sdk/python/stagehand/_openai.py:82-96 | a request is answered by its candidate keys |
| ReplayStore.SelectHeaders | sdk/python/stagehand/_openai.py:538-544 | the bits of a mask select the headers |
| ReplayStore.SubsetKeyList | sdk/python/stagehand/_openai.py:462-474 | masks from the top down give each subset key once; the duplicate test never fires |
| ReplayStore.RequestKeys | sdk/python/stagehand/_openai.py:442-486 | the candidate keys, the one without headers last |
| Gates.SelectorIsViolation | internal/analysis/gates/evaluate.go:104-175 | the selector compiled for a valid blocking gate meets exactly the interactions that violate the gate as read directly |
| Gates.CompilationAgrees | internal/analysis/gates/evaluate.go:104-175 | evaluating the compiled assertion of a valid gate passes exactly when the gate holds as read directly, and its evidence is the violating interactions in run order, or for a required order a pair in order or else all that either side selects |
| Gates.CompiledIsValid | internal/analysis/assertions/schema.go:149-233 | a valid gate file always compiles to a valid assertion file |
| Gates.GateIdsDiffer | internal/analysis/gates/evaluate.go:104 | different gates get different assertion ids |
| GateLaws.GateRefusedIff | internal/analysis/gates/schema.go:160-276 | a gate is refused exactly if it has no name, no clause or several, a bad selector, a negative or missing amount, nothing to select where something must be, or a list that is empty, has a blank value or the same value twice |
| GateLaws.FileRefusedIff | internal/analysis/gates/schema.go:143-158 | a gate file is refused exactly if it has another version, no gates or one that is refused |
| GateLaws.SelectorRefusedIff | internal/analysis/gates/schema.go:261-285 | a selector is refused exactly if it names a tool beside a service or operation, an operation without a service, nothing where an action is required, or an unknown side effect |
| GateLaws.KindIs | internal/analysis/gates/evaluate.go:201-222 | the kind of a gate is the name of its one clause |
| GateLaws.GateIdIs | internal/analysis/gates/evaluate.go:104-105 | gates are numbered from 1 with at least three digits |
| GateEvaluator.Evaluate | internal/analysis/gates/evaluate.go:42-85 | refused exactly when not valid; else one result a gate with its own name, type and verdict, a summary that counts them, and an overall pass exactly when every gate holds |
| GateEvaluator.Translate | internal/analysis/gates/evaluate.go:87-102 | the table leads from every assertion id to the right gate |
| GateEvaluator.Summarize | internal/analysis/gates/evaluate.go:57-83 | the counters and the overall status fit the results |
| GateEvaluator.ValidateGateFile | internal/analysis/gates/schema.go:143-158 | no problem is reported exactly when the file is valid |
| GateEvaluator.ValidateGate | internal/analysis/gates/schema.go:160-208 | likewise for one gate: a name and exactly one valid clause |
| GateEvaluator.ValidateBlockIf | internal/analysis/gates/schema.go:210-224 | likewise: a selector and at least one condition |
| GateEvaluator.ValidateAllowed | internal/analysis/gates/schema.go:253-259 | likewise for the allowed lists |
| GateEvaluator.ValidateSelector | internal/analysis/gates/schema.go:261-276 | likewise for selectors |
| Assertions.MatchingInteractions | internal/analysis/assertions/evaluate.go:382-391 | the matching interactions in run order |
| Assertions.FirstPairIs | internal/analysis/assertions/evaluate.go:214-227 | an ordering pair is found exactly when some earlier match comes before some later one |
| AssertionLaws.OneField | internal/analysis/assertions/evaluate.go:393-453 | what a selector with one text field set selects |
| AssertionLaws.OneFlag | internal/analysis/assertions/evaluate.go:393-453 | likewise for an amount, a missing approval, a new action and an unknown risk |
| AssertionLaws.OneList | internal/analysis/assertions/evaluate.go:572-583 | a list excludes exactly the values it has, spaces at the ends and case aside; no value is never excluded |
| AssertionLaws.OneTool | internal/analysis/assertions/evaluate.go:455-463 | a tool selector selects the calls of that tool alone |
| AssertionLaws.FieldsNarrow | internal/analysis/assertions/evaluate.go:393-453 | a selector selects exactly what each of its fields selects alone |
| AssertionLaws.CountPassesIff | internal/analysis/assertions/evaluate.go:170-208 | a count assertion passes exactly if the number of selected interactions is the one wanted or lies within the bounds, and its evidence is the selected ones |
| AssertionLaws.OrderPassesIff | internal/analysis/assertions/evaluate.go:210-259 | an ordering assertion passes exactly if some selected earlier interaction comes before some selected later one; its evidence is such a pair, or all that either side selects |
| AssertionLaws.CountValidIff | internal/analysis/assertions/schema.go:196-215 | a count is refused exactly if it asks for nothing, for a number and bounds, for something negative, or for bounds that cross |
| AssertionLaws.MatchRefusedIff | internal/analysis/assertions/schema.go:319-329 | a selector is refused exactly if no field is set, it names a tool beside a service or operation, asks for a negative amount, or excludes a list with a blank value or one value twice |
| AssertionLaws.FileRefusedIff | internal/analysis/assertions/schema.go:149-233 | a file is refused exactly if it has another version, no assertions, a blank or repeated id, or an assertion that is bad for its type |
| ActionKeys.SameActionIff | internal/analysis/assertions/evaluate.go:585-592 | where service names have no line break, two interactions have one action key exactly if they call the same tool, or the same operation of the same service |
| ActionKeys.NewActionIff | internal/analysis/assertions/evaluate.go:93-102 | then an action is new exactly if no interaction of the base run has it |
| ActionKeys.KeysCanClash | internal/analysis/assertions/evaluate.go:585-592 | with a line break in a service name two different actions can have one key |
| ActionKeys.NamesIff | internal/analysis/contracts/generate.go:288-306 | an interaction has the key of a contract selector exactly if the selector names its tool, or its service and operation |
| Assertions.EvaluateCount | internal/analysis/assertions/evaluate.go:170-208 | the verdict is the conjunction of the bounds that are given |
| Assertions.FindPair | internal/analysis/assertions/evaluate.go:214-227 | the nested loops find the first pair |
| Assertions.EvaluateOrdering | internal/analysis/assertions/evaluate.go:210-259 | pass with the pair as evidence, or fail with all matches |
| Assertions.EvaluateWithOptions | internal/analysis/assertions/evaluate.go:80-92 | refused exactly when not valid, else one outcome an assertion in order, for files of count and ordering assertions |
| Assertions.ValidateFile | internal/analysis/assertions/schema.go:149-194 | no problem is reported exactly when the file is valid, ids distinct and not blank included, for files of count and ordering assertions |
| Assertions.ValidateCount | internal/analysis/assertions/schema.go:196-215 | likewise for the count bounds |
| Assertions.ValidateOrdering | internal/analysis/assertions/schema.go:217-233 | likewise for ordering assertions |
| Assertions.ValidateMatch | internal/analysis/assertions/schema.go:319-329 | likewise for selectors |
| StringSets.ValidateStringSet | internal/analysis/assertions/schema.go:360-374 | no problem is reported exactly when no value is blank and none occurs twice once trimmed |
| TextLaws.TrimIs | internal/analysis/assertions/schema.go:360-374 | trimming takes away the spaces at both ends and nothing else |
| TextLaws.StrLeIff | internal/store/sqlite/store.go:663-677 | a text comes before another exactly if it is a prefix of it or has the smaller code point where they first differ |
| Actions.TopEffectIs | internal/analysis/contracts/generate.go:564-588 | the accumulated side effect is a highest-ranked one of the action, and empty only if none ranks |
| Actions.TopEffectPermutes | internal/analysis/contracts/generate.go:564-588 | it does not depend on the order of the interactions |
| Actions.TiersSnoc | internal/analysis/contracts/generate.go:75-80 | appending a new tier and sorting gives the used tiers in canonical order |
| Actions.TiersPermute | internal/analysis/contracts/generate.go:754-767 | the tiers do not depend on the order of the interactions |
| Actions.MaxAmountIs | internal/analysis/contracts/generate.go:82-86 | the accumulated amount is the greatest observed one |
| ContractGenerator.Accumulate | internal/analysis/contracts/generate.go:49-90 | the accumulators of all actions after the loop are what the run shows about each |
| ContractGenerator.GenerateFromRun | internal/analysis/contracts/generate.go:43-130 | the file has one entry for each action in key order, reads allowed, the rest restricted, and the summary counts them |
| GeneratedContracts.GeneratedDescribes | internal/analysis/contracts/generate.go:43-130 | an action is in a generated contract exactly if some interaction of the run names it, and once: among the allowed ones if all its interactions only read, else among the restricted ones; its entry has the riskiest effect, the tiers in use in canonical order, the greatest amount, and wants approval for anything riskier than a write |
| GeneratedContracts.ModelsListed | internal/analysis/contracts/generate.go:86-104 | the models listed are those of the interactions that name an action, each once, in order |
| GeneratedContracts.EntriesAscend | internal/analysis/contracts/generate.go:92-130 | the entries come by key, each once |
| GeneratedContracts.UnknownCounted | internal/analysis/contracts/generate.go:106-130 | the entries of unknown risk are counted as such |
| ContractLaws.GeneratedValidIff | internal/analysis/contracts/schema.go:166-214 | a generated contract is valid exactly if the agent or session name is not blank, some interaction names an action, and no action's greatest amount is negative |
| ContractLaws.OwnRunOnlyLacksApproval | internal/analysis/contracts/enforce.go:60-143 | enforced on its own run a generated contract reports only missing approvals: one violation for each action that needs approval and lacks it somewhere, with exactly its unapproved interactions in run order |
| ContractLaws.OwnRunJudged | internal/analysis/contracts/enforce.go:71-121 | an interaction of the run is at fault exactly if its action's highest risk needs approval and it shows none |
| ContractLaws.LookupGenerated | internal/analysis/contracts/enforce.go:145-156 | every named action of the run is found in the generated contract, in the list its risk calls for |
| ContractEnforcer.ReportIs | internal/analysis/contracts/enforce.go:60-143 | a violation carries exactly the interactions it is about, and is reported exactly if there is one |
| ContractEnforcer.FindingsAre | internal/analysis/contracts/enforce.go:158-167 | every kind and key at fault is reported once |
| ContractEnforcer.JudgedIff | internal/analysis/contracts/enforce.go:71-143 | over the lists themselves: a named interaction is at fault as forbidden exactly if a forbidden action has its key, as new exactly if no action of any list has it, and as lacking approval exactly if no forbidden action has it and the last restricted one that does wants approval the interaction does not show |
| ContractEnforcer.FaultsReported | internal/analysis/contracts/enforce.go:60-143 | the kinds of fault and interactions in the reports are exactly these |
| ContractEnforcer.FoundInOrder | internal/analysis/contracts/enforce.go:158-167 | the findings come in the order in which the run first shows them |
| ContractEnforcer.NoFaultsIff | internal/analysis/contracts/enforce.go:60-143 | an enforcement passes exactly if no interaction is at fault in that sense |
| ContractEnforcer.ReportSays | internal/analysis/contracts/enforce.go:71-143 | a report names the action of its first interaction, with the effect and reason the contract gives it, or the effect seen where the contract has none |
| ContractEnforcer.ViolationKeyInjective | internal/analysis/contracts/enforce.go:169-171 | a violation key determines kind and action |
| ContractEnforcer.IndexActions | internal/analysis/contracts/enforce.go:145-156 | the index leads to the last action with a key |
| ContractEnforcer.Inspect | internal/analysis/contracts/enforce.go:71-121 | forbidden before restricted before allowed |
| ContractEnforcer.AddedIs | internal/analysis/contracts/enforce.go:158-167 | adding the finding of one more interaction gives the table and the order of the longer list |
| ContractEnforcer.Evaluate | internal/analysis/contracts/enforce.go:60-143 | refused exactly when not valid; else the reports of all findings in order of appearance, their counts, and a pass exactly if no interaction is forbidden, new or lacking approval by the lists of the contract; the reports show exactly the interactions at fault |
| Contracts.ValidateFile | internal/analysis/contracts/schema.go:166-187 | no problem is reported exactly when the file is valid, all selector keys distinct across the three lists and the user overrides well formed with distinct ids |
| ContractRules.FileRefusedIff | internal/analysis/contracts/schema.go:166-187 | a contract is refused exactly if it has another version, no agent, a blank or repeated model, no actions, a bad one, one key twice in any lists, or a bad or repeated override |
| ContractRules.ActionRefusedIff | internal/analysis/contracts/schema.go:189-214 | an action is refused exactly if its selector, effect, tiers, amount or approval is bad, or a reason is missing where one is needed |
| ContractRules.OverrideRefusedIff | internal/analysis/contracts/schema.go:216-245 | likewise for an override, which must also have an id, change something and give a reason |
| ContractRules.TiersValidIff | internal/analysis/contracts/schema.go:286-306 | a list of tiers is valid exactly if it is picked from the canonical list from left to right |
| Contracts.ValidateUserOverrides | internal/analysis/contracts/schema.go:216-245 | likewise for the user overrides |
| Contracts.ValidateActionList | internal/analysis/contracts/schema.go:189-214 | likewise for one list, given the keys seen before |
| Contracts.ValidateTiers | internal/analysis/contracts/schema.go:286-306 | likewise: known tiers in canonical order, none twice |
| Contracts.ValidateSelector | internal/analysis/contracts/schema.go:247-272 | likewise, with the key of a valid selector |
| ContractDiff.SnapshotForPermutes | internal/analysis/contracts/diff.go:110-141 | what a run shows about an action depends only on the collection of its interactions |
| ContractDiff.EvidencePermutes | internal/analysis/contracts/diff.go:110-141 | permuting a run permutes the evidence of each action, which is listed in run order |
| ContractDiff.RunOrderIrrelevant | internal/analysis/contracts/diff.go:77-108 | permuting either run leaves the changes and the risks, tiers, models and prompts they show as they are; the evidence beside them follows run order |
| ContractDiff.NoChangesIff | internal/analysis/contracts/diff.go:143-158 | no change is reported exactly when both runs show the same about every action |
| ContractDiff.SelfDifference | internal/analysis/contracts/diff.go:77-108 | a run against any permutation of itself shows no change |
| ContractChanges.ChangeIff | internal/analysis/contracts/diff.go:77-158 | a change is reported exactly if it says of an action what is the case in the two runs: only one has it, or both do and the effect, the tiers, the models or the prompts they show differ |
| ContractChanges.ChangesInOrder | internal/analysis/contracts/diff.go:91-158 | the changes follow the first appearance of their actions and those of one action come in turn, each at most once |
| ContractChanges.SnapshotForShows | internal/analysis/contracts/diff.go:110-141 | what a run shows of an action: its riskiest effect, the tiers in canonical order, the models and the prompt digests in order, each once |
| ContractChanges.ComparedIff | internal/analysis/contracts/diff.go:77-90 | two runs are compared exactly if both name one session |
| ContractDiff.KeyOrderIs | internal/analysis/contracts/diff.go:212-234 | the keys are reported by first appearance and key, whatever order the maps yield them in |
| ContractDiffer.MergePromptDigests | internal/analysis/contracts/diff.go:325-343 | the merged digests are the union, each once, in order |
| ContractDiffer.Update | internal/analysis/contracts/diff.go:120-138 | one interaction updates a snapshot to what the longer run shows |
| ContractDiffer.SnapshotsFromRun | internal/analysis/contracts/diff.go:110-141 | the table holds a snapshot for exactly the actions of the run |
| ContractDiffer.UnionKeys | internal/analysis/contracts/diff.go:212-234 | the keys of both tables in the specified order |
| ContractDiffer.CompareSnapshots | internal/analysis/contracts/diff.go:143-158 | the changes of one action |
| ContractDiffer.DiffRuns | internal/analysis/contracts/diff.go:77-108 | errors for missing and different sessions, else the specified difference |
| SessionLaws.RunInvariant | internal/runtime/session/manager.go:59-180 | under every interleaving of calls, recorded runs and other writers: a current snapshot belongs to its session, the source run of a snapshot is one of its session, snapshots and sessions are stored after their parents and never lose them, pending ids are fresh and held by one call, and what each call has read stays true |
| SessionLaws.ParentsEnd | internal/store/sqlite/store.go:256-355 | parent links of snapshots never form a cycle: they lead from every snapshot to a root in no more steps than there are snapshots |
| SessionLaws.SessionParentsEnd | internal/store/sqlite/store.go:61-83 | likewise for the parent links of sessions |
| SessionLaws.OthersUntouched | internal/runtime/session/manager.go:59-180 | a step of a call leaves every session but its own target as it is, with the state it is in |
| SessionLaws.TargetFixed | internal/runtime/session/manager.go:59-180 | a call keeps one target until it fails |
| SessionLaws.SnapshotIsCurrent | internal/store/sqlite/store.go:256-355 | an appended snapshot becomes current, with what was current as its parent |
| SessionLaws.RestoreIsCurrent | internal/runtime/session/manager.go:159-180 | a finished restore leaves the session in the state of the snapshot |
| SessionLaws.ForkIsCurrent | internal/runtime/session/manager.go:112-135 | the last step of a fork leaves the child in a snapshot of its own that copies the one read |
| SessionLaws.ForkReadsParent | internal/runtime/session/manager.go:75-100 | in every run, what a fork copies is the snapshot its parent was in at the very step in which the fork read the parent |
| SessionLaws.FinishedForkStartsFromParent | internal/runtime/session/manager.go:75-136 | in every run, the step that finishes a fork leaves the child in a copy of the snapshot the parent was in when the fork read it |
| SessionLaws.CopyStoredIff | internal/store/sqlite/store.go:201-226 | the store takes the copy a fork makes exactly if the snapshot copied names no source run |
| SessionLaws.ForkStuckIff | internal/runtime/session/manager.go:96-136 | in every reachable state, store errors apart, a fork whose child exists fails exactly when it is to store the copy of a snapshot that names a source run, and that step changes nothing |
| SessionLaws.ForkNeverStuck | internal/runtime/session/manager.go:96-136 | so in runs of the four calls of the manager alone it fails only on a store error |
| StuckFork.ForkMayStick | internal/runtime/session/manager.go:112-128 | a run from the empty store, no call failing on an error, after which a fork has left a child to delete |
| SessionLaws.BothKeep | internal/store/sqlite/store.go:315-345 | writing the row and the snapshot together keeps the tables consistent |
| SessionCalls.DeleteUndoesCreate | internal/store/sqlite/store.go:928-1012 | deleting a session that was just created takes away nothing but the runs recorded under its name |
| SessionCalls.StateComesBack | internal/runtime/session/manager.go:159-180 | whatever happened since a snapshot was stored, restoring it succeeds exactly if it is one of the session and the session is not younger than the call, and brings its very content back |
| SessionCalls.AppendAcceptedIff | internal/store/sqlite/store.go:256-355 | a snapshot is appended exactly if it is complete and new, the time is not the zero time, its session exists, and its source run, if named, is one of the session; what is missing is told apart from what is refused |
| SessionCalls.AppendGives | internal/store/sqlite/store.go:256-355 | the appended snapshot is the child of the one that was current and is current itself; all other rows stay |
| SessionCalls.CreateAcceptedIff | internal/store/sqlite/store.go:61-83 | when a session row is inserted, and with what |
| SessionCalls.UpdateAcceptedIff | internal/store/sqlite/store.go:155-199 | when a session row is written, and with what |
| SessionCalls.PutAcceptedIff | internal/store/sqlite/store.go:201-254 | when a snapshot is put, and with what |
| SessionCalls.RecordAcceptedIff | internal/store/sqlite/store.go:760-801 | a run is recorded exactly once, in a session |
| SessionCalls.CreateSucceedsIff | internal/runtime/session/manager.go:59-73 | Create succeeds exactly for a new name that is not blank |
| SessionCalls.SnapSucceedsIff | internal/runtime/session/manager.go:138-157 | in consistent tables Snapshot succeeds exactly in an existing session with a new id, whether or not the session has a current snapshot; the session is then in the state given, on top of where it was |
| SessionCalls.RestoreSucceedsIff | internal/runtime/session/manager.go:159-180 | in consistent tables Restore succeeds exactly if the snapshot is one of the session and the session is not younger than the call; only the session row changes, and the session is in that snapshot |
| SessionCalls.ForkSucceedsIff | internal/runtime/session/manager.go:75-136 | Fork succeeds exactly if the parent exists, the child has a new name and the parent is in no snapshot with a source run; the child is then in a copy of the parent's snapshot |
| SessionCalls.DeleteTakesAway | internal/store/sqlite/store.go:928-1012 | deletion takes away the session, its snapshots and the runs of its name, and the others keep everything but what pointed at it |
| SessionCalls.DeleteKeeps | internal/store/sqlite/store.go:928-1012 | deletion keeps the tables consistent |
| SessionManager.Store.Create | internal/store/sqlite/store.go:61-83 | a session is inserted once, under an existing parent |
| SessionManager.Store.Update | internal/store/sqlite/store.go:155-199 | the row is written only if its current snapshot is the session's own |
| SessionManager.Store.Put | internal/store/sqlite/store.go:201-254 | inserts or overwrites a snapshot of an existing session with an existing parent, if its source run is one of that session |
| SessionManager.Store.Append | internal/store/sqlite/store.go:256-355 | snapshot and row are written together or not at all, with the same demand on the source run |
| SessionManager.Store.Delete | internal/store/sqlite/store.go:928-1012 | a session goes with its snapshots and the runs of its name, and what pointed at them points nowhere |
| SessionManager.Manager.CreateNamed | internal/runtime/session/manager.go:59-73 | the method is the interleaved call run alone |
| SessionManager.Manager.TakeSnapshot | internal/runtime/session/manager.go:138-157 | likewise |
| SessionManager.Manager.ForkInto | internal/runtime/session/manager.go:75-136 | likewise, clean-up included: it succeeds exactly if the parent exists, the child can be created and the parent is in no snapshot with a source run; a failure leaves the tables as they were, but for the runs recorded under the child's name, which its deletion takes along |
| SessionManager.Manager.FinishFork | internal/runtime/session/manager.go:96-136 | likewise for the steps after the child exists, which succeed exactly if the copied snapshot names no source run |
| SessionManager.Manager.RestoreTo | internal/runtime/session/manager.go:159-180 | likewise |
| Streams.JoinSplit | sdk/python/stagehand/_capture.py:686 | splitting at blank lines loses nothing |
| StreamLaws.ReplayGivesBlocks | sdk/python/stagehand/_httpx.py:515-526 | the chunks of a captured stream, joined, are its non-empty blocks each ended by a blank line |
| StreamLaws.ReplayIsText | sdk/python/stagehand/_httpx.py:515-526 | they are the very text exactly if all pieces but a final empty one have text, or all pieces but the last two, an empty one and a lone newline, have text |
| StreamLaws.BlocksInStep | sdk/python/stagehand/_capture.py:688-776 | sequence numbers count from 3 without a gap and times never go back |
| StreamLaws.ToolsAlternate | sdk/python/stagehand/_capture.py:687-773 | at every moment, for every tool index, starts and ends alternate beginning with a start, and a call is open exactly if the table says so |
| StreamLaws.DoneClosesTools | sdk/python/stagehand/_capture.py:694-718 | after a done mark no tool call is open |
| StreamCalls.OpenIff | sdk/python/stagehand/_capture.py:694-773 | a tool call is open exactly if some block has called the tool and neither that block nor a later one has finished the calls or the stream |
| StreamCalls.FinishReasonIs | sdk/python/stagehand/_capture.py:731-734 | the finish reason of a block is the last one given that is not empty |
| StreamCalls.DoneAdds | sdk/python/stagehand/_capture.py:694-718 | a done mark ends the open calls in order and then the stream, at the present time |
| StreamCalls.ChunkAdds | sdk/python/stagehand/_capture.py:720-773 | any other block adds its chunk first, and the next block is one tick later |
| StreamCalls.EndedOnce | sdk/python/stagehand/_capture.py:775-785 | a stream that no done mark has ended is ended once, when all blocks are in |
| StreamTools.BlockCalls | sdk/python/stagehand/_capture.py:720-773 | a block of choices adds its chunk, then a start for the first call of each index that is not open, all at the present time and numbered on; every open call has the newest details, and if the block finishes the calls each ends with them in the order opened |
| StreamLaws.RecordedOrderlyIff | internal/recorder/schema.go:403-439 | the recorder accepts the events of a streamed response exactly if there is no done mark or the last block is one |
| StreamCapture.EndTools | sdk/python/stagehand/_capture.py:695-707 | all open calls are ended in the order they were opened |
| StreamCapture.StartTools | sdk/python/stagehand/_capture.py:740-757 | calls not open are started; the table takes the newest details |
| StreamCapture.ReadBlock | sdk/python/stagehand/_capture.py:691-775 | one block extends events, table and time as specified |
| StreamCapture.BuildStreamEvents | sdk/python/stagehand/_capture.py:681-786 | the loop builds the specified events, ending a stream nothing ended |
| StreamCapture.ExtractStreamChunks | sdk/python/stagehand/_httpx.py:515-526 | the chunks returned are chunks of the events, and joined they are the extracted text |
| StreamCapture.ValidateEvents | internal/recorder/schema.go:403-439 | the loop accepts exactly the orderly event lists |
| StreamCapture.CaptureBuffer.RecordStreamResponse | sdk/python/stagehand/_capture.py:390-419 | the interaction gets the next number and is appended |
| Times.TextOrderIsTimeOrder | internal/store/sqlite/store.go:1839-1841 | for years 0000 to 9999 stored times are ordered as text exactly as the instants are |
| Times.ParseUndoesFormat | internal/store/sqlite/store.go:1851-1853 | reading a stored time gives back the instant |
| Times.YearTenThousandMisplaced | internal/store/sqlite/store.go:17 | every time of year 10000 is later than those of year 9999 and comes before them as text |
| Times.CivilOfIs | internal/store/sqlite/store.go:1839-1841 | every instant has a valid calendar time that denotes it |
| Times.CivilOrder | internal/store/sqlite/store.go:663-677 | calendar times compare field by field as their instants do |
| TimeTexts.InstantIs | internal/store/sqlite/store.go:17 | the instant of a calendar time in nanoseconds, with a leap day every four years except in the centuries that 400 does not divide |
| TimeTexts.FormatIs | internal/store/sqlite/store.go:1839-1841 | the 30 characters of a stored time of the years 0000 to 9999, place by place: each number in its digits, each separator where the layout has it |
| InspectTree.ForestShowsChains | cmd/stagehand/inspect.go:158-168 | an interaction is printed once if its parent chain reaches a root and not at all otherwise, each at the depth of its chain, and the cycle line is never printed |
| InspectTree.SiblingsOrdered | cmd/stagehand/inspect.go:195-200 | siblings come by sequence and id, whatever order the run lists them in |
| InspectNesting.ForestNested | cmd/stagehand/inspect.go:158-168 | the roots stand at depth 0 in order, and right below every header, one level deeper and before the next header that is not deeper, stand its children in order |
| InspectNesting.CycleShown | cmd/stagehand/inspect.go:220-231 | an item that is below itself is printed once more, as a cycle, and no further |
| InspectTree.RootsOrdered | cmd/stagehand/inspect.go:203-208 | and so do the roots |
| InspectTree.ForestPermutes | cmd/stagehand/inspect.go:158-211 | the whole forest is the same for every order the run is listed in |
| InspectTree.PrintGood | cmd/stagehand/inspect.go:213-311 | in a tree with levels the traversal finds no cycle and keeps every item at its level |
| InspectTree.PrintTimes | cmd/stagehand/inspect.go:307-311 | below an item another is printed once if the item is on its way to a root, else not at all |
| InspectPrinter.BuildInspectTree | cmd/stagehand/inspect.go:171-211 | the table of children and the roots, sorted in any map order |
| InspectPrinter.Printer.RenderNode | cmd/stagehand/inspect.go:213-311 | the lines printed are the specified ones and the visited set is restored |
| InspectPrinter.RenderInspect | cmd/stagehand/inspect.go:158-168 | the printed lines are the forest |
| Luhn.PassesLuhn | internal/scrub/detectors/detectors.go:334-351 | the loop accepts exactly the digit strings, not all zero, whose right-to-left sum is a multiple of ten |
| Luhn.OneDigitDetected | internal/scrub/detectors/detectors.go:334-351 | an accepted number of any length is rejected after any change of one digit |
| Luhn.SwapDetectedIff | internal/scrub/detectors/detectors.go:334-351 | after swapping two unequal neighbours it is still accepted exactly if they are 0 and 9 |
| Luhn.ZeroIff | internal/scrub/detectors/detectors.go:350 | the sum is zero exactly for a string of zeros |
| Luhn.DigitsOnly | internal/scrub/detectors/detectors.go:322-332 | the ASCII digits of the text in order |
| Luhn.SumOfPair | internal/scrub/detectors/detectors.go:334-351 | two neighbouring digits add the right one as it is and the left one doubled, less 9 if that is more than 9 |
| Luhn.ValidateCreditCard | internal/scrub/detectors/detectors.go:304-312 | 13 to 19 digits that pass |
| Fallback.ExactIff | internal/runtime/fallback/matcher.go:104-121 | the answer is exact exactly if that tier is allowed and a compatible recording has the same key, and it is the earliest such |
| Fallback.NearestIff | internal/runtime/fallback/matcher.go:123-137 | else it is the nearest exactly if that tier is allowed and a candidate reaches 0.35; none scores more and none before it as much |
| Fallback.ScoreRange | internal/runtime/fallback/matcher.go:255-272 | scores lie between 0 and 1 |
| Fallback.SameKeyScore | internal/runtime/fallback/matcher.go:243-272 | a candidate with the same key scores at least 0.85 |
| Fallback.SimilarityOneIff | internal/runtime/fallback/matcher.go:432-468 | similarity is 1 exactly for equal sets |
| FallbackScores.CandidatesAre | internal/runtime/fallback/matcher.go:183-212 | the candidates are the recordings of the same service, operation, protocol, verb without case and path, by sequence and then id |
| FallbackScores.SimilarityCounts | internal/runtime/fallback/matcher.go:432-468 | the similarity of two sets is the share of common elements, and 0 exactly for disjoint ones |
| FallbackScores.ScoreAdds | internal/runtime/fallback/matcher.go:255-272 | with bodies and queries to compare the score is half the body share, 0.35 of the query share and 0.15 of the header share |
| FallbackScores.ScoreWithout | internal/runtime/fallback/matcher.go:259-271 | the score where bodies or queries are absent on both sides, never more than 1 |
| FallbackScores.OnlyBodiesDiffer | internal/runtime/fallback/matcher.go:255-272 | where only the bodies have nothing in common the score is 0.5, or 0.65 without queries |
| FallbackScores.AnswerIs | internal/runtime/fallback/matcher.go:104-161 | the answer tier by tier: exact, then nearest from 0.35 on, then the candidates for synthesis, then none |
| Fallback.RecordedOrderIrrelevant | internal/runtime/fallback/matcher.go:183-212 | when no two recordings share sequence and id, permuting them changes nothing in the answer |
| SortingLaws.SortStable | internal/runtime/fallback/matcher.go:204-209 | of elements that tie, sorting keeps every one, in the order they had |
| FallbackMatcher.SetSimilarity | internal/runtime/fallback/matcher.go:432-468 | the counting loops give the ratio of intersection and union |
| FallbackMatcher.Matcher.CompatibleCandidates | internal/runtime/fallback/matcher.go:183-212 | the compatible recordings in order |
| FallbackMatcher.Matcher.ExactMatch | internal/runtime/fallback/matcher.go:214-223 | the first with the same key |
| FallbackMatcher.Matcher.NearestMatch | internal/runtime/fallback/matcher.go:225-241 | the first of the highest score |
| FallbackMatcher.Matcher.Answer | internal/runtime/fallback/matcher.go:104-161 | the tiers are tried in order |

## Left out

- Amounts above 2^53 lose precision when a session state is cloned through JSON floats; the model keeps exact 64-bit integers.
- Counters of the Stripe simulator are unbounded, and lower-casing and case folding cover ASCII only.
- Stripe metadata, creation times, card and billing details other than the e-mail, the contents of customer identities, webhook payloads and delays, and the read-only operations: none of the properties depends on them. Card validation is a flag of the request, and the simulator always has an event queue.
- A session restore that rolls the Stripe state back starts a new run from an earlier sound state; it is not a step of the Stripe runs.
- Event services, topics and payloads are one text; durations do not overflow; setting a clock directly is not modelled.
- Deleting a session or a run, and moving a run to another session, are no steps of the interleaved session model: a fork that fails once its child exists stops there with the child to be deleted, and the deletion is proved for a call that runs alone. The reads inside one store call are merged with its write. Statuses other than active, and the clocks, salts and events of a deleted session, are not modelled.
- The state of a snapshot is a JSON value, so cloning it is the identity.
- Path deletion and the construction of the inspect tree work on values: a JSON tree shares no parts and a tree node is found by its id, so updating in place is not visible. Appending through a slice pointer is a returned sequence.
- The texts of ignored paths, of details and of messages are not modelled, nor is the classifier reason, whose value depends on the order of equal risks.
- Assertions.EvaluateWithOptions: of the six assertion types it evaluates count and ordering, the ones gates compile to; payload-field, forbidden-operation, fallback-prohibition and cross-service assertions are further filters over the same selectors and count as unknown types here.
- Assertions.ValidateFile: accordingly it has the rules of count and ordering assertions only.
- ContractDiff.RunOrderIrrelevant: a change of the model carries no evidence lists, which follow run order in the original, and no prompt previews; a prompt digest is identified by path and hash because a hash has no line break.
- User overrides of a contract are validated and have no effect on enforcement; whether an approval time parses is part of the override.
- Matching strategies and tolerated paths of the conformance runner are functions; how their texts are parsed is not modelled.
- Interaction-level rules of the recorder other than those on events.
- `Sequence` differences in the inspect order do not overflow because sequences are positive.
- Stored times are formatted in UTC, so the parser reads the Z form only.
- Command parsing, rendering, HTTP clients, SDK patching, environment handling, hashing, scrubbing other than the card check, and the injection engine: plumbing around the modelled cores.
