# Verified model of the SIP load balancer

This project models the hard parts of a SIP load balancing back-to-back user agent and of the two
vendored arithmetic libraries it carries, and proves what they keep over every run and every input.
`dafny verify dfyconfig.toml` checks all of it.

* **Stateful calls** (`Bimap`, `CallTables`, `CallSteps`, `CallRuns`, `CallFaults`, `CallAccounting`,
  `CallCounts`, `CallReplies`, `CallAlternates`, `CallTrunks`, `CallTallies`, `CallOutcomes`,
  `CallForwards`, `CallAwaited`, `CallWitnesses`, `CallGuarantees`, `TrunkStats`, `Controller`). The controller keeps two two-sided maps
  (incoming/outgoing transactions, A/B legs), the termination attempts, the dialog infos and the
  trunk counters. `CallSteps.Step` says what one callback does to them; `Controller.SipLbController`
  is the same in place, one method per handler, each proved to be that step; `CallOutcomes` says from
  the event and the state before it what each callback sends, replies, records and leaves behind. The SIP stack is the
  environment: it hands out handles that are not in use, or null, and calls back on live handles
  only. A handle may be handed out again once its object is destroyed.
* **Call detail records** (`CdrRows`, `CdrBook`, `CallRecords`, `CdrReplay`): the rows the writers leave
  behind, which histories of records a run can post, and what the rows tell of them.
* **Termination routes** (`Modular`, `Cycles`, `RoutePlans`, `Routes`, `RouteFiles`): two-level weighted
  round robin over carriers and their trunks, its closed form, and what a file gives it to work on.
* **Media servers** (`Servers`): cyclic choice with a periodic least loaded pick.
* **Stateless calls** (`StatelessLog`, `Stateless`, `StatelessLife`): the index of calls, the queue of
  complete ones and their expiry, judged by the record of what the proxy did.
* **Event socket client** (`Tokens`, `FsMessages`, `FsChunks`, `FsReplies`, `FsEvidence`, `FsReader`,
  `EventSocket`, `EventQueries`, `EventLogin`, `FsClient`): message reassembly under every chunking, the
  connection's state machine judged by the bytes read and the commands written, and conversations from
  end to end.
* **CRC** (`CrcBits`, `Crc`, `CrcDivision`, `CrcMachine`): the table driven computation against
  bit-at-a-time division, both against the division of polynomials, on registers of any width inside
  machine words of any larger width.
* **Decimal conversion** (`Decimal`, `Lexical`): printer and parser with grouping and exact overflow
  detection.

## Reading the model

Where the source asserts, the model records a *fault* and the main theorems say which faults can
occur and exactly when. What the code would go on to do after a failed assertion is modelled only
inside the table helpers.

Properties that the source does not have, with the exact condition under which it does:

* Two results of the stack are used unchecked (`ssp-controller.cpp:1202`, `ssp-controller.cpp:1646-1663`).
  `CallRuns.StepKeepsInv`: the tables stay consistent if and only if neither of them is null.
* A BYE for a call whose INVITE is still pending takes the legs away from under it.
  `CallFaults.StepKeepsLegs`: every pending INVITE keeps its leg if and only if no such BYE comes;
  `CallFaults.EarlyByeFaults`: after one, any answer to the INVITE runs into the assertion.
* Taking a call down while a request is being forwarded inside it leaves that request without a leg, and
  a 200 to a re-INVITE then runs into an assertion. `CallForwards.StepKeepsForwards`: forwarded requests
  keep their legs if and only if no leg with one pending is taken down.
* Each of these is reached from the empty state: `CallWitnesses` gives the runs.
* The retry guard subtracts 1 from an unsigned number (`ssp-controller.cpp:1452`).
  `CallAlternates.ZeroRetriesWraps`: it means "one less" if and only if the number is not 0.
* An alternate route whose INVITE cannot be created leaves two records for one INVITE, so the balance
  of records carries a term for those (`CallAccounting.RunBalanced`); it is exact when every re-send is
  made (`CallAccounting.RunBalancedExactly`).
* Resetting trunk counters breaks their law if and only if an attempt is in progress
  (`CallTrunks.ResetCoveredIff`).
* A trunk of quantity 0 still gets one turn per round, except that a leading one misses its first
  (`RoutePlans.FreshRunFollowsSchedule`).
* An online server with a maximum below 2 looks available (`Servers.AvailableMeansRoom`).
* The comment at `ssp-controller.cpp:820` expects an ACK to complete a stateless call. A tracked call's
  ACK never gets there and an unknown one reads through an end iterator, so a call that is not answered
  200 is kept for ever (`Stateless.RunKeepsUnanswered`).
* The message parser reads a message afresh with every chunk until it knows its category.
  `FsChunks.BodyReproduced`: cut in any way, a message's body is reproduced if and only if the leading
  chunks that first go beyond "Content-Type: api/" hold the whole header and, of the body, only non-empty
  lines that each end in a newline. Leading chunks that stop earlier in the header lose the message for
  ever (`FsChunks.EarlyCutSticks`) or turn the rest of the header into content
  (`FsChunks.CutLengthShifts`).
* The answer to a command is read in the same way. `FsReplies.ReplyReadBack`: cut in any way, it counts as
  accepted if and only if its text starts with "+OK" and the leading chunks that first go beyond
  "Content-Type: command/" reach that far, and likewise for "+ERR"; any other text, "-ERR" included, leaves the
  client waiting for ever (`EventLogin.OtherAnswerWaits`).
* Several failures leave the event socket client with nothing under way, for ever
  (`EventSocket.StallsExactly` says which), and a configuration reload can leave two operations under
  way (`EventSocket.ReloadOverlaps`); `EventQueries.StallHappens` and `EventQueries.OverlapHappens` give
  the runs.

## Model

| member | source | states |
|---|---|---|
| Bimaps.Bimap.OperationsKeepInverse | ssp-controller.h:359-364 | inserting and erasing keep the two sides inverse; an insert takes effect exactly when both keys are free; an erase removes that pair only |
| Bimaps.Bimap.RepairKeepsInverse | ssp-controller.cpp:1819-1823 | pairing an incoming transaction with a new outgoing one keeps the two sides inverse |
| CallTables.PeerIsInvolution | ssp-controller.cpp:1862-1869 | every live leg has a peer, different from it and alive, whose own peer is the leg |
| CallTables.AddCallEffect | ssp-controller.cpp:1154-1159 | entering a call pairs its handles, adds its info and attempt and changes nothing else, with no insert ignored |
| CallTables.AddCallKeepsInv | ssp-controller.cpp:1238-1246 | entering a call with fresh handles keeps all table invariants |
| CallTables.ClearTransactionKeepsInv | ssp-controller.cpp:1801-1814 | dropping a transaction pair keeps all table invariants |
| CallTables.ClearDialogShape | ssp-controller.cpp:1828-1843 | clearing a live leg never meets the assertion and removes exactly the two legs of the pair, their info, and the stack's references to them |
| CallTables.ClearDialogKeepsInv | ssp-controller.cpp:1828-1843 | clearing a live leg keeps all table invariants |
| CallTables.MoveCallEffect | ssp-controller.cpp:1435-1442 | through a crankback the incoming transaction stays paired with the newest outgoing one only and the old handles are gone |
| CallTables.MoveCallKeepsInv | ssp-controller.cpp:1844-1861 | moving a call to a new leg and transaction keeps all invariants and never meets the assertions of the leg update |
| CallTables.AddInDialogKeepsInv | ssp-controller.cpp:1646-1663 | forwarding a request inside a dialog keeps all table invariants |
| CallRuns.InitKeepsInv | ssp-controller.cpp:180-182 | the empty tables satisfy all invariants |
| CallRuns.ReactionFits | ssp-controller.cpp:1322-1369 | an answer to an INVITE, provisional or final, finds its transaction, its legs and its record, failing exactly when its leg is gone |
| CallRuns.InviteResponseKeepsInv | ssp-controller.cpp:1322-1545 | every answer to an INVITE, with every kind of crankback, keeps the invariants and meets only the expected fault |
| CallRuns.CancelKeepsInv | ssp-controller.cpp:1546-1597 | CANCEL keeps the invariants and meets no fault |
| CallRuns.DialogStepKeepsInv | ssp-controller.cpp:1598-1674 | BYE, forwarded requests and session timers keep the invariants and meet no fault |
| CallRuns.NullLegBreaksInv | ssp-controller.cpp:1202-1246 | a null A leg of a termination breaks the invariants |
| CallRuns.NullTransactionBreaksInv | ssp-controller.cpp:1646-1663 | a null forwarded transaction breaks the invariants |
| CallRuns.StepKeepsInv | ssp-controller.cpp:1021-1745 | one callback keeps legs paired, infos matched, transactions paired and linked if and only if no unchecked null occurs, and then the faults met are exactly the two kinds of late answer |
| CallRuns.RunKeepsInv | ssp-controller.cpp:1824-1869 | every run the environment can produce keeps the invariants and meets no fault but those two |
| CallFaults.StepKeepsLegs | ssp-controller.cpp:1606-1635 | pending INVITEs keep their legs through a step if and only if it is not a BYE for an unanswered call |
| CallFaults.EarlyByeFaults | ssp-controller.cpp:1330-1345 | after such a BYE every answer to the pending INVITE meets the assertion on the missing leg |
| CallFaults.RunFindsLegs | ssp-controller.cpp:1330-1345 | in every run without such a BYE the assertions on missing legs of INVITEs never fire |
| CallForwards.StepKeepsForwards | ssp-controller.cpp:1697-1703 | forwarded requests keep their legs through a step if and only if it does not take down a leg with one pending on it |
| CallForwards.RunMeetsNoFault | ssp-controller.cpp:1322-1745 | with no call hung up before its answer and none taken down under a forwarded request, no assertion is met at all |
| CallAwaited.StepAwaited | ssp-controller.cpp:1154-1159 | each step keeps: an unanswered origination has its INVITE pending on its B leg |
| CallAwaited.UnansweredIsEarly | ssp-controller.cpp:1606-1635 | hanging up an unanswered origination is hanging up while its INVITE is pending |
| CallAwaited.NoEarlyByeSuffices | ssp-controller.cpp:1606-1635 | so a run without the latter is a run without the former |
| CallWitnesses.LateAnswerHappens | ssp-controller.cpp:1340-1345 | a run from the empty state in which a BYE, then the answer, meets the assertion on the missing leg |
| CallWitnesses.LateReinviteHappens | ssp-controller.cpp:1697-1703 | a run from the empty state in which a 200 to a re-INVITE meets the assertion on the missing leg |
| CallWitnesses.AlternateLostHappens | ssp-controller.cpp:1471-1486 | a run from the empty state in which an alternate route cannot be sent |
| CallWitnesses.NullLegHappens | ssp-controller.cpp:1202-1246 | from the empty state a null A leg breaks the tables |
| CallWitnesses.NullTransactionHappens | ssp-controller.cpp:1646-1663 | after a call is answered a null forwarded transaction breaks the tables |
| CallAccounting.StepBalanced | ssp-controller.cpp:1421-1488 | each step keeps: termination records = INVITEs - redirected - in progress + alternates that could not be sent |
| CallAccounting.RunBalanced | ssp-controller.cpp:1536-1542 | every run keeps that balance |
| CallAccounting.RunBalancedExactly | ssp-controller.cpp:1421-1488 | if the stack makes every re-send, termination records are exactly INVITEs - redirected - in progress |
| CallReplies.RunOneFinalReply | ssp-controller.cpp:1585-1589 | in every run, whatever handles are used again, every request gets at most one final reply, and none while it is still open |
| CallReplies.StepFinals | ssp-controller.cpp:1506-1524 | one callback sends a final reply only on a request that is open and has had none, and closes it |
| CallAlternates.RunWithinLimit | ssp-controller.cpp:1451-1488 | in every run a termination is re-sent to at most retries - 1 alternate routes, and each attempt in progress counts its own |
| CallAlternates.ZeroRetriesWraps | ssp-controller.cpp:1452-1452 | the guard's unsigned limit is retries - 1 if and only if retries is not 0 |
| CallTrunks.StepCovered | ssp-controller.cpp:1307-1316 | without reset or wrap a step keeps attempts >= failures + attempts in progress on every trunk |
| CallTrunks.RunCovered | ssp-controller.cpp:1378-1389 | every run without reset or wrap keeps that law on every trunk |
| CallTrunks.ResetCoveredIff | ssp-controller.h:250-256 | a reset keeps the law if and only if no attempt is in progress |
| CallTallies.StepCounts | ssp-controller.cpp:1307-1389 | each callback adds to a trunk's attempts the termination INVITEs it sends on it, and one to slot c exactly when it is a failure c of a pending attempt on that trunk |
| CallTallies.CountersAreExact | ssp-controller.cpp:1307-1389 | from the empty state, between resets and without wrap, on every trunk: the attempts are the number of termination INVITEs sent on it, slot c of 400 to 699 is the number of answers c to its attempts, and slots below 400 stay 0 |
| CallOutcomes.AlternateTried | ssp-controller.cpp:1446-1488 | a final answer to a termination leads to an INVITE on trunk k of an alternate route if and only if it is 480 or 503, the request has had fewer than the allowed alternates, the route found is k's and the stack makes leg and transaction; then the new attempt carries that route and contact, the failed one is recorded and nothing is replied |
| CallOutcomes.RedirectFollowed | ssp-controller.cpp:1421-1445 | it leads to a redirected INVITE if and only if it is 300 to 399 and the stack makes leg and transaction; then on the same trunk, with the new contact, nothing recorded and nothing replied |
| CallOutcomes.AnswerPassedBack | ssp-controller.cpp:1489-1542 | every other final answer is replied with its own status and recorded with the attempt's carrier, trunk and times, and the attempt is gone; the legs stay exactly on 200 |
| CallOutcomes.OriginationAnswered | ssp-controller.cpp:1489-1535 | a final answer to an origination is replied and recorded with its status; on 200 the call is marked answered, with a timer exactly if one is wanted and made; otherwise legs and info are gone |
| CallOutcomes.ProvisionalPassedBack | ssp-controller.cpp:1369-1374 | a provisional answer is passed back with its status, except 100, and changes nothing |
| CallOutcomes.Originated | ssp-controller.cpp:1021-1165 | an origination without a server gets 486, one the stack fails gets 503, both recorded and the tables untouched; any other is sent to its server, recorded with status 0 and entered with its legs, timer and record |
| CallOutcomes.Terminated | ssp-controller.cpp:1166-1249 | a termination without a route gets 480, one the stack fails gets 503, the tables untouched; any other is sent on its route as attempt 0 with that route's carrier and trunk in its record |
| CallOutcomes.CanceledCall | ssp-controller.cpp:1546-1589 | CANCEL records an origination as canceled and a termination as answered 487, and takes away transactions, attempt and legs |
| CallOutcomes.HungUp | ssp-controller.cpp:1606-1636 | BYE is replied 200 and takes both legs away; an origination is recorded as cleared now, the cause being the calling party's release if and only if the BYE came on its A leg; nothing is recorded for others |
| CallOutcomes.Forwarded | ssp-controller.cpp:1640-1668 | a request inside a dialog goes out on the other leg, paired with its incoming transaction, and changes no call |
| CallOutcomes.ForwardAnswered | ssp-controller.cpp:1675-1721 | its answer goes back on its own incoming transaction with the same status; a final one ends the pair, and no call changes |
| CallOutcomes.TimedOut | ssp-controller.cpp:1722-1745 | an expired session timer takes the call down without reply or record; one of an unknown leg does nothing |
| CallOutcomes.RunRecordsName | ssp-controller.h:63-74 | in every run each pending attempt's record names the carrier and trunk the attempt is on |
| TrunkStats.FailureAddsOne | ssp-controller.h:132-137 | counting a failure adds exactly one to the total over all slots |
| TrunkStats.AttemptKeepsBound | ssp-controller.h:127-131 | counting an attempt keeps failures within attempts, through the wrap of the counter as well, where all start again from 0 |
| TrunkStats.SumBoundsEach | ssp-controller.h:139-145 | no slot exceeds the total |
| TrunkStats.TrunkCounters.constructor | ssp-controller.h:110-112 | a new trunk has no attempts and no failures |
| TrunkStats.TrunkCounters.IncrementAttemptCount | ssp-controller.h:127-131 | counts an attempt; when the counter wraps to 0 the failures are cleared as well |
| TrunkStats.TrunkCounters.IncrementFailureCount | ssp-controller.h:132-137 | adds one to the slot of the status and to no other; a status of 700 or more fails the assertion and counts nothing |
| TrunkStats.TrunkCounters.FailureCount | ssp-controller.h:139-145 | returns the total over all 700 slots, modulo the counter's width |
| TrunkStats.TrunkCounters.Reset | ssp-controller.h:150-153 | clears attempts and all slots |
| Controller.SipLbController.constructor | ssp-controller.cpp:180-182 | a new controller has empty, consistent tables |
| Controller.SipLbController.AddPair | ssp-controller.cpp:1815-1818 | pairs two transactions, or records that the insert was ignored |
| Controller.SipLbController.DropTransaction | ssp-controller.cpp:1801-1807 | removes the pair and destroys both transactions |
| Controller.SipLbController.UpdateOutgoingTransaction | ssp-controller.cpp:1819-1823 | replaces the outgoing partner of an incoming transaction |
| Controller.SipLbController.AddLegs | ssp-controller.cpp:1824-1827 | pairs two legs, or records that the insert was ignored |
| Controller.SipLbController.DropDialog | ssp-controller.cpp:1828-1843 | destroys a leg and its peer with their infos, or records that there is no peer |
| Controller.SipLbController.MoveDialog | ssp-controller.cpp:1844-1861 | moves the pair and the info from the old B leg to the new one |
| Controller.SipLbController.ProcessOriginationRequest | ssp-controller.cpp:1021-1165 | the origination step: 486, 503 with everything undone, or the call entered and its record posted |
| Controller.SipLbController.ProcessTerminationRequest | ssp-controller.cpp:1166-1249 | the termination step: 480, 503 with everything undone, or the call entered and counted on its trunk |
| Controller.SipLbController.GenerateTerminationRequest | ssp-controller.cpp:1250-1321 | makes leg and transaction, logs and counts the INVITE; on failure leaves no trace |
| Controller.SipLbController.Resend | ssp-controller.cpp:1421-1445 | sends a pending termination again and moves all its entries, or changes nothing |
| Controller.SipLbController.TryOther | ssp-controller.cpp:1421-1488 | follows a redirect or an alternate route exactly when the decision says so, else leaves the tables alone |
| Controller.SipLbController.FinishTermination | ssp-controller.cpp:1378-1545 | a final answer to a termination: failure counted on its own trunk, then redirect, alternate, or the end with reply and record |
| Controller.SipLbController.FinishOrigination | ssp-controller.cpp:1489-1535 | a final answer to an origination: marked answered with its timer on 200, else torn down; reply and record in order |
| Controller.SipLbController.ProcessInviteResponse | ssp-controller.cpp:1322-1545 | the whole step for an answer to an INVITE, the assertion on its record included |
| Controller.SipLbController.ProcessCancel | ssp-controller.cpp:1546-1597 | the whole step for CANCEL |
| Controller.SipLbController.ProcessBye | ssp-controller.cpp:1606-1636 | the whole step for BYE, the origination's record saying which side hung up |
| Controller.SipLbController.ProcessForward | ssp-controller.cpp:1640-1668 | the step for another request inside a dialog |
| Controller.SipLbController.ProcessResponseInsideDialog | ssp-controller.cpp:1675-1721 | the step for its answer |
| Controller.SipLbController.ProcessSessionRefreshTimer | ssp-controller.cpp:1722-1745 | the step for an expired session timer |
| Controller.SipLbController.ResetOutboundTrunkStats | ssp-controller.h:250-256 | all counters of all known trunks become zero |
| Controller.SipLbController.Serve | ssp-controller.cpp:111-154 | any callback the environment can make is served as its step says and leaves the tables consistent |
| Controller.SipLbController.ServeAll | ssp-controller.cpp:111-154 | any run the environment can produce, served one callback after another, takes the tables where the steps say |
| CallGuarantees.EmptyStateFits | ssp-controller.cpp:180-182 | the empty state satisfies every invariant the run theorems start from |
| CallGuarantees.EveryRun | ssp-controller.cpp:1021-1869 | after every run from the empty state: consistent tables, no fault but late answers, at most one final reply per request, re-sends within the limit, balanced termination records, legal histories and ordered rows |
| CallGuarantees.EveryPatientRun | ssp-controller.cpp:1606-1635 | and without a BYE before the answer: no INVITE's answer meets an assertion, no session is cleared straight after its request |
| CallGuarantees.EveryQuietRun | ssp-controller.cpp:1021-1869 | and with no call taken down under a forwarded request either: no fault at all |
| CallGuarantees.EveryRunWithResends | ssp-controller.cpp:1421-1488 | and if every re-send is made: termination records are exactly INVITEs - redirected - in progress |
| CallGuarantees.EveryCountedRun | ssp-controller.cpp:1307-1389 | and between counter resets: attempts >= failures + in progress on every trunk |
| CdrRows.CdrWriter.WriteOriginationRequest | cdr-writer.cpp:308-370 | inserts the session's row; a second insert of an id is refused |
| CdrRows.CdrWriter.WriteOriginationFinal | cdr-writer.cpp:371-410 | sets status and either the connect time or the end time and cause |
| CdrRows.CdrWriter.WriteOriginationCancel | cdr-writer.cpp:411-440 | sets status 487, end time and cause |
| CdrRows.CdrWriter.WriteTerminationTry | cdr-writer.cpp:441-518 | adds an attempt row and enters its carrier in the session; refused for an unknown session |
| CdrRows.CdrWriter.WriteBye | cdr-writer.cpp:519-557 | sets end time and cause of the session and the end time of its answered attempts, no others |
| CdrRows.CdrWriter.WriteCdr | cdr-writer.cpp:266-307 | each record has the effect of its kind |
| CdrBook.EndKeepsBook | cdr-writer.cpp:371-440 | a session's closing record keeps histories legal and all times ordered |
| CdrBook.AnswerKeepsBook | cdr-writer.cpp:371-410 | a 200 keeps histories legal and all times ordered |
| CdrBook.TryKeepsBook | cdr-writer.cpp:441-518 | an attempt's record keeps histories legal and all times ordered |
| CdrBook.OpenedKeepsBook | cdr-writer.cpp:308-370 | a new session's record opens its history and its row |
| CallRecords.StepPosts | ssp-controller.cpp:1529-1542 | the records each callback posts, and no others |
| CallRecords.StepBooked | ssp-controller.cpp:1565-1581 | each callback keeps: legal histories, connect time set if and only if the status is 200, start <= connect <= end |
| CallRecords.RunBooked | ssp-controller.cpp:1161-1161 | in every run with unique ids and a monotone clock, every session's records form a legal history and, replayed, leave rows with that law |
| CallRecords.StepUncut | ssp-controller.cpp:1616-1635 | a session is cleared straight after its request if and only if a BYE comes for an unanswered origination |
| CallRecords.RunUncut | ssp-controller.cpp:1616-1635 | in every run without such a BYE every history is a prefix of request-cancel, request-final or request-final(200)-cleared |
| CdrReplay.RowsTell | cdr-writer.cpp:308-557 | for every legal sequence of records each session's row shows start, connect and end times, status and cause from its own history, and carrier and trunk of its last attempt; a session without a request has no row |
| CdrReplay.TriesTell | cdr-writer.cpp:441-518 | the attempt rows are, in order, the attempts recorded for known sessions, each with its own times, status, carrier and trunk |
| CdrReplay.ClearedEndsTries | cdr-writer.cpp:519-557 | the end of a call sets the end of its answered attempts and changes no other |
| CdrReplay.RunRowsTell | cdr-writer.cpp:266-557 | in every run the rows left by the records posted tell exactly that |
| Cycles.OnceRound | ssp-config.cpp:150-152 | once round a list from anywhere meets every element as often as the list holds it |
| Cycles.EveryRound | ssp-config.cpp:150-152 | so does every stretch of that length in a longer walk |
| RoutePlans.PickFollowsSchedule | ssp-config.cpp:115-171 | counting picks per trunk comes to the same as taking the next place of a schedule with each trunk repeated by its quantity |
| RoutePlans.NewRouteStarts | ssp-config.cpp:145-148 | a new route starts at the top of its schedule exactly when its first trunk has a quantity of at least 1 |
| RoutePlans.InsertKeepsOrder | ssp-config.cpp:430-430 | the ordered map of carriers stays ordered |
| RoutePlans.LoadedOk | ssp-config.cpp:413-436 | for every file every listed carrier has a route with a trunk and the cursor is in range |
| RouteFiles.LoadedNames | ssp-config.cpp:413-436 | a carrier has a route if and only if some active entry of its name has an address that is not inactive |
| RouteFiles.LoadedTrunks | ssp-config.cpp:413-436 | the first such entry decides: its addresses that are not inactive are the trunks, in order, with text, port and quantity, and its charge number is the route's |
| RouteFiles.LoadedCarriers | ssp-config.cpp:415-431 | the carrier list holds each name as often as the quantities of such entries add up to |
| RouteFiles.NamedAnswers | ssp-config.cpp:556-562 | a lookup for a given carrier answers if and only if the carrier has a route, with that carrier, and leaves the cursor alone |
| RouteFiles.DestinationShows | ssp-config.cpp:153-171 | a trunk is given as its address alone for port 5060, else with a colon and digits that read as the port |
| RoutePlans.LookupKeepsOk | ssp-config.cpp:528-562 | a lookup never meets the assertion, answers an existing trunk of a known carrier, and fails exactly when there is no carrier to choose |
| RoutePlans.AlternateAvoidsFailed | ssp-config.cpp:543-555 | the failed carrier is chosen if and only if it is the only one and the list is not empty; otherwise the first other name in order, and the cursor stays |
| RoutePlans.RunFollowsSchedule | ssp-config.cpp:528-562 | under any mix of the three lookups a carrier's trunks are consecutive places of the endless repetition of its schedule |
| RoutePlans.FreshRunFollowsSchedule | ssp-config.cpp:115-171 | from a fresh file they start at its top, or one place later if the first quantity is 0 |
| RoutePlans.RoundIsFair | ssp-config.cpp:115-122 | any stretch of picks as long as the round uses each trunk exactly as often as its weight |
| RoutePlans.RunFollowsCarriers | ssp-config.cpp:528-540 | the carriers chosen by the cursor go round the carrier list |
| RoutePlans.CarriersAreFair | ssp-config.cpp:528-540 | any stretch of cursor lookups as long as the list chooses each carrier exactly as often as it occurs |
| Routes.TerminationRoute.constructor | ssp-config.cpp:145-148 | a new route has picked nothing |
| Routes.TerminationRoute.HaveAdvancedToEnd | ssp-config.cpp:115-122 | tells whether a trunk's turn is over and counts a pick otherwise, touching no other trunk |
| Routes.TerminationRoute.AdvanceTrunk | ssp-config.cpp:150-152 | the next trunk, the first after the last |
| Routes.TerminationRoute.NextTrunk | ssp-config.cpp:153-171 | hands out the address and charge number of the trunk at the next place of the schedule |
| Routes.TerminationRoutes.constructor | ssp-config.cpp:413-436 | reading the carriers of a file gives the loaded configuration |
| Routes.TerminationRoutes.Next | ssp-config.cpp:528-540 | the lookup by cursor |
| Routes.TerminationRoutes.Alternate | ssp-config.cpp:543-555 | the lookup for another carrier |
| Routes.TerminationRoutes.Named | ssp-config.cpp:556-562 | the lookup for a given carrier |
| Servers.AvailableMeansRoom | fs-instance.h:47-49 | available means more than two free sessions when the maximum is at least 2, and wraps below that |
| Servers.StrictWeakOrder | fs-monitor.cpp:19-25 | the capacity order is asymmetric and transitive and so is being tied |
| Servers.AvailableFromExact | fs-monitor.cpp:120-136 | the cyclic list holds every available server, once, and no other |
| Servers.FsMonitor.LeastLoaded | fs-monitor.cpp:148-154 | a server that none precedes |
| Servers.FsMonitor.Collect | fs-monitor.cpp:120-136 | the first min(3, n) available servers in cyclic order; the cursor ends at the first available one from the start on, or at n |
| Servers.FsMonitor.GetAvailableServers | fs-monitor.cpp:107-161 | true if and only if some server is available; on special calls an available server with the most free sessions comes first |
| Servers.EveryIntervalIsSpecial | fs-monitor.cpp:143-147 | exactly every (interval + 1)-th successful call is special |
| Servers.HeadIsFirst | fs-monitor.cpp:120-136 | who heads the cyclic list |
| Servers.BoundedWait | fs-monitor.cpp:120-136 | from any cursor every available server heads one of as many consecutive calls as there are available servers, plus one |
| Servers.BoundedWaitIsTight | fs-monitor.cpp:120-136 | as many calls as available servers are not always enough |
| Servers.FsMonitor.TakeTurns | fs-monitor.cpp:107-161 | repeated calls with least loaded picks off: who heads each result, and that one call more than there are available servers reaches every one of them |
| Stateless.StepKeepsInv | ssp-controller.cpp:737-858 | one event keeps: the queue lists each complete call once and nothing else, and the tables say what the record says |
| Stateless.RunKeepsInv | ssp-controller.cpp:737-858 | in every run each call is placed once, all its requests go where its first INVITE went, and it is forgotten only after a 200 and eight seconds of silence |
| Stateless.ExpireExact | ssp-controller.cpp:650-665 | exactly the longest expired run at the front of the queue goes, every other call stays unchanged |
| Stateless.RunKeepsUnanswered | ssp-controller.cpp:819-850 | without a 200 to its INVITE a call is never let go |
| Stateless.RunKeepsLimit | ssp-controller.cpp:778-816 | with an iteration limit exactly that many calls can be placed |
| StatelessLife.PlacedIff | ssp-controller.cpp:765-817 | an unknown request is tracked if and only if it is an INVITE taken by an active proxy with calls left and sent to a server; it then belongs to that server, and otherwise nothing changes |
| StatelessLife.Refused | ssp-controller.cpp:764-828 | exactly which untracked requests are answered 200, answered 486 or discarded |
| StatelessLife.TrackedForwarded | ssp-controller.cpp:744-762 | every request of a tracked call goes to its own server and starts its hold time again |
| StatelessLife.ResponsePassedBack | ssp-controller.cpp:829-850 | every response is passed back, and the status of one to a tracked INVITE is kept |
| StatelessLife.AnswerCompletes | ssp-controller.cpp:833-858 | a 200 to a tracked call's INVITE completes it; the first one puts it last in the queue and starts its hold time, a later one changes neither |
| StatelessLife.OthersCompleteNone | ssp-controller.cpp:833-858 | nothing else adds to the queue |
| StatelessLife.WatchdogForgets | ssp-controller.cpp:646-665 | a queued call that has been silent for eight seconds, with all ahead of it, is forgotten by the watchdog |
| StatelessLife.ForgottenInTime | ssp-controller.cpp:646-665 | in every run: once a tracked call has had its 200, it is queued until a watchdog comes, and the first one that finds it and all ahead of it silent for eight seconds forgets it |
| Stateless.StatelessController.constructor | ssp-controller.h:352-353 | nothing is tracked at first |
| Stateless.StatelessController.SetCompleted | ssp-controller.cpp:853-858 | marks and queues a call once |
| Stateless.StatelessController.ProcessRequest | ssp-controller.cpp:737-828 | a tracked call's request goes to its own server; a new one is answered, refused, discarded or placed |
| Stateless.StatelessController.ProcessResponse | ssp-controller.cpp:829-850 | records the status; a 200 to the INVITE completes the call |
| Stateless.StatelessController.ProcessWatchdogTimer | ssp-controller.cpp:646-665 | every listed call is found, and the expired run is forgotten |
| Tokens.JoinCut | fs-message.cpp:50-53 | cutting into lines and joining gives the text back if and only if it is whole, non-empty lines |
| FsChunks.HeaderRead | fs-message.cpp:44-96 | after leading chunks with the whole header the content is what their remaining lines come to |
| FsChunks.Grows | fs-message.cpp:46-48 | once the length is known, later chunks are taken over as they are |
| FsChunks.BodyReproduced | fs-message.cpp:44-109 | for every way of cutting a message: the content is the body if and only if the leading chunks that first go beyond "Content-Type: api/" hold the whole header and, of the body, whole non-empty lines |
| FsChunks.CompletesAtEnd | fs-message.cpp:98-108 | then, chunk by chunk, the message is complete exactly when all of it has arrived, with the body as content |
| FsChunks.EarlyCutSticks | fs-message.cpp:54-91 | leading chunks that stop before the first digit of the length are never recovered from, whatever follows |
| FsChunks.CutLengthShifts | fs-message.cpp:46-48 | leading chunks that stop in the length or before the blank line: all that follows becomes content, the rest of the header included |
| FsChunks.StaysBlank | fs-message.cpp:54-60 | chunks that stop no later than "Content-Type: api/" change nothing but the raw text |
| FsReplies.ReplyReadBack | fs-message.cpp:75-104 | for every text and every way of cutting the answer to a command: it is an ok reply if and only if the text starts with +OK and the leading chunks that first go beyond "Content-Type: command/" reach that far, an error reply likewise with +ERR, and complete in no other case |
| FsReplies.VerdictStands | fs-message.cpp:75-84 | once the type line has been taken, no later chunk changes whether the answer is accepted, refused or complete |
| FsReplies.OtherReplyWaits | fs-message.cpp:81-83 | an answer with any other text never completes, whatever follows it |
| FsEvidence.CutExtends | fs-message.cpp:50-53 | a longer text has the same lines, the last one lengthened, and perhaps more |
| FsEvidence.MessageBacked | fs-message.cpp:54-84 | however a message is cut: if it counts as an ok reply some line read starts with "Reply-Text: +OK", and if it counts as category auth some line gives a content type auth |
| FsReader.CutJoin | fs-message.cpp:136-137 | joined non-empty lines are cut into the same lines |
| FsReader.StatusReadBack | fs-message.cpp:135-165 | a status text that shows two counts is read as those counts |
| FsReader.ContactReadBack | fs-message.cpp:118-130 | a contact with a port is read as its address and port |
| FsReader.BareContactReadBack | fs-message.cpp:118-130 | a contact without a port is read as its address and 5060 |
| FsReader.ShortStatus | fs-message.cpp:139-142 | a text of fewer than five lines leaves the counts as they were |
| FsReader.ProfileReadBack | fs-message.cpp:111-131 | the contact read is the third word of the first line whose first word is the profile's name, whatever the other lines are |
| FsReader.NoProfile | fs-message.cpp:111-134 | without such a line no profile is found |
| FsReader.FsMessage.Reset | fs-message.cpp:32-42 | the message is as new |
| FsReader.FsMessage.Append | fs-message.cpp:21-30 | adds a chunk and tells whether the message is complete |
| FsReader.FsMessage.Parse | fs-message.cpp:44-109 | reads lines up to the first refused one, keeping what was read before it |
| FsReader.FsMessage.GetSipProfile | fs-message.cpp:111-134 | the contact of the first line with the profile's name |
| FsReader.FsMessage.GetFsStatus | fs-message.cpp:135-153 | the counts on the fourth and fifth lines |
| EventSocket.StepKeepsInv | fs-instance.cpp:44-253 | each completed operation keeps: at most one under way, of the sort the phase calls for; a phase that the bytes read and commands written since the last start account for; a message of this exchange only; session counts that the last answer shows |
| EventSocket.RunKeepsInv | fs-instance.cpp:33-253 | in every run without a reload: at most one operation; the password is sent only after bytes with a content type auth, and anything is queried only after the answer to it held a line that starts with "Reply-Text: +OK"; status queries only after a profile list with exactly the address and port the client has; the timer's default branch only in status queries |
| EventSocket.ReloadOverlaps | fs-instance.cpp:260-271 | a reload leaves two operations if and only if one was under way in status queries |
| EventSocket.StallsExactly | fs-instance.cpp:89-253 | after which completions nothing is under way any more |
| EventQueries.StatusQuery | fs-instance.cpp:163-180 | one query from timer to timer: however the answer is cut, if it is reproduced at all the session counts become those the server printed |
| EventQueries.ServerIsReached | fs-instance.cpp:33-162 | from the first start, a server that greets, accepts the password in whatever words and lists a contact is reached with that address and port |
| EventQueries.QueriesBegin | fs-instance.cpp:163-180 | and with its first status answer the regular queries begin, with the counts it printed |
| EventQueries.OverlapHappens | fs-instance.cpp:260-271 | a run from the first start in which a reload leaves two operations under way |
| EventQueries.StallHappens | fs-instance.cpp:58-62 | a failed resolution and its timer leave nothing under way |
| EventLogin.EndpointsTried | fs-instance.cpp:66-88 | however many endpoints refuse, the first that does not is read from; when none is left the client starts again after its timer |
| EventLogin.PasswordJudged | fs-instance.cpp:133-144 | for every run that has sent the password and every chunking of the answer: bytes that say +OK lead to the profile query, bytes that say +ERR to the failed state with its timer and nothing written |
| EventLogin.OtherAnswerWaits | fs-instance.cpp:105-110 | any other answer leaves the client waiting, whatever it reads later |
| EventLogin.NoticeRestarts | fs-instance.cpp:112-118 | a disconnect notice that arrives whole, in any phase, marks the client disconnected, and its timer starts it again |
| EventLogin.ReloadBetweenQueries | fs-instance.cpp:163-167 | a reload between two queries, however its answer is cut, leaves counts, message and timer as they were |
| FsClient.FsInstance.constructor | fs-instance.cpp:22-27 | a new client |
| FsClient.FsInstance.Start | fs-instance.cpp:33-42 | resets the message and starts resolving |
| FsClient.FsInstance.ResolveHandler | fs-instance.cpp:44-64 | the step for a resolved address |
| FsClient.FsInstance.ConnectHandler | fs-instance.cpp:66-88 | the step for a connection attempt |
| FsClient.FsInstance.ReadHandler | fs-instance.cpp:89-207 | the step for data read |
| FsClient.FsInstance.TimerHandler | fs-instance.cpp:209-253 | the step for an expired timer |
| FsClient.FsInstance.ReloadXml | fs-instance.cpp:260-271 | the step for a reload |
| CrcBits.FeedLinear | deps/boost_1_55_0/boost/crc.hpp:727-751 | the division is linear in remainder and message |
| CrcBits.ByteStep | deps/boost_1_55_0/boost/crc.hpp:943-966 | eight single steps are one shift by a byte and one table entry, also for registers narrower than a byte |
| CrcBits.AugmentedIsPlain | deps/boost_1_55_0/boost/crc.hpp:1045-1076 | shifting in a message and a register of zeros is dividing the message |
| Crc.OptimalIsBasic | deps/boost_1_55_0/boost/crc.hpp:940-995 | for every width, polynomial, initial remainder, final mask, all reflections and every message the table driven checksum is the bitwise one |
| CrcDivision.FeedIsRemainder | deps/boost_1_55_0/boost/crc.hpp:727-751 | feeding a message leaves the register with the one remainder of dividing message times x^width, plus the initial remainder at its top, by the polynomial with its leading term, and with nothing else |
| CrcDivision.OnlyOne | deps/boost_1_55_0/boost/crc.hpp:727-751 | quotient and remainder of that division are unique |
| CrcDivision.ChecksumIsRemainder | deps/boost_1_55_0/boost/crc.hpp:727-995 | the bitwise and the table driven checksum are both that remainder, in the wanted bit order and with the final mask |
| Crc.AugmentedIsBasic | deps/boost_1_55_0/boost/crc.hpp:1045-1076 | with width / 8 zero bytes appended the augmented computation gives the plain checksum |
| Crc.AugmentedVerifies | deps/boost_1_55_0/boost/crc.hpp:1045-1076 | a message followed by its big-endian checksum gives 0 |
| CrcMachine.Reflect | deps/boost_1_55_0/boost/crc.hpp:306-326 | reverses the low bits of a word and clears the rest |
| CrcMachine.Divide | deps/boost_1_55_0/boost/crc.hpp:727-751 | one division step on a word is one on its register, whatever is above it |
| CrcMachine.InitTable | deps/boost_1_55_0/boost/crc.hpp:488-536 | every byte's remainder stands at that byte's index, in either bit order |
| CrcMachine.CrcBasic.ProcessBit | deps/boost_1_55_0/boost/crc.hpp:727-751 | one single step |
| CrcMachine.CrcBasic.ProcessBits | deps/boost_1_55_0/boost/crc.hpp:752-772 | feeds the low bits of a byte, upper ones first |
| CrcMachine.CrcBasic.ProcessByte | deps/boost_1_55_0/boost/crc.hpp:773-783 | feeds a byte in its order |
| CrcMachine.CrcBasic.ProcessBlock | deps/boost_1_55_0/boost/crc.hpp:784-799 | feeds a message |
| CrcMachine.CrcBasic.Checksum | deps/boost_1_55_0/boost/crc.hpp:815-823 | the remainder in its order, with the final mask, nothing above the register |
| CrcMachine.CrcOptimal.constructor | deps/boost_1_55_0/boost/crc.hpp:836-843 | starts from the initial remainder in its order and a filled table |
| CrcMachine.ShiftOutIs | deps/boost_1_55_0/boost/crc.hpp:592-621 | shifting a word by a byte shifts its register, up or down, also when a byte is the whole word |
| CrcMachine.CrcOptimal.ProcessOne | deps/boost_1_55_0/boost/crc.hpp:956-966 | one table step |
| CrcMachine.CrcOptimal.ProcessBlock | deps/boost_1_55_0/boost/crc.hpp:943-966 | table steps over a message |
| CrcMachine.CrcOptimal.Checksum | deps/boost_1_55_0/boost/crc.hpp:987-996 | the remainder in its order, with the final mask |
| CrcMachine.ChecksumBothWays | deps/boost_1_55_0/boost/crc.hpp:144-250 | fresh objects of both kinds, on words of any two widths, compute the same checksum, which is the bitwise one |
| CrcMachine.AugmentedCrc | deps/boost_1_55_0/boost/crc.hpp:1045-1076 | the augmented computation on words |
| Decimal.WrapShows | deps/boost_1_55_0/boost/lexical_cast.hpp:887-897 | a product taken modulo the type and divided back differs exactly when it was too large |
| Lexical.RetUnsigned | deps/boost_1_55_0/boost/lexical_cast.hpp:870-986 | accepts exactly the non-empty texts whose digits, separators stripped, make a number that fits, and returns it |
| Lexical.ReadPlain | deps/boost_1_55_0/boost/lexical_cast.hpp:964-986 | the same without grouping, or from where a separator is missing |
| Lexical.ReadGrouped | deps/boost_1_55_0/boost/lexical_cast.hpp:898-961 | the same with grouping |
| Lexical.PrintedFits | deps/boost_1_55_0/boost/lexical_cast.hpp:578-591 | whatever the grouping, at most 2 * digits10 + 1 characters are written |
| Lexical.PrintedReadable | deps/boost_1_55_0/boost/lexical_cast.hpp:809-866 | printing and reading under the same positive grouping, or none, gives the number back |
| Lexical.PutUnsigned | deps/boost_1_55_0/boost/lexical_cast.hpp:791-868 | writes the printed form right before the end and nothing else |
| Lexical.PutPlain | deps/boost_1_55_0/boost/lexical_cast.hpp:856-866 | the same without grouping |
| Lexical.PutGrouped | deps/boost_1_55_0/boost/lexical_cast.hpp:809-855 | the same with grouping |
| Lexical.ToUnsigned | deps/boost_1_55_0/boost/lexical_cast.hpp:780-788 | the magnitude of every value, the minimum included |
| Lexical.ShlSigned | deps/boost_1_55_0/boost/lexical_cast.hpp:1638-1649 | writes a signed value; the buffer always suffices |
| Lexical.ShrSigned | deps/boost_1_55_0/boost/lexical_cast.hpp:1948-1979 | accepts exactly the numbers of the signed range and returns them |
| Lexical.ShrUnsigned | deps/boost_1_55_0/boost/lexical_cast.hpp:1921-1945 | accepts an optional sign; a minus wraps the number around |
| Lexical.SignedRoundTrip | deps/boost_1_55_0/boost/lexical_cast.hpp:1638-1979 | the printed form of every signed value, the minimum included, is read back as that value |

## Left out

- Sofia-SIP itself, header strings, SDP and sending: handles, callbacks and a log of outputs stand for them.
- The SIP stack's destruction of a leg is taken to make later lookups on its transactions find no leg.
- Rejections before a call is taken on (`ssp-controller.cpp:942-1020`) and ACK inside a dialog: they touch no table.
- The shutdown branches of the watchdog (`ssp-controller.cpp:669-730`): logging and stack calls.
- Call detail records are posted by shared pointer and changed later (`ssp-controller.cpp:1569`, `ssp-controller.cpp:1621`); the model takes each record as it is when posted.
- MySQL, prepared statements, connection pool and SQL errors: only the effect on rows is kept, with the unique index and the foreign key of `database/ssp.sql:41-56`.
- Threads, mutexes, io_service and clocks: handlers are atomic steps, time is a monotone input, server states are a snapshot within one call.
- Status 700 and above in an answer to an INVITE (`ssp-controller.h:132-137`): the environment answers 100 to 699.
- Reading XML, SIGHUP, command line, logging, nagios, test tools: plumbing.
- Customer DNIS lookup (`ssp-config.cpp:42-44`): entries with the same start collide whatever their length, so little can be claimed.
- Servers.FsMonitor.LeastLoaded: a linear search in place of sorting all servers; any server that none precedes may be first after sorting.
- FsReader.ReadProfile: a profile line with too few words is read as no profile, where the source runs past the end of its tokens; likewise a blank count line.
- FsMessages.Atoi: numbers beyond the range of int, which the C library leaves undefined, are read exactly and then taken modulo 2^32.
- Socket errors thrown by synchronous writes, which end the event thread.
- Lexical.PrintedReadable: numbers of more than 127 digits, which no integer type has, because group counters are single bytes.
- Floating point, infinities and stream based conversions of lexical_cast.
