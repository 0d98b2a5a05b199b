# Settlement instructions: a Dafny model

The repository keeps standing and single-use settlement instructions, payments against
them, a search index over both, a chat service that answers questions about them, and a
service that hands out identifiers. This project models the parts where something can go
wrong between two steps, and proves what those parts guarantee on every input and every
run. `dafny verify dfyconfig.toml` checks all of it.

## What is modelled

**Instructions** (`Lifecycle`, `VersionChain`, `Interleaving`, `ConcurrencyTheorems`,
`Consent`, `InstructionService`). `Lifecycle` holds the instruction, each handler's status check and
field assignments, and the lifecycle graph as a separate table of edges. `VersionChain`
holds the stored documents and, as history the service does not keep, which version each
handler had read. `Interleaving` is the protocol: a handler reads, waits for the policy
decision, opens a transaction that re-reads and closes the open version and inserts the
next one with its audit event, commits, and publishes. Any number of handlers interleave
at every step and stop anywhere; transactions follow snapshot isolation. `InstructionService`
is the repository and the service as classes, and each call is proved to be a run of the
protocol, so the theorems about runs apply to the objects. An error answer does not mean that
nothing was stored; `ErrorYetStored` says exactly when it does not.

The results come in two layers. Under every interleaving the chain is well formed: each
version is some earlier one changed by one admitted request, snapshots are coherent, events
and facts match committed versions. That the history is a *path* in the lifecycle graph holds
only for versions written from the version they replaced. `append_version` compares the
version number it has just re-read inside the transaction
(`instruction-service/src/inst/repository.py:57-76`), not the one the handler based its
decision on, so a stale handler commits although the comment there and the error's
docstring describe a lost-update check. The model follows the code: `DoubleUseHappens` uses one single-use
instruction twice, `EdgeExactly` says when a version is a legal successor of the one before
it, `SecondUseExactly` when a second use gets in, and `LostUpdatesDetected` shows how the stored
data betrays a stale write.

**Payments** (`PaymentSaga`, `PaymentConsent`, `PaymentService`). The create saga interleaves its steps with
the instruction's handlers and with other creates and may stop anywhere. Instruction
handlers run one at a time here; `FreshChainIsHistory` ties that to the version chain, and
`OverlappingPayments` says what remains when they overlap: two payments on one single-use
instruction can happen, and cannot as long as each version was still admitted by the one it
replaced, which the transaction could check. A call's security event is written
after the payment, so `CreateAnswers` and `ApproveAnswers` say when an error hides a change. The
status recorded at creation and the version comparison at approval decide more than they
look like: `mark_used` raises the instruction's version after it was read, so a payment on
a single-use instruction is always cancelled at approval (`SingleUseNeverApproved`).

**Index** (`IndexGraph`, `IndexConsumer`, `IndexTogether`, `SearchPoint`). The graph writers' transactions
are steps on maps and sets, run in any order and number; the consumer's retry, skip, commit
and crash loop is proved to leave exactly such sequences, and what it indexes is given for every
run: a message that is given up is committed over by the next success, so the exact condition
for a fully indexed topic is part of the results. The search point merges facts and approval
patches. The conflict edges of the graph are never removed by any writer: an edge was justified
by stored versions when it was drawn (`ConflictsSound`), and may outlive them. The fact writer counts the statuses STANDING, SUBMITTED and
PENDING_APPROVAL as active, of which the instruction service only ever stores the first.

**Chat** (`RankFusion`, `MarkdownTable`, `ResponseFormatter`, `FormattedAnswer`, `Headings`, `IdExtraction`), **identifiers**
(`SequenceIds`), **recent events** (`RecentEvents`) and **policy clearing** (`PolicyClearing`)
are the loops of the source as methods, each with its specification function, and theorems
about those functions. `Text`, `Sorting` and `Wrappers` are shared helpers.

A policy decision, a clock reading, a database fault, a lost reply and a crash are
parameters. Character classes that depend on Unicode tables (decimal digits, case mapping)
are parameters too, required only to agree with ASCII where it matters.

## Model

| member | source | states |
|---|---|---|
| Lifecycle.GuardIsEdge | instruction-service/src/inst/service.py:395-828 | a handler's status check admits a request exactly when the lifecycle graph has an edge for it from a coherent snapshot, and the handler follows that edge |
| Lifecycle.DraftedCoherent | instruction-service/src/inst/service.py:354-393 | the instruction CREATE builds is coherent: party, time and counter fields agree with its status |
| Lifecycle.PreparedCoherent | instruction-service/src/inst/service.py:569-828 | every admitted request takes a coherent snapshot to a coherent one; EXPIRED is never reached, usage_count counts the USE entries |
| Lifecycle.SuspendReactivateRestores | instruction-service/src/inst/service.py:699-778 | suspend then reactivate gives back the whole snapshot, apart from the two lifecycle entries |
| Lifecycle.ApprovalIsFrozen | instruction-service/src/inst/service.py:604-828 | after approval no request changes terms, approver or approval time |
| Lifecycle.ValidatorAcceptsExactly | instruction-service/src/inst/models/fact_validation.py:25-68 | the fact validator accepts a handler's snapshot for its action exactly when the actor, party ids and reasons were non-empty |
| Lifecycle.ValidatorAcceptsDraft | instruction-service/src/inst/models/fact_validation.py:25-68 | and the snapshot of CREATE exactly when id and creator are non-empty |
| VersionChain.InitialOk | instruction-service/src/inst/repository.py:35-48 | inserting the first version gives a well-formed chain |
| VersionChain.AppendedOk | instruction-service/src/inst/repository.py:50-104 | appending from any earlier version, stale or not, keeps the chain well formed: numbers 1..n, one open version, out of k equals in of k+1 |
| VersionChain.VersionWrites | instruction-service/src/inst/service.py:395-828 | every later version of a chain has, field by field, what its request writes from its actor, time, terms or reason, and in all other fields what its base had; `Wrote` spells the fields out |
| VersionChain.FirstVersionWrites | instruction-service/src/inst/service.py:354-393 | version 1 is a DRAFT with the terms and the creator of its CREATE, no decision and no use |
| VersionChain.TermsAreTheLast | instruction-service/src/inst/service.py:395-437 | a version's terms are those of the last UPDATE, or of CREATE, along the versions it was made from |
| VersionChain.SnapshotCoherent | instruction-service/src/inst/storage.py:29-57 | every payload in a well-formed chain is coherent, through stale bases too |
| VersionChain.EntriesBoundVersion | instruction-service/src/inst/service.py:259-272 | version n has at most n lifecycle entries, exactly n iff no version up to n was written from a stale snapshot |
| VersionChain.FreshHistoryIsPath | instruction-service/src/inst/service.py:395-828 | a version written from its predecessor follows an edge of the lifecycle graph, and the predecessor was not final |
| VersionChain.EdgeExactly | instruction-service/src/inst/repository.py:57-76 | a version, stale or not, follows an edge from its predecessor iff the predecessor's status still admitted the request and its type agreed where the new status depends on it |
| VersionChain.UsedUpOnce | instruction-service/src/inst/service.py:780-828 | on a chain whose versions were each still admitted by the one they replaced, stale bases or not, a USE used the instruction up once if its open version is USED, and otherwise never |
| VersionChain.SecondUseExactly | instruction-service/src/inst/repository.py:57-76 | on such a chain one more USE of a single-use snapshot makes a second use iff the version it replaces is already USED |
| VersionChain.RecheckedTerms | instruction-service/src/inst/service.py:604-828 | all approved versions of such a chain have the same terms |
| VersionChain.StoredVersionAccepted | instruction-service/src/inst/models/fact_validation.py:25-68 | every stored version, the first included, passes the fact validator iff its handler was given its names |
| VersionChain.SomeVersionInForce | instruction-service/src/inst/storage.py:29-57 | from the first version on, at every time some version is in force, whatever the clocks did |
| VersionChain.PartitionExactly | instruction-service/src/inst/repository.py:50-104 | the half-open validity intervals partition all time from the first version on iff no clock reading stepped back below an earlier one that lay after the first version |
| Interleaving.CommitKept | instruction-service/src/inst/service.py:274-322 | a commit that holds its write lock keeps chains, handlers, audit and facts consistent |
| Interleaving.StepKeepsInv | instruction-service/src/inst/service.py:274-352 | every step of every handler, conflicts and crashes included, keeps the protocol's invariant |
| Interleaving.RunKeepsInv | instruction-service/src/inst/service.py:274-352 | so does every run |
| ConcurrencyTheorems.ChainAfterEveryRun | instruction-service/src/inst/repository.py:35-104 | after every interleaving each instruction's versions are 1..n with one open version, each reached from an earlier one by one admitted request |
| ConcurrencyTheorems.RunsOnlyExtend | instruction-service/src/inst/repository.py:72-91 | whatever runs next, stored versions keep number, payload and start and are closed at most once |
| ConcurrencyTheorems.VersionsAreCommits | instruction-service/src/inst/repository.py:57-104 | every run adds exactly as many versions to an instruction as its transactions commit; conflicts, denials and crashes add none |
| ConcurrencyTheorems.SnapshotsAfterEveryRun | instruction-service/src/inst/service.py:395-828 | every stored snapshot is coherent after every interleaving |
| ConcurrencyTheorems.FieldsAfterEveryRun | instruction-service/src/inst/service.py:395-828 | after every interleaving each stored version has the fields its request writes and its base's in all others |
| ConcurrencyTheorems.TermsAfterEveryRun | instruction-service/src/inst/service.py:395-437 | and the terms of the last UPDATE, or of CREATE, along its base path |
| ConcurrencyTheorems.LostUpdatesDetected | instruction-service/src/inst/service.py:324-352 | after every interleaving version n has at most n lifecycle entries, and fewer iff some version up to n was written stale; usage_count equals its USE entries |
| ConcurrencyTheorems.AuditIsExact | instruction-service/src/inst/service.py:202-322 | each committed version has exactly one success event with its number, actor and action if its writer is audited, none if excluded; every write event carries a version number and a committed one |
| ConcurrencyTheorems.DenialsAreAudited | instruction-service/src/inst/service.py:202-257 | an event that is no write appears once more for every denial or view of that kind by an audited subject, and for nothing else |
| ConcurrencyTheorems.FactsAreCommitted | instruction-service/src/inst/service.py:274-322 | every published fact is the snapshot of a committed version under its number and action |
| ConcurrencyTheorems.SerialHistoryIsPath | instruction-service/src/inst/service.py:569-828 | when handlers on an instruction do not overlap from their read to their commit, its history is a path in the lifecycle graph, entries count versions, and REJECTED, USED and DELETED are last |
| ConcurrencyTheorems.OverlappingUsesBothCommit | instruction-service/src/inst/service.py:780-828 | two overlapping uses of a current single-use instruction both commit, under two payment references, by any actors at any times and beside any other handlers, as long as nobody is writing it |
| Consent.EveryVersionWasAllowed | instruction-service/src/inst/service.py:202-352 | behind every stored version of every run stands a policy decision that allowed this request of this actor, made on the very snapshot the version was made from |
| InstructionHandlers.InstructionRepository.InsertInitial | instruction-service/src/inst/repository.py:35-48 | inserts version 1, or changes nothing |
| InstructionHandlers.InstructionRepository.AppendVersion | instruction-service/src/inst/repository.py:50-104 | closes the open document and inserts the next, or fails with the error of its fault |
| InstructionHandlers.InstructionRepository.GetCurrent | instruction-service/src/inst/repository.py:106-112 | returns the instruction's one open document, or NotFound when there is none |
| InstructionHandlers.InstructionService.SaveWithSecurityEvent | instruction-service/src/inst/service.py:274-322 | version and audit event are written together or the whole state is as before, for faults of the version, the event and the commit; the answer in each case, errors raised after the commit included |
| InstructionHandlers.InstructionService.CreateInstruction | instruction-service/src/inst/service.py:354-393 | is one run of the protocol, or nothing when no id is issued, with the answer in every case |
| InstructionHandlers.InstructionService.AssignFields | instruction-service/src/inst/service.py:395-828 | the handlers' assignments in place compute the snapshot the protocol commits |
| InstructionHandlers.InstructionService.ChangeInstruction | instruction-service/src/inst/service.py:395-828 | each call is exactly one run of the protocol, with the answer in every case |
| InstructionHandlers.ChangeRun | instruction-service/src/inst/service.py:202-352 | closed form of a handler alone: denied with or without an event, failed without a trace, or saved with version, event and fact |
| InstructionHandlers.OkMeansStored | instruction-service/src/inst/service.py:274-352 | a successful answer names the version stored, which closes the one before, has the fields its request writes and the others unchanged, follows an edge of the lifecycle graph, and has its event and fact |
| InstructionHandlers.CreatedExactly | instruction-service/src/inst/service.py:354-393 | CREATE succeeds exactly when it is allowed, the id is new, the event is recorded, the commit acknowledged and, for an audited caller, id and actor are non-empty; and which error it gives otherwise |
| InstructionHandlers.CreateStores | instruction-service/src/inst/service.py:354-393 | a successful CREATE leaves one open document, the draft, with its event and its fact |
| InstructionHandlers.ErrorsMean | instruction-service/src/inst/service.py:395-828 | NotFound, InvalidTransition and PolicyDenied are answered exactly when there is no instruction, no edge of the graph from its open version, and a denial |
| InstructionHandlers.ErrorsOfTheSave | instruction-service/src/inst/service.py:274-352 | and the errors from the transaction on exactly for their faults |
| InstructionHandlers.ErrorYetStored | instruction-service/src/inst/service.py:308-320 | an error comes with a stored version exactly when the commit went unacknowledged or an audited caller's snapshot lacks a name its fact needs |
| InstructionHandlers.DoubleUseHappens | instruction-service/src/inst/repository.py:57-76 | from the empty store a single-use instruction is created, submitted, approved and used twice under two references; the last version has four entries and number five |
| PaymentSaga.RunKeepsInv | payment-service/src/ps/service.py:283-385 | every interleaving of creates, crashes, approvals and instruction handlers keeps the saga's invariant |
| PaymentSaga.LivesInRun | payment-service/src/ps/service.py:389-594 | in every run each payment's status, cancellation reason and event list agree: a reason if and only if it is cancelled, and only the event sequences of the lifecycle |
| PaymentSaga.OverStays | payment-service/src/ps/service.py:389-594 | approved, rejected and cancelled payments never change again |
| PaymentSaga.CreateStartsExactly | payment-service/src/ps/service.py:67-79 | a create goes on exactly if the open version is STANDING or SINGLE_USE and has not ended, with that version and status |
| PaymentSaga.UseVersionsCounted | instruction-service/src/inst/service.py:780-828 | the number of versions written by a USE is the current usage_count |
| PaymentSaga.SingleUseIsPaidOnce | payment-service/src/ps/service.py:342-372 | for every run on a single-use instruction: payments <= USE versions <= 1, and the payment's id is that USE's payment reference |
| PaymentSaga.ApprovalDecides | payment-service/src/ps/service.py:453-522 | the whole outcome of an approval, by version, dates and policy alone; on equal versions the snapshot read is the very one the payment was created from, and the status, type and date-format checks never fire |
| PaymentSaga.ApprovalEnds | payment-service/src/ps/service.py:453-522 | a finished approval cancels with the reason version drift, expired or not yet effective, in that order, and otherwise approves or leaves the payment as the policy says; nothing else of it changes |
| PaymentSaga.ProblemIs | payment-service/src/ps/service.py:82-153 | which check fails first, for every snapshot that can be read |
| PaymentSaga.ApprovedWasCurrent | payment-service/src/ps/service.py:453-522 | whenever a payment is APPROVED after a run, one step approved it with the policy's consent and on the very snapshot it was created from |
| PaymentSaga.ApprovedInRun | payment-service/src/ps/service.py:453-522 | the same for every run from a new instruction |
| PaymentConsent.EveryPaymentWasAllowed | payment-service/src/ps/service.py:283-385 | behind every payment of every run stands a read of the version it names, payable and not ended then, and after it a policy decision that allowed it |
| PaymentSaga.SingleUseNeverApproved | payment-service/src/ps/service.py:342-372 | no run approves a payment made on a single-use instruction |
| PaymentHandlers.InstructionManager.MarkUsed | payment-service/src/ps/ilm_client.py:115-143 | adds the USE version with the payment's reference, or refuses and changes nothing |
| PaymentHandlers.PaymentService.Create | payment-service/src/ps/service.py:283-385 | is exactly one run of the saga, with the answer in every case, the failing event after the insert included |
| PaymentHandlers.PaymentService.Approve | payment-service/src/ps/service.py:453-522 | is exactly one run of the approval, with the answer in every case, a missing instruction and a failing event included |
| PaymentHandlers.CreateErrors | payment-service/src/ps/service.py:283-385 | each error of a create is given exactly in its case, for every instruction, decision and fault |
| PaymentHandlers.CreatedIsDraft | payment-service/src/ps/service.py:330-385 | the payment returned is a draft on the version and status read |
| PaymentHandlers.ApprovedOrCancelled | payment-service/src/ps/service.py:453-522 | the payment an approval stores is cancelled for a missing instruction, another version, an end date passed or an effective date not reached, with that reason, and approved otherwise if allowed |
| PaymentHandlers.ApproveErrors | payment-service/src/ps/service.py:453-522 | each error of an approval is given exactly in its case |
| PaymentHandlers.CreateRun | payment-service/src/ps/service.py:300-385 | closed form of a create alone, including an instruction left USED when the answer was lost |
| PaymentHandlers.ApproveRun | payment-service/src/ps/service.py:453-522 | closed form of an approval alone: cancelled, approved or unchanged |
| PaymentHandlers.CreateAnswers | payment-service/src/ps/service.py:365-385 | a payment returned is stored; an error comes with a stored payment exactly when only the event after the insert failed |
| PaymentHandlers.ApproveAnswers | payment-service/src/ps/service.py:453-522 | the same for an approval or cancellation |
| PaymentHandlers.UsedYetUnpaid | payment-service/src/ps/service.py:342-367 | a single-use instruction is left USED without a payment exactly when the manager agreed and then its answer was lost or the insert failed |
| OverlappingPayments.EachPaymentHasItsUse | payment-service/src/ps/service.py:342-372 | with instruction handlers overlapping in any way, payments on single-use snapshots do not outnumber the USE versions, and each has a USE version under its own id |
| OverlappingPayments.TwoPaymentsHappen | payment-service/src/ps/service.py:342-372 | but there can be two of them: from every state where two uses can overlap, two creates both insert |
| OverlappingPayments.TwoPaymentsReached | payment-service/src/ps/service.py:342-372 | and from the empty store such a run exists: create, submit and approve a single-use instruction, then two creates |
| OverlappingPayments.OnePaymentIfRechecked | payment-service/src/ps/service.py:342-372 | with handlers overlapping in any way there is at most one payment on single-use snapshots as long as every version was still admitted by the one it replaced |
| PaymentHandlers.FreshChainIsHistory | instruction-service/src/inst/repository.py:50-104 | a version chain without stale writes is a history as the saga assumes it |
| IndexGraph.CurrentConverges | ssi-indexer/src/etl/neo4j_client.py:310-377 | after any sequence of both writers' transactions HAS_VERSION is exactly the versions written and CURRENT exactly the highest of each instruction |
| IndexGraph.CurrentIsUnique | ssi-indexer/src/etl/neo4j_client.py:769-816 | one CURRENT edge per instruction written, none otherwise; it depends only on the set written, not on order or repetition |
| IndexGraph.CurrentNeverDecreases | ssi-indexer/src/etl/neo4j_client.py:778-816 | the version CURRENT points at never goes down |
| IndexGraph.LatestOfOneMore | ssi-indexer/src/etl/neo4j_client.py:778-816 | the gate of the fact writer replaces the highest version exactly when the new one is not lower |
| IndexGraph.EventAdvancesLikeFact | ssi-indexer/src/etl/neo4j_client.py:361-377 | the event writer's different gate moves CURRENT the same way |
| IndexGraph.NodesFaithful | ssi-indexer/src/etl/neo4j_client.py:310-359 | a version node carries its snapshot's status and currency, and its account once the writer that keeps it has run |
| IndexGraph.ConflictsGrow | ssi-indexer/src/etl/neo4j_client.py:952-974 | no transaction removes a CONFLICTS_WITH edge |
| IndexGraph.ConflictsSymmetric | ssi-indexer/src/etl/neo4j_client.py:414-431 | CONFLICTS_WITH is symmetric and irreflexive after any sequence, between instructions and between versions |
| IndexGraph.ConflictsSound | ssi-indexer/src/etl/neo4j_client.py:952-974 | for any faithful sequence, an edge between instructions comes from stored versions of both with equal non-empty account and equal non-empty currency, one of these versions active and some version of the other instruction active; an edge between versions joins two stored ones with equal account and currency of which one is active |
| IndexGraph.ConflictsComplete | ssi-indexer/src/etl/neo4j_client.py:952-974 | once the facts of two active current versions with the same account and currency are processed, CONFLICTS_WITH holds both ways, whatever else ran in between |
| IndexGraph.VersionConflictsComplete | ssi-indexer/src/etl/neo4j_client.py:414-431 | the event writer links two versions with the same account and currency, whichever came first |
| IndexConsumer.Neo4jGraphWriter.WriteFactState | ssi-indexer/src/etl/neo4j_client.py:769-816 | the state query in place is the transaction the graph model defines |
| IndexConsumer.Neo4jGraphWriter.WriteFactConflicts | ssi-indexer/src/etl/neo4j_client.py:952-974 | so is the conflict query |
| IndexConsumer.Neo4jGraphWriter.UpsertEvent | ssi-indexer/src/etl/neo4j_client.py:310-431 | so is the event writer's |
| IndexConsumer.InstructionKafkaConsumer.RunSession | ssi-indexer/src/etl/instruction_consumer.py:62-95 | a session leaves exactly the transactions and the committed offset its failures allow |
| IndexConsumer.InstructionKafkaConsumer.TryMessage | ssi-indexer/src/etl/instruction_consumer.py:66-93 | one to five attempts, all but the last transient, the last not unless it is the fifth; exactly their transactions, a commit only on success, skip or crash otherwise |
| IndexConsumer.FiveAttempts | ssi-indexer/src/etl/instruction_consumer.py:16-93 | a message ends as its last attempt does, the fifth at the latest, and leaves what the attempts up to it leave, in order |
| IndexConsumer.EndsExactly | ssi-indexer/src/etl/instruction_consumer.py:16-93 | it succeeds iff one of five attempts does after transient ones only, and is given up as transient iff all five were |
| IndexConsumer.InstructionKafkaConsumer.HandleMessage | ssi-indexer/src/etl/instruction_consumer.py:97-101 | invalid payloads are ignored; otherwise as many transactions as the attempt got through |
| IndexConsumer.SessionCommitsTried | ssi-indexer/src/etl/instruction_consumer.py:62-95 | the committed offset follows the last success before a crash, and no success lies beyond it |
| IndexConsumer.SessionProcesses | ssi-indexer/src/etl/instruction_consumer.py:62-95 | a message that succeeds leaves both of its transactions, in order, whatever was retried around it |
| IndexConsumer.SessionsIndex | ssi-indexer/src/etl/instruction_consumer.py:62-101 | after any sessions with any retries, skips and crashes, HAS_VERSION is exactly the versions of messages some session reached and got a transaction of through, and CURRENT the highest of each instruction among them |
| IndexConsumer.CommittedAreSettled | ssi-indexer/src/etl/instruction_consumer.py:62-95 | every offset below the committed one was reached by a session that did not crash on it, and where it succeeded both transactions ran in order; nothing outside the topic is written |
| IndexConsumer.FullyIndexedExactly | ssi-indexer/src/etl/instruction_consumer.py:75-93 | the index holds all versions of the topic iff each was carried through by some message, so a skipped message is harmless iff another one stands in |
| IndexConsumer.CurrentExactly | ssi-indexer/src/etl/instruction_consumer.py:75-93 | CURRENT is right for the topic iff its highest versions were carried through |
| IndexConsumer.CommittedAreProcessed | ssi-indexer/src/etl/instruction_consumer.py:62-95 | corollary: where no message is given up, every committed message was processed by both transactions |
| IndexConsumer.TopicIsIndexed | ssi-indexer/src/etl/instruction_consumer.py:62-101 | corollary: where no message is given up and the topic is committed, it is fully indexed and CURRENT is right |
| IndexTogether.TogetherIndexed | ssi-indexer/src/etl/neo4j_client.py:310-377 | the same with any security-event transactions shuffled in between: HAS_VERSION is what the messages carried through and the events wrote, CURRENT the highest of each |
| IndexTogether.CarriedConflictsHold | ssi-indexer/src/etl/neo4j_client.py:952-974 | two messages that sessions processed to their end, about their instructions' highest versions, active and with the same account and currency, leave CONFLICTS_WITH both ways, whatever else ran |
| SearchPoint.QdrantHybridStore.ProcessFact | ssi-indexer/src/etl/instruction_pipeline.py:58-118 | the overwriting of payload fields from the existing point is the merge the model defines, on that point only |
| SearchPoint.QdrantHybridStore.PatchAuthorization | ssi-indexer/src/etl/qdrant_store.py:370-415 | the patch changes only an existing point, and only with a summary |
| SearchPoint.DeliverKeeps | ssi-indexer/src/etl/instruction_pipeline.py:93-111 | one delivery never mixes or drops what the point knows about approval and rejection, and an APPROVE or REJECT fact sets it |
| SearchPoint.VerdictStays | ssi-indexer/src/etl/instruction_pipeline.py:59-118 | for any order and repetition of facts and patches, a known approver, approval time or rejection stays, unchanged |
| SearchPoint.VerdictArrives | ssi-indexer/src/etl/qdrant_store.py:323-415 | once the APPROVE (or REJECT) fact was delivered, whatever came before or after, the point ends with its values |
| SearchPoint.VerdictIsOne | instruction-service/src/inst/service.py:604-697 | all approved versions of a serial history agree on the approval, and at most one version is rejected |
| SearchPoint.FreshFactsFit | ssi-indexer/src/etl/instruction_security_event_pipeline.py:47-58 | all published facts and the patches of all approval events of a serial history, denied ones included, fit one verdict |
| SearchPoint.DeniedBringsNoTime | instruction-service/src/inst/service.py:604-625 | the snapshot in the event of a denied approval has no approval time |
| SearchPoint.VerdictIsKept | ssi-indexer/src/etl/qdrant_store.py:370-415 | for any order and repetition of a serial history's facts and patches, denied approvals included, an approver, approval time or rejection once shown stays the same |
| SearchPoint.VerdictIsShown | ssi-indexer/src/etl/instruction_pipeline.py:93-118 | once the fact of the approving (rejecting) version was delivered, the point ends with that version's approver and time (rejector, time and reason) |
| SearchPoint.LastFactShows | ssi-indexer/src/etl/instruction_pipeline.py:58-118 | the point shows the action, version and status of the last fact delivered, and its text followed by what later authorizations add |
| SearchPoint.SummaryIsTheLast | ssi-indexer/src/etl/instruction_pipeline.py:93-98 | for any deliveries the authorization summary and its basis are those of one delivery: the last that brings a summary, is an APPROVE fact or made the point |
| SearchPoint.TimeArrives | ssi-indexer/src/etl/qdrant_store.py:393-397 | an authorization that reaches a point brings the approval time for good |
| SearchPoint.NamesShown | ssi-indexer/src/etl/instruction_pipeline.py:128-135 | a user is shown as family name, given name and id, or by id alone |
| RankFusion.RrfMerge | ssi-chat/src/chat_application/reranker.py:47-90 | the loops compute the ranking the theorems below are about |
| RankFusion.MergeList | ssi-chat/src/chat_application/reranker.py:59-87 | the inner loop adds one list's hits by rank |
| RankFusion.MergeHit | ssi-chat/src/chat_application/reranker.py:59-87 | one hit creates or raises the entry of its key |
| RankFusion.FusedScore | ssi-chat/src/chat_application/reranker.py:47-90 | a key's accumulated score is the sum of 1/(k+rank) over its occurrences |
| RankFusion.FusedConserves | ssi-chat/src/chat_application/reranker.py:47-90 | all scores together are the sum of 1/(k+rank) over all hits |
| RankFusion.ScoreOrderFree | ssi-chat/src/chat_application/reranker.py:47-90 | scores do not depend on the order of the lists |
| RankFusion.Dominance | ssi-chat/src/chat_application/reranker.py:47-90 | a key no worse than another in every list, and present in one, scores strictly higher |
| RankFusion.RankingIsRight | ssi-chat/src/chat_application/reranker.py:47-90 | the ranking is sorted, has distinct keys, and holds exactly the keys that occur in some list, with their scores |
| RankFusion.RankingMerges | ssi-chat/src/chat_application/reranker.py:59-87 | every hit of the ranking has the ids of its first occurrence, exactly the sources of all, the first of the longest summaries and the first detail there is |
| RankFusion.SameKeyExactly | ssi-chat/src/chat_application/reranker.py:24-29 | hits are merged iff they have the same event, or no event and the same instruction, or neither and the same text hash |
| RankFusion.OneOccurrence | ssi-chat/src/chat_application/reranker.py:53-77 | a hit found once scores 1/(60 + rank), at whatever rank, when no other constant is given |
| RankFusion.PinnedMerge | ssi-chat/src/chat_application/rag.py:645-659 | exact hits first in their order, then the other hits in theirs, no key twice, nothing dropped below the cap |
| Sorting.SortDescSorts | ssi-chat/src/chat_application/reranker.py:89-90 | sorting gives a descending permutation |
| Sorting.SortDescStable | instruction-service/src/inst/security_event_ui_store.py:82-105 | equal keys keep their order |
| MarkdownTable.FormatMarkdownTable | ssi-chat/src/chat_application/formatting.py:20-45 | the nested width loops and the line printer compute the table the theorems below are about |
| MarkdownTable.WidthIsMaximum | ssi-chat/src/chat_application/formatting.py:30-34 | a column's width is the longest of its escaped cells, attained and never exceeded |
| MarkdownTable.RowsLineUp | ssi-chat/src/chat_application/formatting.py:36-45 | all full rows of a table are as long as its header line, and so is the rule unless a column is narrower than three |
| MarkdownTable.RowRoundTrip | ssi-chat/src/chat_application/formatting.py:12-45 | splitting a printed row at unescaped pipes, trimming and unescaping returns every cell's shown text, for all cells and widths; the row without cells is the one exception |
| MarkdownTable.TableRoundTrip | ssi-chat/src/chat_application/formatting.py:20-45 | a whole printed table reads back as its header and rows |
| ResponseFormatter.ParseKeyValueRecord | ssi-chat/src/chat_application/response_formatter.py:107-120 | the loop over matches fills the dictionary the parser's definition gives |
| ResponseFormatter.ParsedExactly | ssi-chat/src/chat_application/response_formatter.py:107-120 | what parsing a printed list of key=value segments gives, for values without equals sign and outer blanks |
| ResponseFormatter.RecordRoundTrip | ssi-chat/src/chat_application/response_formatter.py:107-120 | for such records with distinct keys, parsing gives the record back iff its last value does not end in a comma |
| ResponseFormatter.CommaIsLost | ssi-chat/src/chat_application/response_formatter.py:118 | a comma that ends the last value is lost |
| ResponseFormatter.LostComma | ssi-chat/src/chat_application/response_formatter.py:118 | a record that shows it |
| ResponseFormatter.SplitNumbered | ssi-chat/src/chat_application/response_formatter.py:174-191 | the loop over lines computes the split of numbered records |
| ResponseFormatter.SplitPlain | ssi-chat/src/chat_application/response_formatter.py:194-220 | the same for plain records |
| ResponseFormatter.NumberedSplitsExactly | ssi-chat/src/chat_application/response_formatter.py:174-191 | the introduction is the lines before the first record, the records are all matching lines in order, the footer all other lines after it; no line is lost |
| ResponseFormatter.PlainSplitsExactly | ssi-chat/src/chat_application/response_formatter.py:194-220 | the same for plain records |
| ResponseFormatter.HumanizedClean | ssi-chat/src/chat_application/response_formatter.py:123-124 | no header label, from the table or title-cased, contains a line break or is empty |
| ResponseFormatter.ColumnsExactly | ssi-chat/src/chat_application/response_formatter.py:127-133 | every key of every record has exactly one column, and there are no others, whichever preferred order applies |
| ResponseFormatter.JoinedTableFound | ssi-chat/src/chat_application/response_formatter.py:144-153 | a table joined with any introduction and footer, and trimmed, is found by the detector |
| ResponseFormatter.BlockHasTable | ssi-chat/src/chat_application/response_formatter.py:156-171 | whatever block a formatter builds is recognised as holding a table |
| ResponseFormatter.FormatIdempotent | ssi-chat/src/chat_application/response_formatter.py:95-104 | formatting a formatted answer changes nothing, for every text |
| ResponseFormatter.ValuesSurvive | ssi-chat/src/chat_application/response_formatter.py:136-171 | each field of each record is read back from its one column in the record's row of the final answer, introduction and footer included, up to outer blanks |
| FormattedAnswer.FormatsNumbered | ssi-chat/src/chat_application/response_formatter.py:95-191 | of a non-blank text without a table, numbered records worth a table become one: the answer is the introduction's lines, a header and a row for each record that read back, and the footer's lines |
| FormattedAnswer.FormatsPlain | ssi-chat/src/chat_application/response_formatter.py:95-220 | otherwise the same for two or more plain records |
| FormattedAnswer.FormatsNothingElse | ssi-chat/src/chat_application/response_formatter.py:95-240 | every other text is returned unchanged |
| FormattedAnswer.FieldIsShown | ssi-chat/src/chat_application/response_formatter.py:136-171 | each field stands in its record's line of such an answer, under its label in the header |
| FormattedAnswer.NumberedFieldIsShown | ssi-chat/src/chat_application/response_formatter.py:95-191 | so the fields of numbered records are read back from the formatted text |
| FormattedAnswer.ListIsTabled | ssi-chat/src/chat_application/response_formatter.py:95-191 | a list 1., 2., ... of printed records, any number and any keys, comes out as a table that shows every value in its record's row, or the dash for an empty one |
| Headings.ColumnsInOrder | ssi-chat/src/chat_application/response_formatter.py:127-133 | columns stand in the instruction order if at least two keys are in it, else in the payment order if two are in that, and all others after them, sorted |
| Headings.SharedLabels | ssi-chat/src/chat_application/response_formatter.py:72-124 | two different keys get the same label exactly for seven pairs of a key and its longer form, such as creditor and creditor_name |
| Text.LastSeparator | sequence-service/src/seq/formatting.py:16-29 | a text splits at its last separator in only one way |
| Text.DecimalReads | sequence-service/src/seq/formatting.py:20-21 | a printed number is non-empty ASCII digits and reads back |
| SequenceIds.SequenceRepository.AllocateNext | sequence-service/src/seq/repository.py:36-55 | raises the stored counter by one and returns it; a failed call changes nothing or loses one number |
| SequenceIds.SequenceService.NextSequence | sequence-service/src/seq/service.py:22-36 | validates, allocates from the request's counter and prints the id |
| SequenceIds.SequenceService.NextSecurityEventSequence | sequence-service/src/seq/service.py:38-52 | the same for a security event of a resource |
| SequenceIds.CountersCountUp | sequence-service/src/seq/repository.py:36-55 | in any run every counter gives out 1, 2, 3, ... up to its stored value |
| SequenceIds.RepliesExactly | sequence-service/src/seq/models.py:19-55 | a request is refused iff its date is no date, its line of business is blank or has a bad character, or its resource is blank; otherwise its fault alone decides the reply |
| SequenceIds.GapFreeUnlessLost | sequence-service/src/seq/repository.py:36-55 | what a counter has issued is 1..n without gaps iff no reply was lost after its increment |
| SequenceIds.LaterIsLarger | sequence-service/src/seq/repository.py:36-55 | numbers issued by one counter strictly increase |
| SequenceIds.IdInjective | sequence-service/src/seq/formatting.py:20-29 | an id tells its counter and number, for any counter key |
| SequenceIds.IdParts | sequence-service/src/seq/formatting.py:8-29 | the parts of the three forms of id, in order, with their codes |
| SequenceIds.CompactDateCounts | sequence-service/src/seq/formatting.py:8-9 | a compact date is the number year, month, day with two digits each for the last two |
| SequenceIds.IssuedIdsDistinct | sequence-service/src/seq/service.py:22-52 | all ids ever issued over all counters, security events included, are pairwise distinct |
| SequenceIds.CounterKeyInjective | sequence-service/src/seq/formatting.py:8-17 | date, line of business and type are determined by the counter key |
| SequenceIds.EventCountersApart | sequence-service/src/seq/formatting.py:24-25 | event counters never coincide with instruction or payment counters, nor with each other |
| SequenceIds.LobHasNoDash | sequence-service/src/seq/models.py:19-27 | an accepted line of business is non-empty and has no dash |
| SequenceIds.VersionKeyInjective | ssi-indexer/src/etl/neo4j_client.py:26-31 | version-node keys are equal iff instruction and version are |
| IdExtraction.ExtractsExactly | ssi-chat/src/chat_application/cypher.py:456-465 | from any text that mentions printed ids and security-event ids of both types, each followed by neither digit nor dash, and otherwise has nothing that looks like an id, the extractor returns exactly those of its type, each once, in order |
| IdExtraction.ExtractsFromText | ssi-chat/src/chat_application/cypher.py:456-465 | it is enough that the rest of the text has no eight digits in a row, no digit right before a mention, and neither a digit nor a dash right after one |
| IdExtraction.ExtractsOwnId | ssi-chat/src/chat_application/cypher.py:116-123 | from one printed id it returns that id, from a security-event id the parent |
| IdExtraction.OnceIsOnce | ssi-chat/src/chat_application/cypher.py:456-465 | deduplication keeps each id exactly once |
| RecentEvents.MergeRecentDocuments | instruction-service/src/inst/security_event_ui_store.py:82-105 | the dictionary loop, the two sorts and slices compute the merge the theorems below are about |
| RecentEvents.FirstByIdExact | instruction-service/src/inst/security_event_ui_store.py:88-92 | each non-empty event id is represented once, by the first document that has it |
| RecentEvents.CandidatesExact | instruction-service/src/inst/security_event_ui_store.py:99-103 | the candidates are, with multiplicity, the informational documents with an id no notable document has |
| RecentEvents.MergeRefines | instruction-service/src/inst/security_event_ui_store.py:82-105 | newest first, length min(limit, notables + candidates), the most recent notables the limit allows, then the most recent candidates in slots no notable needs |
| RecentEvents.NotableDroppedOnlyForNotable | instruction-service/src/inst/security_event_ui_store.py:93-97 | a notable document is left out only if the full list is notable and at least as recent |
| PolicyClearing.OpaServer.DeletePolicy | opa-policy-seed/upload_policies.py:89-96 | a delete succeeds iff no other remaining policy needs the policy and the request is not lost |
| PolicyClearing.DeleteOrder | opa-policy-seed/upload_policies.py:107-109 | a pass visits exactly the remaining policies, each once, preferred ones in their order, then the others sorted |
| PolicyClearing.PreferredOrderNoRepeat | opa-policy-seed/upload_policies.py:74-86 | the preferred order names no policy twice |
| PolicyClearing.ClearPolicies | opa-policy-seed/upload_policies.py:99-124 | for any preferred order: terminates; succeeds only with an empty server and the right count; gives up on cyclic dependencies, and otherwise only if a request was lost |
| PolicyClearing.StuckIsCyclic | opa-policy-seed/upload_policies.py:119-122 | if every remaining policy is needed by another, the dependencies contain a cycle |
| PolicyClearing.DeleteKeepsCycles | opa-policy-seed/upload_policies.py:114-117 | deleting a policy no other one needs neither breaks nor makes a cycle |

## Left out

- Authentication, sessions, token renewal and HTTP: the policy decision and every reply are arbitrary parameters.
- Rego policies: the decision is an oracle, so nothing is claimed about who may act.
- created_at and updated_at of a first version, which the service's constructor takes from its own clock, are not modelled.
- Timestamps are integers in the chain and reals in the event list; their text form and time zones are not modelled.
- Documents are grouped by instruction id in one sequence each; the collection's indexes appear only as the faults they cause.
- The eight handlers on an existing instruction share one method, ChangeInstruction, with their differences in the request.
- Failures of an event's id and of its insert are one outcome, an event that is not stored; both abort an instruction's transaction and neither undoes a payment.
- Fact delivery is one flag; the broker's own retries are not modelled.
- SUPERSEDES, user and organisation edges and APPROVED_FOR in the graph: simple merges, partly skipped for stale facts.
- Payment nodes and payment points of the index: overwritten unconditionally, so nothing converges.
- The security-event consumer's own loop: its transactions are arbitrary among the fact consumer's.
- CONFLICTS_WITH can be out of date: an edge is proved to come from stored versions, not from the current ones, since a stale fact can add one and no writer removes any.
- Search text, embeddings, the status and the authorization summary of a search point follow the last delivery and do not converge.
- Submitting and rejecting payments appear as saga steps, not as methods; viewing and listing are omitted.
- Hits carry one optional detail in place of the four optional fields that merge alike; floating-point rounding of scores is not modelled.
- PaymentSaga.SingleUseIsPaidOnce: assumes that instruction handlers do not overlap; TwoPaymentsHappen shows why that is needed.
- ResponseFormatter.RecordRoundTrip: values with an equals sign or outer blanks are not covered; the parser cannot tell an equals sign in a value from one after a key.
- SequenceIds.CounterKeyInjective: years below 1000 are printed without padding, as glibc does; extraction is claimed for four-digit years only.
- RecentEvents.MergeRecentDocuments: a negative limit, which slices from the end in the source, is not modelled.
- PolicyClearing.OpaServer.DeletePolicy: a request that fails has not deleted anything, and connection errors that abort the program are not modelled.
- Cypher generation, prompts, the language model and the web pages.
