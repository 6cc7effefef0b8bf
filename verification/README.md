# Signalling server and runtime agent: a verified model

The project models the parts of this repository whose promises span several
functions, processes or machines, and proves those promises. Every file
verifies on its own terms with `dafny verify dfyconfig.toml`.

Code that the repository writes as objects with changing fields is a class
here, and each method is tied, by its postcondition, to a function on values
with the same branches. The promises are lemmas about those functions: over one
call where the promise is about one call, over every run of a state machine
where it is about the protocol.

## The parts

**The connect-ticket runtime gate** (`RuntimeSnapshot*`, `RuntimeGate*`,
`ConnectTicketRuntimeGate`). One state file, one process at a time, three
outcomes of every write (lost; in place but reported as failed; complete),
crashes, and power failures that undo what was not synced. The ticket cutoff,
the recovery latch with its margin, the owner of the session and the fence of
completed recycle tokens are followed over every run, together with the two
gate calls that `validateToken` makes to admit a ticket.

**The instance agent** (`EventQueue*`, `Recycle*`, `InstanceAgentRecycle`,
`GraceEvidence*`, `CodecEvidence*`). The bounded event queue acknowledged by
prefix, the recycle marker that survives processes, the round-robin journal of
reconnect-grace evidence and the journal of codec evidence, against failing
writes, crashes, restarts and replies in any order.

**Signalling** (`Connections`, `Connection*`, `CodecNegotiation`, `CodecFreeze`,
`SignallingServer`, `SdpText`, `CodecPolicy*`, `CodecAnswer*`, `Streamer*`).
Subscriptions recorded at both ends, the cascade of a disconnect through chains
and cycles of SFUs, what each handler of a viewer does, the freezing of a
governed viewer's codec, the rewriting of session descriptions (sections 5.14
and 6.6 of RFC 8866, section 8.6 of RFC 4588) and the check of answers (section
6 of RFC 3264), and the ids of streamers.

**Algorithms** (`Ustar*`, `Utf8`, `BundleFiles`, `LogRedaction*`,
`NegotiationRecovery`, `NegotiationWaits`, `RuntimeStatus*`; shared by several
parts: `Texts`, `TextLaws`, `Alphabets`, `Decimals`). The ustar writer against a
reader written from the pax interchange standard (IEEE Std 1003.1, "ustar
Interchange Format"), redaction of cyclic object graphs, accounting of overlapping waits, and
the sequenced status publisher under its gating wrapper.

## What the proofs show beyond the promises

Some properties one would expect do not hold as they stand. Each has the exact
condition under which it does, or a family of inputs on which it fails.

- Restricting a description twice is restricting it once exactly when the result
  is within the size limit and the last line kept of the video section ends in a
  visible character (`CodecPolicyTwice.RestrictTwice`;
  `CodecPolicyExample.RestrictedTwiceDiffers` gives a description on which it is
  not).
- A subscription attempt or an exchange does not fix the codec of a viewer that had
  failed before: a later report of codecs can still change it, exactly if it could
  before (`CodecFreeze.AttemptFixesCodec`, `CodecFreeze.ExchangeFixesCodec`;
  `CodecFreeze.FailedViewerChangesCodec` gives a run for both).
- Preparing a recovery again does not raise the cutoff: the promise that every
  ticket issued up to the preparation stays out is about the preparation that
  fixed the margin (`RuntimeGateMargins.PrepareFencesUpToNow`;
  `RuntimeGateMargins.SecondPreparationIsLower` gives the runs).
- A completion that lands without being synced is reported as a failure and has
  released ownership all the same, so that two sessions are admitted without any
  reported release (`RuntimeGateReleases.UnreportedReleaseAdmitsTwo`). A step makes the
  file stop naming the sessions admitted since the last durable release exactly when
  there are any and it is a release that lands unsynced, or a power failure that changes
  the name (`RuntimeGateReleases.NamedExactlyWhen`; over runs,
  `RuntimeGateReleases.NamedThroughoutExactlyWhen`); while it names them there is one
  owner (`RuntimeGateReleases.OneOwnerBetweenDurable`).
- A power failure that undoes an unsynced admission record lets two sessions in,
  because a restarted process admits on evidence that was never synced
  (`RuntimeGateOwnership.PowerLossAdmitsTwo`); a power failure breaks ownership
  exactly then (`RuntimeGateOwnership.BrokenExactlyWhen`).
- A Ready that retries a failed stamp puts its marker in place of another recycle's
  (`RecycleLosses.NewRecycleIsLost`); it can exactly when a marker of another recycle
  is pending without its time and the gate is open
  (`RecycleLosses.ReadyKeepsExactlyWhen`).
- Memory and file of the codec evidence journal differ exactly in a process that could
  not read a file with unacknowledged events at its start
  (`CodecEvidenceRuns.MemoryIsDiskExactlyWhen`, `CodecEvidenceRuns.MemoryWithoutDisk`).
- Redaction drops an own key `__proto__`, and fails exactly when such keys form a
  cycle (`LogRedactions.KeysAreKept`, `LogRedactions.RedactSensitiveLogValue`;
  `LogRedactionExamples.SomeKeyIsDropped` and `LogRedactionExamples.OwnPrototypeFails` give inputs).
- An archive is recovered exactly when no path holds a zero character and every
  size and time is below 8^11 (`UstarReadBack.ReadsBack`;
  `UstarReadBack.SomeAreNotRecovered` gives archives that are not).
- Making archive paths unique can make them too long: two logs with one name of 96
  characters and a four-character extension make a bundle that is refused by the
  archive writer (`BundleFiles.LongNamesAreRefused`, `BundleFiles.BundleIsAccepted`).
- An acknowledgement whose ticket cutoff could not be persisted is an attempt
  that does not advance the round robin (`GraceEvidenceRuns.AnswerIsTurn`).

## Model

| member | source | states |
|---|---|---|
| RuntimeSnapshot.RoundTrip | SignallingWebServer/src/connect-ticket-runtime-state.ts:149-260 | a snapshot written out is accepted by the strict reader and read back unchanged exactly when it is canonical |
| RuntimeSnapshot.ReaderIsStrict | SignallingWebServer/src/connect-ticket-runtime-state.ts:182-260 | whatever document the reader accepts, the snapshot it returns is canonical |
| RuntimeSnapshotReader.ReadExactlyWhen | SignallingWebServer/src/connect-ticket-runtime-state.ts:182-260 | a document is read as a snapshot exactly when that is canonical and the document says it, field by field, so that nothing present is passed over |
| RuntimeSnapshot.NormalizeBeforeWrite | SignallingWebServer/src/connect-ticket-runtime-state.ts:149-180 | normalising a snapshot held in memory changes nothing but the fence, which it cuts to its last 128 distinct tokens, and the result is canonical |
| TextLaws.TrimIs | SignallingWebServer/src/connect-ticket-runtime-state.ts:94-101 | trimming takes the white space off both ends and nothing else |
| TextLaws.LowerIs | SignallingWebServer/src/connect-ticket-runtime-state.ts:103-110 | two texts are the same in lower case exactly when they are the same but for letter case |
| TextLaws.SameGuid | SignallingWebServer/src/connect-ticket-runtime-state.ts:103-110 | two identifiers have one normal form exactly when they are the same but for letter case and outer white space |
| TextLaws.SameToken | SignallingWebServer/src/instance-agent-recycle-state.ts:38-46 | two tokens of 32 hexadecimal digits are the same exactly when their digits are, dashes and letter case aside |
| TextLaws.OtherToken | SignallingWebServer/src/instance-agent-recycle-state.ts:38-46 | any other text but white space is a token as it is, trimmed |
| TextLaws.RemoveDashesIs | SignallingWebServer/src/instance-agent-recycle-state.ts:38-46 | a token without its dashes keeps its other characters, in order |
| Alphabets.GuidExactlyWhen | SignallingWebServer/src/connect-ticket-runtime-state.ts:103-110 | an identifier is five groups of 8, 4, 4, 4 and 12 hexadecimal digits with dashes between, outer white space aside |
| Alphabets.HexIsListed | SignallingWebServer/src/connect-ticket-runtime-state.ts:103-110 | hexadecimal digits have letters of either case |
| Alphabets.SpaceIsListed | SignallingWebServer/src/connect-ticket-runtime-state.ts:94-101 | white space and line ends, character by character |
| Alphabets.CaseIsByPosition | SignallingWebServer/src/connect-ticket-runtime-state.ts:103-110 | changing case takes the i-th letter of one alphabet to the i-th of the other and leaves every other character |
| RuntimeGateFence.FenceOverRuns | SignallingWebServer/src/connect-ticket-runtime-state.ts:857-886 | after any run of calls, failing writes, crashes, restarts and power failures, the fence is the last 128 of the tokens whose completion reached the file, each counted when it was not fenced already, without duplicates |
| RuntimeGateFence.TokenSurvivesRun | SignallingWebServer/src/connect-ticket-runtime-state.ts:857-886 | over any run, a newly completed token is fenced until exactly the 128th token that reaches the file after it; a power failure takes it back only if its completion was not synced |
| RuntimeGateFence.ReportedIsDurable | SignallingWebServer/src/connect-ticket-runtime-state.ts:849-899 | a completion under the latch that returns true has put its token into the file, and synced it |
| RuntimeGateFence.CompletionEffect | SignallingWebServer/src/connect-ticket-runtime-state.ts:849-899 | a completion that reaches the file lifts the latch and appends its token to the fence; one that does not changes nothing |
| RuntimeGateRuns.WriteEffect | SignallingWebServer/src/connect-ticket-runtime-state.ts:367-406 | a write leaves the file alone or puts in it a snapshot that reads back; success means it is synced, failure leaves open which of the two happened |
| RuntimeGateRuns.MarkTeardownEffect | SignallingWebServer/src/connect-ticket-runtime-state.ts:484-528 | a teardown on a readable file writes the torn-down snapshot, and one that succeeds has synced it; otherwise nothing changes and it does not report success |
| RuntimeGateRuns.RecordEffect | SignallingWebServer/src/connect-ticket-runtime-state.ts:653-713 | an admission rests either on evidence of the same session already in the file or on evidence written and synced now |
| RuntimeGateRuns.ReconcileEffect | SignallingWebServer/src/connect-ticket-runtime-state.ts:714-755 | a host-boot reconciliation writes only the release of the old owner, never while a recovery is required |
| RuntimeGateRuns.PrepareEffect | SignallingWebServer/src/connect-ticket-runtime-state.ts:808-848 | a preparation writes exactly when a recovery is required and has no margin yet, and answers with the margin it wrote |
| RuntimeGateRuns.CompleteRecoveryEffect | SignallingWebServer/src/connect-ticket-runtime-state.ts:849-900 | a completion writes only after the margin has passed; without a write it succeeds only if the recovery is over and the token is fenced already |
| RuntimeGateSafety.DurableCutoffNeverDecreases | SignallingWebServer/src/connect-ticket-runtime-state.ts:484-528 | over every run of calls, failing writes, crashes, restarts and power failures the cutoff certain to survive never decreases |
| RuntimeGateSafety.TornDownTicketsNeverPass | SignallingWebServer/src/connect-ticket-runtime-state.ts:617-651 | after any run, a ticket the gate does not refuse was issued after the second for which any teardown that ever returned true was asked, and after the cutoff it left |
| RuntimeGateSafety.TeardownIsRemembered | SignallingWebServer/src/connect-ticket-runtime-state.ts:484-528 | a teardown that returns true enters that history with the second it was asked for, and with the cutoff it found |
| RuntimeGateSafety.TeardownFences | SignallingWebServer/src/connect-ticket-runtime-state.ts:484-528 | a teardown that returns true leaves, synced, the latch without a margin and as cutoff the later of the old one and the requested second, which is now when none is given or it cannot be read |
| RuntimeGateVerdicts.TeardownSucceedsExactlyWhen | SignallingWebServer/src/connect-ticket-runtime-state.ts:484-528 | a teardown succeeds exactly when the file can be read and its write lands synced, for instants a date can hold; a failure blocks the process |
| RuntimeGateVerdicts.TeardownNotes | SignallingWebServer/src/connect-ticket-runtime-state.ts:506-517 | the reason and command of the teardown replace the old ones where they are given and not blank; owner and first admission stay |
| RuntimeGateSafety.PassedTicketIsNewer | SignallingWebServer/src/connect-ticket-runtime-state.ts:585-651 | a ticket passes only on a readable file without a required recovery, with an issue time after the cutoff |
| RuntimeGateVerdicts.TicketPassesExactlyWhen | SignallingWebServer/src/connect-ticket-runtime-state.ts:585-651 | a ticket passes exactly when no control file asks for a teardown, no failure blocks the process, the file can be read, no recovery is required, the ticket is for the owner, and it was issued after the cutoff; it makes its session the owner |
| RuntimeGateVerdicts.ControlRefusesExactlyWhen | SignallingWebServer/src/connect-ticket-runtime-state.ts:586-614 | the control files refuse exactly while they ask for a shutdown, or for a recycle whose token is not in the readable fence |
| RuntimeGateVerdicts.AdmissionExactlyWhen | SignallingWebServer/src/connect-ticket-runtime-state.ts:653-713 | an admission is granted exactly when its ids are well formed, the file names no other session, and it names these already or can be made to, synced |
| RuntimeGateNotes.AdmissionReason | SignallingWebServer/src/connect-ticket-runtime-state.ts:653-713 | the answer to an admission, reason by reason in their order, and which of them block the process |
| RuntimeGateNotes.JournalBlocks | SignallingWebServer/src/connect-ticket-runtime-state.ts:909-914 | a journal block that is not blank refuses every managed session, and a blank one lifts it |
| RuntimeGateVerdicts.AdmissionNotes | SignallingWebServer/src/connect-ticket-runtime-state.ts:695-712 | an admission that is written leaves its session, the first active session named and the instant of the first admission, and changes no cutoff, latch or fence |
| RuntimeGateVerdicts.AdmitsExactlyWhen | SignallingWebServer/src/ConnectTicketAuth.ts:278-302 | the two gate calls admit a ticket exactly when its claims are GUIDs where given, the journal blocks no managed session, the ticket passes and the admission is granted |
| RuntimeGateReasons.ControlReason | SignallingWebServer/src/connect-ticket-runtime-state.ts:586-613 | the two refusals of the control files, each exactly when: the command comes first, and the fence is the reason only for a token that cannot be looked up |
| RuntimeGateReasons.TicketReason | SignallingWebServer/src/connect-ticket-runtime-state.ts:615-651 | the refusals after that, each exactly when, in their order |
| RuntimeGateReasons.OpenedProcess | SignallingWebServer/src/connect-ticket-runtime-state.ts:418-450 | what a process knows when it has opened, and the whole first baseline |
| RuntimeGateVerdicts.OpensExactlyWhen | SignallingWebServer/src/connect-ticket-runtime-state.ts:418-444 | a missing file is created with cutoff 0 exactly when that is synced; one that is there must be readable |
| RuntimeGateVerdicts.CommandRecoversExactlyWhen | SignallingWebServer/src/connect-ticket-runtime-state.ts:530-554 | the recovery of a command at a start throws exactly when it cannot tell whether its recycle is over, or cannot fence its teardown |
| RuntimeGateVerdicts.DesiredRecoversExactlyWhen | SignallingWebServer/src/connect-ticket-runtime-state.ts:556-582 | the same for the desired state |
| RuntimeGateVerdicts.CommandIsFenced | SignallingWebServer/src/connect-ticket-runtime-state.ts:530-554 | a teardown command that has not expired and is not known to be over is fenced again, at the time it was requested; any other leaves the file |
| RuntimeGateVerdicts.DesiredIsFenced | SignallingWebServer/src/connect-ticket-runtime-state.ts:556-582 | a recycle or shutdown the desired state asks for is fenced again, at the time of its update |
| RuntimeGateVerdicts.StartFences | SignallingWebServer/src/connect-ticket-runtime-state.ts:408-583 | a start on a readable file fences what the control files ask for, and changes nothing when they ask for nothing; the process takes its owner from the file |
| RuntimeGateVerdicts.RequiredExactlyWhen | SignallingWebServer/src/connect-ticket-runtime-state.ts:794-806 | a recovery is required unless the gate can read a file that says otherwise and no failure blocks it |
| RuntimeGateVerdicts.PrepareExactly | SignallingWebServer/src/connect-ticket-runtime-state.ts:808-848 | preparing answers with the margin on file, or moves the cutoff to a skew from now and the margin one skew further, once that is synced |
| RuntimeGateVerdicts.CompletesExactlyWhen | SignallingWebServer/src/connect-ticket-runtime-state.ts:849-900 | a recovery is completed exactly past its margin with a complete write, or when it is over and the token fenced; it then is not required, nobody owns the runtime, and the token is fenced |
| RuntimeGateNotes.PreparationIsStamped | SignallingWebServer/src/connect-ticket-runtime-state.ts:808-848 | the whole file after a preparation that writes, and the reason with which a failed one blocks the process |
| RuntimeGateNotes.CompletionBlocks | SignallingWebServer/src/connect-ticket-runtime-state.ts:849-907 | the process after a completion: which failures block it, and that a running margin changes nothing |
| RuntimeGateNotes.CompletionIsStamped | SignallingWebServer/src/connect-ticket-runtime-state.ts:871-893 | a completion that changes the file stamps the time on it and keeps the reason of the cutoff |
| RuntimeGateOwnership.OneOwner | SignallingWebServer/src/connect-ticket-runtime-state.ts:624-755 | between two releases that reached the file, reported or not, all managed tickets admitted by the two gate calls name one session, across crashes, restarts, all write outcomes, and power failures that do not undo the evidence of an admission |
| RuntimeGateOwnership.BrokenExactlyWhen | SignallingWebServer/src/connect-ticket-runtime-state.ts:624-755 | of all steps only a power failure breaks ownership, and it does exactly when it undoes the evidence of an admission |
| RuntimeGateReleases.NamedExactlyWhen | SignallingWebServer/src/connect-ticket-runtime-state.ts:714-899 | while the file names every session admitted since the last durable release, a step keeps it so exactly when there is no such session, or the step is neither a release that lands without being synced nor a power failure that changes the session on file |
| RuntimeGateReleases.NamedThroughoutExactlyWhen | SignallingWebServer/src/connect-ticket-runtime-state.ts:624-899 | throughout a run the file names every session admitted since the last durable release exactly when no step of it meets such a session with one of the two |
| RuntimeGateReleases.OneOwnerBetweenDurable | SignallingWebServer/src/connect-ticket-runtime-state.ts:624-755 | in such a run, all tickets admitted between two durable releases name one session, whatever other releases, losses, crashes and power failures it holds |
| RuntimeGateReleases.ReleaseEffect | SignallingWebServer/src/connect-ticket-runtime-state.ts:714-899 | the guard of a completion or reconciliation and the outcome of its write decide the file and the reply: it changes exactly when a release lands, which leaves nobody in it, and exactly those that are synced are reported |
| RuntimeGateReleases.ReconciliationFences | SignallingWebServer/src/connect-ticket-runtime-state.ts:732-750 | a release after a boot keeps every ticket issued up to a skew from now out, and leaves latch and fence |
| RuntimeGateNotes.ReleaseIsStamped | SignallingWebServer/src/connect-ticket-runtime-state.ts:732-757 | the whole file after a release: no session, the fence, its reason and its time |
| RuntimeGateReleases.ReconciliationReply | SignallingWebServer/src/connect-ticket-runtime-state.ts:714-755 | the caller may go on exactly when nobody is to be released or the release is durable, and only then the process forgets its owner |
| RuntimeGateReleases.UnreportedReleaseAdmitsTwo | SignallingWebServer/src/connect-ticket-runtime-state.ts:876-899 | for any two sessions there is a run without power failures in which both are admitted though no release was synced, and none was reported to its caller |
| RuntimeGateOwnership.RecordKeepsEvidence | SignallingWebServer/src/connect-ticket-runtime-state.ts:653-713 | recording never changes the session already in the file, and an admission leaves its own session there |
| RuntimeGateOwnership.PowerLossAdmitsTwo | SignallingWebServer/src/connect-ticket-runtime-state.ts:367-406 | for any two sessions there is a run without a release, but with a power failure, in which both are admitted |
| RuntimeGateMargins.RunKeepsMargin | SignallingWebServer/src/connect-ticket-runtime-state.ts:503-517 | with a fixed skew, over every run, a margin in the file is the cutoff plus the skew, also when a new teardown interrupts a recovery |
| RuntimeGateMargins.PrepareFencesUpToNow | SignallingWebServer/src/connect-ticket-runtime-state.ts:816-847 | a successful preparation covers every ticket issued up to now exactly when it fixed the margin itself or the cutoff was already that high |
| RuntimeGateMargins.SecondPreparationIsLower | SignallingWebServer/src/connect-ticket-runtime-state.ts:808-822 | a run after which every later preparation answers with the old margin and leaves the cutoff below the tickets issued up to it |
| RuntimeGateMargins.IssuedUpToPrepareNeverPasses | SignallingWebServer/src/connect-ticket-runtime-state.ts:816-847 | every ticket issued up to the preparation that fixed the margin is refused for ever, whatever happens afterwards |
| RuntimeGateMargins.IssuedAfterRecoveryPasses | SignallingWebServer/src/connect-ticket-runtime-state.ts:871-899 | every ticket issued after a completed recovery passes the cutoff test until the cutoff next moves |
| ConnectTicketRuntimeGates.StateFile.Write | SignallingWebServer/src/connect-ticket-runtime-state.ts:367-406 | rename then directory sync, with the three outcomes |
| ConnectTicketRuntimeGates.StateFile.Inspect | SignallingWebServer/src/connect-ticket-runtime-state.ts:286-316 | an unreadable or unacceptable file is not taken for a missing one |
| ConnectTicketRuntimeGates.ConnectTicketRuntimeGate.Create | SignallingWebServer/src/connect-ticket-runtime-state.ts:408-583 | creation reads or initialises the file, then fences again the teardowns that the command journal and the desired state still ask for, or throws |
| ConnectTicketRuntimeGates.ConnectTicketRuntimeGate.MarkTeardownStarted | SignallingWebServer/src/connect-ticket-runtime-state.ts:484-528 | the object takes the step MarkTeardown of the model, file and variables |
| ConnectTicketRuntimeGates.ConnectTicketRuntimeGate.RejectReasonForTicket | SignallingWebServer/src/connect-ticket-runtime-state.ts:585-651 | the object takes the step Reject |
| ConnectTicketRuntimeGates.ConnectTicketRuntimeGate.RecordManagedViewerAdmission | SignallingWebServer/src/connect-ticket-runtime-state.ts:653-713 | the object takes the step Record |
| ConnectTicketRuntimeGates.ConnectTicketRuntimeGate.AdmitTicket | SignallingWebServer/src/ConnectTicketAuth.ts:278-302 | the two gate calls of validateToken in a row, as the step Admit |
| ConnectTicketRuntimeGates.ConnectTicketRuntimeGate.ReconcileAssignmentAfterHostBoot | SignallingWebServer/src/connect-ticket-runtime-state.ts:714-755 | the object takes the step Reconcile |
| ConnectTicketRuntimeGates.ConnectTicketRuntimeGate.PrepareCommercialRecoveryAfterReset | SignallingWebServer/src/connect-ticket-runtime-state.ts:808-848 | the object takes the step Prepare |
| ConnectTicketRuntimeGates.ConnectTicketRuntimeGate.CompleteCommercialRecoveryAfterReset | SignallingWebServer/src/connect-ticket-runtime-state.ts:849-900 | the object takes the step CompleteRecovery |
| EventQueueRuns.QueueIsBoundedAndOrdered | SignallingWebServer/src/instance-agent.ts:1016-1032 | over every run the queue holds at most 100 events, each once, in the order of enqueueing |
| EventQueueRuns.AcknowledgedIsNeverSentAgain | SignallingWebServer/src/instance-agent.ts:2382-2417 | an event whose acceptance was processed is in no later batch |
| EventQueueRuns.QueueChangesOnlyFor | SignallingWebServer/src/instance-agent.ts:2382-2417 | an event leaves exactly for being in the accepted prefix, superseded by a summary of its connection, or the oldest of a full queue; only the new event enters |
| EventQueueBatches.BatchIs | SignallingWebServer/src/instance-agent.ts:2382-2398 | a batch carries recovery evidence first and behind it as many of the oldest events as fit into a hundred; nothing is sent exactly when there is nothing |
| EventQueueBatches.OneBatchAtATime | SignallingWebServer/src/instance-agent.ts:2382-2398 | while a batch is under way nothing else is sent |
| EventQueueBatches.ReplyTakes | SignallingWebServer/src/instance-agent.ts:2403-2417 | a reply takes out exactly the events that stand before the accepted count, the recovery evidence in front of them counted; a negative count takes none |
| EventQueueBatches.EnqueueIs | SignallingWebServer/src/instance-agent.ts:1016-1032 | a new event stands last, and only a full queue loses its oldest for it |
| EventQueueBatches.SummaryIs | SignallingWebServer/src/instance-agent.ts:2723-2743 | a summary stands last in place of the earlier ones of its connection, unless it would be the hundredth |
| EventQueues.EventQueue.QueueEvent | SignallingWebServer/src/instance-agent.ts:1016-1032 | the object takes the step Enqueue |
| EventQueues.EventQueue.QueueSummary | SignallingWebServer/src/instance-agent.ts:2723-2743 | the object takes the step EnqueueSummary |
| EventQueues.EventQueue.StartFlush | SignallingWebServer/src/instance-agent.ts:2382-2398 | the batch is the recovery evidence followed by queued events, at most 100, and the queue is unchanged |
| EventQueues.EventQueue.FinishFlush | SignallingWebServer/src/instance-agent.ts:2403-2417 | acknowledged events leave by identity, wherever overflow has moved them meanwhile |
| RecycleSafety.CompletionsAreProven | SignallingWebServer/src/instance-agent.ts:2867-3038 | over every run, a completion of a recycle in the queue or in flight was reported from a replacement_started marker of that recycle and time, by another process than the marker names, with its token durably fenced |
| RecycleSafety.OneCompletionTime | SignallingWebServer/src/instance-agent.ts:2976-3015 | completions of one recycle, queued or in flight at any two moments of a run, in any processes, carry one time |
| RecycleTimes.ReportedTimeWasOnFile | SignallingWebServer/src/instance-agent.ts:2976-3015 | the time of every queued or submitted completion was on the marker file, for that recycle, at an earlier moment of the run |
| RecycleLosses.LostExactlyWhen | SignallingWebServer/src/instance-agent.ts:2418-3131 | a step takes the marker of a recycle out of the file, by deletion or by another marker in its place, exactly under one of six guards: a script starts another recycle or withdraws the marker of a failed launch, the reset is cancelled, a reply accepts its report, its accepted report is cleared at last, or a Ready stamps the pending marker of another recycle |
| RecycleLosses.LostOnlyFor | SignallingWebServer/src/instance-agent.ts:2418-3131 | over every run: lost to a script only for a new recycle or the failed launch of that very recycle, to a status only by the cancellation of that very reset or the stamp of another pending recycle, and otherwise only after the control plane accepted a report of that very recycle |
| RecycleLosses.ReadyKeepsExactlyWhen | SignallingWebServer/src/instance-agent.ts:2976-2994 | over every run, no Ready can take the marker on file from its recycle exactly when nothing is pending, or the pending marker is of that recycle or has its time already, or the gate is blocked |
| RecycleLosses.NewRecycleIsLost | SignallingWebServer/src/instance-agent.ts:2976-2994 | a run in which a recycle that was just begun loses its marker though nothing was accepted or cancelled |
| RecycleReports.ReportNamesRecycle | SignallingWebServer/src/instance-agent.ts:2976-3038 | a Ready that reports a pending recycle leaves as the last two events the completion of that very recycle, with the time its marker now carries on file if it had none, and the status |
| RecycleReports.ReportsExactlyWhen | SignallingWebServer/src/instance-agent.ts:2940-3015 | while nothing is in the way of the gate, Ready reports the pending recycle exactly when its marker has its time or can be stamped |
| RecycleReports.ReportsAfterRecovery | SignallingWebServer/src/instance-agent.ts:2867-2935 | while the recovery is required, only a process proven by the marker on file reports, past the margin, with the token of the marker fenced |
| RecycleSteps.FirstReadyExactly | SignallingWebServer/src/instance-agent.ts:2868-2925 | the first Ready of a replacement: under an open gate nothing, otherwise proof, margin, wait and completion with the token of the marker, and what each failure leaves |
| RecycleSteps.PassesExactlyWhen | SignallingWebServer/src/instance-agent.ts:2927-2961 | which statuses get past the gate, and what asking it does to the process |
| RecycleSteps.ReportStamps | SignallingWebServer/src/instance-agent.ts:2979-3014 | a report stamps the marker on file unless it has a time; a failed stamp leaves the agent as it was |
| RecycleSteps.CancelRemoves | SignallingWebServer/src/instance-agent.ts:3108-3145 | a cancelled reset removes the marker of its own recycle and no other |
| RecycleSteps.OthersAskOnce | SignallingWebServer/src/instance-agent.ts:2866-2866 | a status other than Ready leaves the state file alone and asks the gate only for the recovery context |
| RecycleReports.ReportWithoutMarker | SignallingWebServer/src/instance-agent.ts:2976-3038 | a reset without a marker is completed exactly by a changed Ready under an open gate, and names no recycle |
| RecycleReports.StatusIsAnnounced | SignallingWebServer/src/instance-agent.ts:2955-3210 | the events of every other change of status, by name: a reset started, cancelled, or a status |
| RecycleReports.RepeatIsSilent | SignallingWebServer/src/instance-agent.ts:2943-2950 | a repeated status, or a heartbeat, queues nothing |
| RecycleReports.EnsuredIsQueued | SignallingWebServer/src/instance-agent.ts:1034-1068 | over every run, while a marker awaits its acknowledgement, reporting again leaves an event in the queue that names its recycle and its time |
| RecycleReplies.ReplyExactly | SignallingWebServer/src/instance-agent.ts:2403-2455 | a reply that accepts the awaited report ends the wait and clears the marker now or later, unless the desired state still asks for that recycle: then it is awaited on, with a report in the queue |
| RecycleReplies.ClearAgainExactly | SignallingWebServer/src/instance-agent.ts:1069-1085 | a marker still to be cleared is given up exactly when its file can be read and is gone or removed |
| RecycleReplies.LaunchExactlyWhen | SignallingWebServer/src/instance-agent.ts:862-890 | the agent starts only on a readable marker file without an old proof lacking a token, awaits a marker that proves its process, and is blocked at the gate by any marker |
| RecycleReplies.LaunchFences | SignallingWebServer/src/instance-agent.ts:877-890 | a start on a marker fences the time of that marker, synced, unless a recovery is required already |
| RecycleReplies.WriteExactlyWhen | SignallingWebServer/src/instance-agent-recycle-state.ts:215-265 | a marker is written exactly when it is well formed and the write complete; one reported as failed may have landed |
| RecycleReplies.WellFormedExactlyWhen | SignallingWebServer/src/instance-agent-recycle-state.ts:78-122 | an intent has no times of a replacement; a replacement has times in order |
| RecycleReplies.ClearExactlyWhen | SignallingWebServer/src/instance-agent-recycle-state.ts:267-301 | the marker of a recycle is cleared exactly when the file can be read and names it, or is gone, and the removal is complete |
| RecycleGateFacts.CompleteResult | SignallingWebServer/src/connect-ticket-runtime-state.ts:849-900 | under the latch, a successful completion leaves the token in the fence of the file and of what survives a power failure, and any other result leaves the runtime blocked |
| RecycleGateFacts.PrepareKeeps | SignallingWebServer/src/connect-ticket-runtime-state.ts:808-848 | a margin is given out only under the latch, and no completed token is forgotten |
| InstanceAgentRecycles.MarkerFile.Clear | SignallingWebServer/src/instance-agent-recycle-state.ts:267-301 | a marker is removed only when it names the expected recycle |
| InstanceAgentRecycles.MarkerFile.Write | SignallingWebServer/src/instance-agent-recycle-state.ts:215-265 | a malformed marker is refused, a good one may land without the write succeeding |
| InstanceAgentRecycles.InstanceAgentRecycle.CompleteRecoveryFirst | SignallingWebServer/src/instance-agent.ts:2867-2930 | proof by the marker on disk, margin, wait and completion, as the step CompleteFirst |
| InstanceAgentRecycles.InstanceAgentRecycle.RecordRuntimeStatus | SignallingWebServer/src/instance-agent.ts:2855-3131 | the object takes the step RecordStatus: file, gate, marker, queue and variables |
| InstanceAgentRecycles.InstanceAgentRecycle.EnsureCompletedRecycleMarkerEventQueued | SignallingWebServer/src/instance-agent.ts:1034-1068 | the object takes the step EnsureReported |
| InstanceAgentRecycles.InstanceAgentRecycle.TryClearAcknowledgedRecycleMarker | SignallingWebServer/src/instance-agent.ts:1069-1085 | the object takes the step TryClear |
| InstanceAgentRecycles.InstanceAgentRecycle.AcceptReply | SignallingWebServer/src/instance-agent.ts:2403-2455 | the object takes the step Replied |
| GraceEvidenceRuns.EvidenceIsKept | SignallingWebServer/src/instance-agent.ts:1519-1660 | over every run ids are unique, memory equals the file unless the journal is marked blocked, and a record promised to be kept is in the file and would survive a power failure until it is settled |
| GraceEvidenceRuns.LeavesOnlyWhenSettled | SignallingWebServer/src/instance-agent.ts:1562-1660 | a record leaves the file only by acknowledgement of exactly the submitted id after a persisted cutoff, or by a power failure |
| GraceEvidenceRuns.AnswerIsTurn | SignallingWebServer/src/instance-agent.ts:1562-1660 | an answer removes the first record or moves it to the end, when the file can be read and written and an acknowledgement has its cutoff; otherwise the file is unchanged |
| GraceEvidenceRuns.SubmittedInTurn | SignallingWebServer/src/instance-agent.ts:2265-2346 | over every run, the record at position i of the file is the one an unblocked agent submits after i completed attempts, whatever arrives, crashes, restarts and answers that cannot be acted on come between |
| GraceEvidenceRuns.SteadyStep | SignallingWebServer/src/instance-agent.ts:1562-1660 | an answer that can be acted on is a turn of the file; every other step short of a power failure leaves the file as it is, or appends to it |
| GraceEvidenceRuns.TurnsRotate | SignallingWebServer/src/instance-agent-reconnect-grace-evidence-state.ts:348-372 | over every run, k completed attempts without arrivals or acknowledgements move the first k records of the file to its end, whatever other answers come between; as many attempts as records restore it |
| GraceEvidenceAnswers.ArrivalExactlyWhen | SignallingWebServer/src/instance-agent.ts:3244-3271 | a record is kept exactly when it is in order, the journal can be read, no other record holds its id, and the write, or for a known record the sync, is complete; it then stands behind the others, synced |
| GraceEvidenceAnswers.AnswerIsCopied | SignallingWebServer/src/instance-agent.ts:1562-1660 | an answer that is acted on leaves agent and file in step, without the record or with it last |
| GraceEvidenceAnswers.AnswerOtherwise | SignallingWebServer/src/instance-agent.ts:1562-1660 | without a submission, or a cutoff, or a readable file, file and record stay |
| GraceEvidenceAnswers.StartIs | SignallingWebServer/src/instance-agent.ts:946-969 | a start takes over a journal in order, and is blocked by one that is not, cannot be read, or is missing though expected |
| GraceEvidenceAnswers.RefreshIs | SignallingWebServer/src/instance-agent.ts:1519-1560 | reading again lifts a block exactly by a journal in order; a missing one blocks an agent that holds records |
| GraceEvidence.EvidenceFile.Append | SignallingWebServer/src/instance-agent-reconnect-grace-evidence-state.ts:276-308 | the object takes the step Appended: a known id is answered without a write, another record under the id is refused |
| GraceEvidenceAnswers.RemovalExactly | SignallingWebServer/src/instance-agent-reconnect-grace-evidence-state.ts:310-346 | a removal leaves the other records in order, and no file when none is left; an id that is not there changes nothing |
| GraceEvidence.EvidenceFile.Remove | SignallingWebServer/src/instance-agent-reconnect-grace-evidence-state.ts:310-346 | the object takes the step Removed: an empty journal is unlinked |
| GraceEvidence.EvidenceFile.Rotate | SignallingWebServer/src/instance-agent-reconnect-grace-evidence-state.ts:348-372 | the object takes the step Rotated |
| GraceEvidence.ReconnectGraceEvidence.Record | SignallingWebServer/src/instance-agent.ts:3244-3271 | the object takes the step Recorded |
| GraceEvidence.ReconnectGraceEvidence.HandleResponse | SignallingWebServer/src/instance-agent.ts:1562-1660 | the object takes the step Answered |
| CodecEvidenceRuns.EvidenceIsComplete | SignallingWebServer/src/codec-evidence-journal.ts:8-76 | over every run the evidence ever persisted for a connection is numbered 1, 2, 3 and so on without gap or repeat, and the file holds exactly what was recorded and not acknowledged, within its capacity |
| CodecEvidenceRuns.MemoryIsDiskExactlyWhen | SignallingWebServer/src/codec-evidence-journal.ts:8-76 | over every run, the memory of a running process is what the file holds exactly if it could read the file when it started, or nothing is unacknowledged |
| CodecEvidenceRuns.MemoryWithoutDisk | SignallingWebServer/src/codec-evidence-journal.ts:14-38 | a run in which the file holds an event and memory does not |
| CodecEvidenceRuns.ReadyHasRoom | SignallingWebServer/src/codec-evidence-journal.ts:40-52 | a journal that says it is ready takes twenty more events |
| CodecEvidenceRuns.RecordKeeps | Signalling/src/PlayerConnection.ts:148-166 | recording keeps the invariant: a number is used up only when its event was persisted |
| CodecEvidenceAnswers.OpensExactlyWhen | SignallingWebServer/src/codec-evidence-journal.ts:14-38 | a journal opens in order exactly on a file it can read, accept and replace, and holds its events |
| CodecEvidenceAnswers.AppendsExactlyWhen | SignallingWebServer/src/codec-evidence-journal.ts:46-52 | an event is recorded exactly in order, below capacity, with a file that can be replaced; a failed write ends the order |
| CodecEvidenceAnswers.AcknowledgesExactlyWhen | SignallingWebServer/src/codec-evidence-journal.ts:53-59 | an acknowledgement takes the named events out of memory and file together, or fails and takes none |
| CodecEvidenceAnswers.BatchIsOldest | SignallingWebServer/src/codec-evidence-journal.ts:40-45 | a batch holds the oldest events, fifty at most |
| CodecEvidenceAnswers.ReadyExactlyWhen | SignallingWebServer/src/codec-evidence-journal.ts:40-45 | ready means in order and more than twenty events short of the capacity |
| CodecEvidenceJournals.CodecEvidenceJournal.Append | SignallingWebServer/src/codec-evidence-journal.ts:46-52 | the object takes the step Appended; false stands for an exception |
| CodecEvidenceJournals.CodecEvidenceJournal.Acknowledge | SignallingWebServer/src/codec-evidence-journal.ts:53-59 | the object takes the step Acknowledged |
| ConnectionLaws.DisconnectCascade | Signalling/src/SFUConnection.ts:274-294 | a disconnect ends exactly the subscriptions fed, through any chain or cycle of SFUs, by the streamer; the viewers among them forget their negotiation, the SFUs stop streaming, and nothing else changes |
| ConnectionLaws.UnsubscribeShrinks | Signalling/src/PlayerConnection.ts:784-814 | unsubscribing removes the subscription at both ends and no other |
| ConnectionCascades.ClosingEnds | Signalling/src/StreamerConnection.ts:174-177 | after a streamer or an SFU closes, an SFU stops or sends a malformed subscription, x is subscribed exactly if it was, is not the SFU that leaves, and was not fed by the one that closed or stopped; a closed one is not listed |
| ConnectionCascades.NobodyOnClosed | Signalling/src/PlayerConnection.ts:822-824 | over every run, nobody is subscribed to a streamer or SFU after its close |
| ConnectionCascades.NextOnlyListed | Signalling/src/PlayerConnection.ts:682-782 | a step subscribes only to what is listed, and lists only what is new |
| Connections.LeaveShrinks | Signalling/src/SFUConnection.ts:215-230 | every hop of a cascade removes an edge, which is why it ends |
| ConnectionRuns.EveryRun | Signalling/src/PlayerConnection.ts:682-814 | after any run both ends of every subscription agree, no positive limit is exceeded by PlayerConnections, a governed codec is one its policy allows, and a governed viewer that selected H264 shares its streamer with no other governed viewer |
| ConnectionRuns.NextKeeps | Signalling/src/SignallingServer.ts:413-526 | every handler of a player, SFU or streamer connection keeps that invariant |
| ConnectionRuns.SubscribeKeeps | Signalling/src/PlayerConnection.ts:682-782 | a subscription attempt, whatever it is refused for, keeps it |
| ConnectionRuns.EnterKeeps | Signalling/src/PlayerConnection.ts:731-782 | joining respects the limit of the new streamer, counted after the old one was left |
| ConnectionAnswers.EnterExactlyWhen | Signalling/src/PlayerConnection.ts:731-782 | entering a streamer leaves the old one and succeeds exactly while there is room among the others on it; a governed viewer that had been on a stream starts a new generation |
| ConnectionAnswers.SubscribeExactlyWhen | Signalling/src/PlayerConnection.ts:682-782 | what decides whether an attempt ends on the stream it names, keeps the old one, loses it, or fails: form, the viewer a shadow watches, SFUs, another viewer with H264, and room |
| ConnectionAnswers.PassesExactlyWhen | Signalling/src/PlayerConnection.ts:182-251 | an offer or answer is passed on exactly when it is direct and can be restricted, a shadow has its source, and an answer answers the last offer of the opposite peer without relabelling, with its evidence recorded |
| ConnectionAnswers.PassedIsRecorded | Signalling/src/PlayerConnection.ts:182-251 | an offer that is passed on is kept restricted, with its maker; an answer that is completes the negotiation |
| ConnectionAnswers.StoppedIsFailed | Signalling/src/PlayerConnection.ts:182-251 | a governed viewer whose offer or answer is not passed on loses its subscription, unless it had failed before, and fails over an offer or a wrong answer |
| ConnectionAnswers.ReportExactly | Signalling/src/PlayerConnection.ts:284-328 | a report is heard only before anything is settled, and selects the first of default codec, VP9 and H264 that both sides can do, or fails the viewer |
| ConnectionOffers.OffersAreLive | Signalling/src/PlayerConnection.ts:797-815 | over every run an offer on record or a finished negotiation belongs to a viewer on a stream, and an offer is on record exactly when the side that made it is |
| ConnectionOffers.NextIsLive | Signalling/src/PlayerConnection.ts:198-226 | every handler keeps that |
| ConnectionAnswers.DeadlineExactly | Signalling/src/PlayerConnection.ts:66-83 | the deadline fails exactly the governed viewers that have not finished |
| ConnectionAnswers.StaleIsDropped | Signalling/src/PlayerConnection.ts:629-650 | a governed message under another generation, or of a viewer off stream that is not its first offer, changes nothing |
| ConnectionAnswers.FreshIsDelivered | Signalling/src/PlayerConnection.ts:629-675 | any other is filtered if it is an offer or answer; a sender without a stream is then put on the first one listed |
| ConnectionAnswers.BootstrapIs | Signalling/src/PlayerConnection.ts:655-675 | that attempt is a subscription to the first streamer listed, and without one the sender is taken off |
| ConnectionAnswers.ForwardedExactlyWhen | Signalling/src/StreamerConnection.ts:140-159 | an offer or answer of a streamer reaches exactly its own subscribers, under their generation |
| ConnectionAnswers.LetInExactlyWhen | Signalling/src/SignallingServer.ts:437-486 | which player is registered, with which identity and starting codec; a shadow needs a source whose codec is allowed and not H264 |
| ConnectionDoors.PlayerClosesExactly | Signalling/src/SignallingServer.ts:478-484 | when a player closes at any point of a run, it is gone, the shadows that had only it to watch lose their streams and negotiations, and nobody else does |
| ConnectionDoors.OrphansExactly | Signalling/src/PlayerConnection.ts:129-146 | closing the orphans one after another takes off exactly the shadows that had nobody to watch before |
| ConnectionDoors.StreamerOpensIs | Signalling/src/SignallingServer.ts:413-434 | a new streamer or SFU is listed last, with its limit and no subscribers, and nothing else changes |
| ConnectionDoors.SfuSubscribesExactly | Signalling/src/SFUConnection.ts:178-209 | an SFU that names a listed streamer moves to it from its old one, any other name changes nothing, and nobody else moves |
| CodecNegotiation.StepEffect | Signalling/src/PlayerConnection.ts:182-251 | over any handler a settled codec stays, and a negotiation completes only on an answer, from the peer opposite to the offer, whose payload map is contained in that of the filtered offer |
| CodecNegotiation.SettledForGood | Signalling/src/PlayerConnection.ts:284-328 | once settled, the codec never changes for the rest of any run, and that of a shadow never changes at all |
| CodecFreeze.ExchangeFixesCodec | Signalling/src/PlayerConnection.ts:182-193 | after an offer or answer a report of codecs can still change the codec exactly if the viewer had failed before and its codec could change then |
| CodecFreeze.OpenExactlyWhen | Signalling/src/PlayerConnection.ts:284-328 | some report of codecs changes the codec exactly when selection is not finalized and the policy allows another codec that is tried |
| CodecFreeze.AttemptFixesCodec | Signalling/src/PlayerConnection.ts:682-684 | the same of a subscription attempt, which itself never changes the codec |
| CodecFreeze.FixedForGood | Signalling/src/PlayerConnection.ts:682-684 | after an attempt by a viewer that had not failed, its codec never changes for the rest of any run |
| CodecFreeze.FixedByExchange | Signalling/src/PlayerConnection.ts:182-193 | after an offer or answer of a viewer that had not failed, its codec never changes for the rest of any run, also of a shadow that has lost its source |
| CodecFreeze.FailedViewerChangesCodec | Signalling/src/PlayerConnection.ts:284-328 | a run after which an attempt or an offer of a failed viewer is ignored and a report of codecs then changes its codec |
| SignallingServers.SignallingServer.EmitDisconnect | Signalling/src/SFUConnection.ts:289-294 | the listeners registered when the event starts are called in order, SFUs among them emitting in turn, as the step Emit |
| SignallingServers.SignallingServer.Unsubscribe | Signalling/src/PlayerConnection.ts:784-814 | the object takes the step Unsubscribe |
| SignallingServers.SignallingServer.Subscribe | Signalling/src/PlayerConnection.ts:682-782 | the object takes the step Subscribe, with its seven outcomes |
| SignallingServers.SignallingServer.FindShadowSource | Signalling/src/PlayerConnection.ts:129-142 | the first registered player that may be watched |
| SignallingServers.SignallingServer.MeetsH264 | Signalling/src/PlayerConnection.ts:702-714 | true exactly when another viewer of the streamer is there and one of the two selected H264 |
| SignallingServers.SignallingServer.Negotiate | Signalling/src/PlayerConnection.ts:194-251 | the object takes the step Negotiate, by restricting the description and checking the answer |
| SignallingServers.SignallingServer.FilterCodecMessage | Signalling/src/PlayerConnection.ts:182-251 | the object takes the step Filter |
| SignallingServers.SignallingServer.OnCodecCapabilities | Signalling/src/PlayerConnection.ts:284-328 | the object takes the step Capabilities: the first permitted codec the browser supports, or failure |
| SignallingServers.SignallingServer.SendToStreamer | Signalling/src/PlayerConnection.ts:629-675 | the object takes the step FromPlayer, with the implicit subscription of a first offer |
| SignallingServers.SignallingServer.ForwardMessage | Signalling/src/StreamerConnection.ts:140-159 | only a subscriber is reached, and only under the name of its current generation |
| SignallingServers.SignallingServer.OnPlayerConnected | Signalling/src/SignallingServer.ts:437-486 | the object takes the step PlayerConnected: a refused connection is not registered |
| SignallingServers.SignallingServer.InitializeCodecPolicy | Signalling/src/PlayerConnection.ts:95-127 | the codec a viewer starts with, or none when it is refused |
| SignallingServers.SignallingServer.OnPlayerClosed | Signalling/src/SignallingServer.ts:478-486 | the object takes the step PlayerClosed, closing the shadows left without a source |
| SignallingServers.SignallingServer.SfuSubscribe | Signalling/src/SFUConnection.ts:178-213 | the object takes the step SfuSubscribe |
| SignallingServers.SignallingServer.OnSfuClosed | Signalling/src/SignallingServer.ts:512-523 | the object takes the step SfuClosed |
| CodecPolicies.RestrictVideoSdp | Signalling/src/CodecPolicy.ts:39-82 | the loops compute Restrict, and the available codecs are those the active section offers |
| CodecPolicies.FilterSection | Signalling/src/CodecPolicy.ts:48-79 | one active section, by the loops over its lines |
| CodecPolicies.CollectKept | Signalling/src/CodecPolicy.ts:64-69 | the kept set by one pass over the lines, in their order |
| CodecPolicyLaws.KeptByChain | Signalling/src/CodecPolicy.ts:64-69 | a payload is kept exactly when a chain of apt declarations on ever later lines leads to it from a payload of the selected codec |
| CodecPolicyLines.FmtpAptReads | Signalling/src/CodecPolicy.ts:64-69 | exactly the lines that spell out a=fmtp:, a payload, and as last word of that kind apt= with a payload are read as declarations of a retransmission |
| Alphabets.WordIsListed | Signalling/src/CodecPolicy.ts:64-69 | the characters of a word: letters of either case, digits and underscores |
| CodecPolicyLines.RtpMapReads | Signalling/src/CodecPolicy.ts:54-63 | exactly the lines that spell out a=rtpmap:, a payload, a name without a slash and the clock rate 90000 are read as mappings, in upper case |
| CodecPolicyLines.CodecIsNamed | Signalling/src/CodecPolicy.ts:1-2 | a line announces a codec exactly under its registered name, letter case aside, and no two codecs share one |
| CodecPolicySections.ActiveExactlyWhen | Signalling/src/CodecPolicy.ts:49-52 | a video section is active unless the second word of its media line is a zero |
| CodecPolicySections.AnnouncedExactlyWhen | Signalling/src/CodecPolicy.ts:54-62 | an active section announces a codec exactly when one of its lines maps an offered payload to that name |
| CodecPolicyLines.TagReads | Signalling/src/CodecPolicy.ts:71-77 | exactly the lines of a mapping, parameter or feedback for a payload that ends as a word speak of that payload |
| CodecPolicyMeaning.KeptByDeclarations | Signalling/src/CodecPolicy.ts:64-69 | a payload is kept exactly when the text of the lines declares it, through retransmissions each on a later line, for a payload of the selected codec |
| CodecPolicyMeaning.MappingsByText | Signalling/src/CodecPolicy.ts:54-63 | a payload is mapped to a codec exactly when it is offered and the text of some line maps it to that name |
| CodecPolicyMeaning.RtxIsKept | Signalling/src/CodecPolicy.ts:39-82 | a section with a retransmission payload: restricted to VP9 it keeps it and drops H264, restricted to H264 the other way round |
| CodecPolicyLaws.KeptLinesAre | Signalling/src/CodecPolicy.ts:71-77 | the lines kept, in their order, are exactly those that speak of no payload or of a kept one |
| CodecPolicyLaws.NewMediaLine | Signalling/src/CodecPolicy.ts:70 | the new media line reads as its three leading tokens followed by the kept payloads in their old order |
| CodecPolicyLaws.MappingsMean | Signalling/src/CodecPolicy.ts:54-63 | the payload map holds exactly what the rtpmap lines of offered payloads say, and fails exactly on a payload mapped twice |
| CodecPolicyLaws.RestrictSucceeds | Signalling/src/CodecPolicy.ts:39-82 | restricting succeeds exactly on a description of acceptable size with one active video section that maps an offered payload to the codec, unambiguously |
| CodecPolicyLaws.RestrictReplaces | Signalling/src/CodecPolicy.ts:45-82 | the active video section is replaced and every other section stays, up to the newline form |
| CodecPolicyTwice.RestrictTwice | Signalling/src/CodecPolicy.ts:39-82 | restricting twice is restricting once exactly when the result is within the size limit and the last kept line ends in a visible character |
| CodecPolicyExample.RestrictedTwiceDiffers | Signalling/src/CodecPolicy.ts:50-78 | a description on which the second pass differs from the first |
| CodecAnswers.ReadPayloadMap | Signalling/src/CodecPolicy.ts:103-115 | the matches from left to right give the payload map |
| CodecAnswers.MappingsFromMean | Signalling/src/CodecPolicy.ts:103-115 | the map holds for each payload the codec of its last mapping in the section |
| CodecAnswerText.MappingReads | Signalling/src/CodecPolicy.ts:106-110 | exactly the text from the start of a line that spells out a=rtpmap:, a payload and a name up to the end of the line is read as a mapping |
| CodecAnswerText.RefusedExactlyWhen | Signalling/src/CodecPolicy.ts:103-115 | an answer is refused exactly without an offer, or when it last maps some payload to a codec to which the offer does not last map it |
| CodecAnswerText.VideoSectionIs | Signalling/src/CodecPolicy.ts:103-106 | the first video section is the one that is read |
| CodecAnswerText.NoVideoSection | Signalling/src/CodecPolicy.ts:103-106 | a description without a video section maps nothing |
| CodecAnswers.ValidateCodecAnswer | Signalling/src/CodecPolicy.ts:103-115 | an answer is accepted exactly when there is an offer whose map contains the answer's |
| LogRedactions.RedactSensitiveLogValue | Signalling/src/LogRedaction.ts:17-59 | on every finite graph it ends, leaves the input as it was, fails exactly on a cycle of own prototype keys, and otherwise returns copies that stand one to one for what is reached without passing a sensitive key, each the redacted image of its original |
| LogRedactions.CopyHoldsNoSecret | Signalling/src/LogRedaction.ts:17-59 | every sensitive field of a copy is the marker, and no copy refers to an input object |
| LogRedactionKeys.SensitiveExactlyWhen | Signalling/src/LogRedaction.ts:5-19 | a key is sensitive exactly when its letters and digits, in order and letter case ignored, spell one of the nine words |
| LogRedactionKeys.SeparatorsAreIgnored | Signalling/src/LogRedaction.ts:17-19 | a character that is neither letter nor digit makes no difference |
| LogRedactionKeys.LetterCaseIsIgnored | Signalling/src/LogRedaction.ts:17-19 | neither does letter case |
| LogRedactionKeys.SecretIsRedacted | Signalling/src/LogRedaction.ts:44-51 | whoever looks in a copy under a key that spells one of the words finds the marker |
| LogRedactionKeys.FieldIsCopied | Signalling/src/LogRedaction.ts:44-51 | under a sensitive key the copy has the marker, under any other but the prototype key the value carried over |
| LogRedactionKeys.ArrayIsCopied | Signalling/src/LogRedaction.ts:32-39 | an array is copied item by item, references to the copies of what they refer to |
| LogRedactionKeys.PrototypeIsCopied | Signalling/src/LogRedaction.ts:44-51 | the prototype of a copy is the built-in one, or what the own prototype key holds |
| LogRedactionKeys.GraphExactlyWhen | Signalling/src/LogRedaction.ts:17-59 | every graph of arrays and objects with distinct keys is covered, cycles and shared parts included |
| LogRedactions.KeysAreKept | Signalling/src/LogRedaction.ts:44-51 | a copy has the keys of its original, in order, exactly when none of them is the prototype key |
| LogRedactionExamples.OwnPrototypeFails | Signalling/src/LogRedaction.ts:44-51 | every object whose own prototype key refers to the object itself is a graph on which the copy fails |
| LogRedactionExamples.SomeGraphFails | Signalling/src/LogRedaction.ts:44-51 | there is such an input, of one object |
| LogRedactionExamples.SomeKeyIsDropped | Signalling/src/LogRedaction.ts:44-51 | an input, as a parsed message can be, whose copy lacks the prototype key and has the copied object as its prototype |
| StreamerRegistries.StreamerRegistry.Add | Signalling/src/StreamerRegistry.ts:103-122 | adding never fails, and the id given is unused |
| StreamerRegistries.StreamerRegistry.Remove | Signalling/src/StreamerRegistry.ts:129-143 | removes that streamer and no other |
| StreamerRegistries.StreamerRegistry.OnEndpointId | Signalling/src/StreamerRegistry.ts:176-239 | ids stay pairwise distinct; a streamer is removed exactly for a malformed id, a refusal, or an authorized id that another holds |
| StreamerRegistries.StreamerRegistry.SanitizeStreamerId | Signalling/src/StreamerRegistry.ts:246-282 | ends with an id that no other streamer holds |
| StreamerRegistries.StreamerRegistry.MaxPostfix | Signalling/src/StreamerRegistry.ts:259-272 | the greatest usable number by which a taken id extends the wanted one |
| StreamerRegistries.FreeCandidate | Signalling/src/StreamerRegistry.ts:276-281 | the search ends, because its candidates are all different, with the first one free |
| StreamerRegistries.SanitizedIsUnique | Signalling/src/StreamerRegistry.ts:246-282 | the rules for an id leave exactly one answer |
| StreamerRegistries.RepeatIsStable | Signalling/src/StreamerRegistry.ts:256-258 | a streamer that asks for the same id again keeps the one it was given |
| StreamerRegistries.GrantedAsAsked | Signalling/src/StreamerRegistry.ts:246-282 | a free id is granted as asked exactly when no taken id is that id followed by a usable number |
| StreamerNames.GivenExactly | Signalling/src/StreamerRegistry.ts:246-282 | a new streamer gets the id it asks for, or UnknownStreamer, if no taken id is that with a number; else with the number after the greatest, if free; else with the first free from 1 on |
| StreamerNames.OwnIsKept | Signalling/src/StreamerRegistry.ts:256-258 | a streamer that asks for the id it holds alone keeps it |
| Decimals.DecimalInjective | Signalling/src/StreamerRegistry.ts:276-281 | different numbers have different decimal texts |
| Ustar.ChecksumFits | SignallingWebServer/src/session-log-artifacts.ts:759-766 | the checksum of a block fits six octal digits |
| UstarLaws.ArchiveIsWholeBlocks | SignallingWebServer/src/session-log-artifacts.ts:770-782 | the length of an archive is a multiple of 512 |
| UstarLaws.RefusedOnlyWhenNothingFits | SignallingWebServer/src/session-log-artifacts.ts:714-730 | a path is refused exactly when it is over 100 bytes and no slash splits it into at most 155 and 100 |
| UstarLaws.SplitJoins | SignallingWebServer/src/session-log-artifacts.ts:714-730 | prefix and name joined by a slash are the normalised path |
| UstarLaws.NumberReadsBack | SignallingWebServer/src/session-log-artifacts.ts:706-712 | a number field reads back as the value modulo a power of eight, zero for a negative one |
| UstarLaws.HeaderSumVerifies | SignallingWebServer/src/session-log-artifacts.ts:751-767 | the checksum of every header verifies |
| UstarLaws.SumAddsUp | SignallingWebServer/src/session-log-artifacts.ts:759-762 | the sum counts every byte of the block once |
| UstarReadBack.HeaderReads | SignallingWebServer/src/session-log-artifacts.ts:732-768 | a reader of the standard accepts every header and finds the fields written |
| UstarReadBack.ReadsBack | SignallingWebServer/src/session-log-artifacts.ts:770-782 | paths and contents are recovered exactly when no path holds a zero character and sizes and times are below 8^11 |
| UstarReadBack.SomeAreNotRecovered | SignallingWebServer/src/session-log-artifacts.ts:770-782 | a file named by a zero character, and one of the second 8^11, are accepted and not recovered |
| UstarWriter.CreateTarHeader | SignallingWebServer/src/session-log-artifacts.ts:732-768 | the buffer filled in place is Header, or the path is refused |
| UstarWriter.CreateTarArchive | SignallingWebServer/src/session-log-artifacts.ts:770-782 | the chunks concatenate to Archive, or some path is refused |
| UstarWriter.SplitTarPath | SignallingWebServer/src/session-log-artifacts.ts:714-730 | the loop over segments finds the leftmost split that fits |
| UstarWriter.WriteTarOctal | SignallingWebServer/src/session-log-artifacts.ts:706-712 | the field holds the last digits, padded, and a zero; the rest of the block is unchanged |
| UstarWriter.WriteTarString | SignallingWebServer/src/session-log-artifacts.ts:701-704 | the characters of the value that fit the field are written at its offset, all of them when the value fits; the rest of the block is unchanged |
| Utf8.CutIsLongest | SignallingWebServer/src/session-log-artifacts.ts:701-704 | what is written of a value is its longest beginning of whole characters that fits |
| UstarWriter.SumBytes | SignallingWebServer/src/session-log-artifacts.ts:759-762 | the loop adds up the block |
| UstarWriter.WriteChecksum | SignallingWebServer/src/session-log-artifacts.ts:764-766 | six digits, a zero and a space in the checksum field |
| Utf8.EncodeInjective | SignallingWebServer/src/session-log-artifacts.ts:701-704 | a path can be told from its bytes |
| BundleFiles.AllocateArchivePath | SignallingWebServer/src/session-log-artifacts.ts:525-539 | ends with an unused path, the first in the order of attempts, even where letter case does not count |
| BundleFiles.CollectBundleFiles | SignallingWebServer/src/session-log-artifacts.ts:574-645 | each candidate in order is taken, as the tail that the budget left allows, or skipped because nothing of it could be had |
| BundleFiles.BundleFits | SignallingWebServer/src/session-log-artifacts.ts:574-645 | the budget is kept and no two paths are the same up to letter case |
| BundleFiles.FileIsEnd | SignallingWebServer/src/session-log-artifacts.ts:574-645 | what is taken of a log is its end, as long as a file may be and the rest of the budget allows, under its folder, name, number and extension |
| BundleFiles.PathFits | SignallingWebServer/src/session-log-artifacts.ts:525-539 | a sanitised path is refused by the archive writer exactly when its last part is over 100 characters |
| BundleFiles.BundleIsRecovered | SignallingWebServer/src/session-log-artifacts.ts:574-645 | a bundle whose paths fit is recovered from its archive exactly when every time is below 8^11 |
| BundleFiles.PathIsAttempt | SignallingWebServer/src/session-log-artifacts.ts:525-539 | the collector gives each candidate taken the path of its first attempt that clashes with none before it, as computed from the candidates alone |
| BundleFiles.AttemptsExist | SignallingWebServer/src/session-log-artifacts.ts:525-539 | the candidates taken of every bundle have such attempts |
| BundleFiles.BundleIsAccepted | SignallingWebServer/src/session-log-artifacts.ts:574-645 | a collected bundle is accepted by the archive writer exactly when name, extension and the number of the attempt of every candidate taken have at most 100 characters together |
| BundleFiles.LongNamesAreRefused | SignallingWebServer/src/session-log-artifacts.ts:525-539 | two readable logs of one name of 96 characters make a bundle that the archive writer refuses, though it takes the first alone |
| NegotiationWaits.WaitIsUnion | SignallingWebServer/src/negotiation-recovery.ts:24-90 | under a monotone clock the accumulated wait is the length of the union of the intervals with a waiting player since the record was created, and the fault was raised once if a check found that length at a minute or more while someone waited, and never otherwise |
| NegotiationWaits.CheckMatches | SignallingWebServer/src/negotiation-recovery.ts:65-79 | a check reports exactly the unreported records whose wait, by the definition, has reached a minute while someone waits |
| NegotiationWaits.ForgottenOnlyWhenIdle | SignallingWebServer/src/negotiation-recovery.ts:57-89 | over every run under a monotone clock, a record ends or begins anew only because the streamer responded or was removed, or because, by the definition of waiting, nobody waited for more than five minutes |
| NegotiationRecoveries.NegotiationRecovery.Start | SignallingWebServer/src/negotiation-recovery.ts:24-48 | the object takes the step Started |
| NegotiationRecoveries.NegotiationRecovery.Abandon | SignallingWebServer/src/negotiation-recovery.ts:50-55 | the object takes the step Abandoned |
| NegotiationRecoveries.NegotiationRecovery.Check | SignallingWebServer/src/negotiation-recovery.ts:65-79 | the loops leave the records of Checked and raise its faults |
| RuntimeStatusRuns.ReadyIsOpenAndLatest | SignallingWebServer/src/commercial-runtime-status.ts:42-90 | over every run a Ready is written only for a request made while the gate was unblocked, with no transition requested since |
| RuntimeStatusRuns.AttemptsRise | SignallingWebServer/src/runtime-status.ts:231-338 | a transition is attempted under a greater sequence number than everything before it |
| RuntimeStatusRuns.DrainedEndsWithLast | SignallingWebServer/src/runtime-status.ts:231-338 | once the queue is empty the transition requested last has been attempted, and only heartbeats after it |
| RuntimeStatusRuns.ReleaseIsNewer | SignallingWebServer/src/commercial-runtime-status.ts:14-57 | what the release timer would publish is a Ready asked for after the last transition to another status |
| RuntimeStatusRuns.TimerReleases | SignallingWebServer/src/commercial-runtime-status.ts:31-90 | over every run, a firing timer asks for exactly one transition: to Ready, asked for after the last regression, if the gate has opened, and to resetting otherwise |
| RuntimeStatusAnswers.BlockedReadyArms | SignallingWebServer/src/commercial-runtime-status.ts:68-84 | a Ready under a blocked gate is asked for as resetting, and arms the timer with itself when the gate tells the instant of its release |
| RuntimeStatusAnswers.OpenReadyPublishes | SignallingWebServer/src/commercial-runtime-status.ts:85-93 | a Ready under an open gate is asked for, as a transition if the block had been shown, and disarms the timer |
| RuntimeStatusAnswers.OtherStatusPublishes | SignallingWebServer/src/commercial-runtime-status.ts:52-61 | any other status is asked for as it is, and a transition to it disarms the timer |
| RuntimeStatusAnswers.OutdatedPassesBy | SignallingWebServer/src/commercial-runtime-status.ts:44-51 | a heartbeat of another status than the last one only passes by |
| RuntimeStatusAnswers.TimerIs | SignallingWebServer/src/commercial-runtime-status.ts:25-38 | an armed timer that fires asks for its Ready, or for resetting while the gate is blocked, and is armed anew if the gate tells when |
| RuntimeStatusAnswers.RequestIs | SignallingWebServer/src/runtime-status.ts:236-254 | a transition takes the next sequence number; a heartbeat is queued under the current one unless another status is desired |
| RuntimeStatusAnswers.TurnIs | SignallingWebServer/src/runtime-status.ts:255-336 | a queued request is attempted exactly when no transition was asked for since and it is no heartbeat of another status |
| RuntimeStatus.RuntimeStatusPublisher.Publish | SignallingWebServer/src/runtime-status.ts:236-254 | the object takes the step BasePublish |
| RuntimeStatus.RuntimeStatusPublisher.RunNext | SignallingWebServer/src/runtime-status.ts:255-336 | the object takes the step Dequeue |
| RuntimeStatus.CommercialRuntimeStatusPublisher.PublishStatus | SignallingWebServer/src/commercial-runtime-status.ts:42-90 | the object takes the step Publish, through the base publisher it wraps |
| RuntimeStatus.CommercialRuntimeStatusPublisher.OnReleaseTimer | SignallingWebServer/src/commercial-runtime-status.ts:31-38 | the object takes the step Release |

## Left out

- The gate: file access, fsync and JSON text; a document is a record of values, and a write has one of three outcomes. Reading an unreadable file and the contents of the two control files are inputs of each call.
- The gate: the queries `getManagedViewerIdentity` and `getDurableManagedViewerEvidenceStatus`, and the text of the refusals, which are named constants.
- Numbers in documents: a fraction is represented by the integer below it, and `Date.parse` by the instant a text stands for.
- Tickets: signature, route, audience and expiry checks of `validateToken` come before the two gate calls and only make it refuse more.
- RecycleSafety.CompletionsAreProven: power failures are not steps of the recycle runs, since the marker file is not followed below its visible content; crashes and restarts are.
- RecycleLosses.LostOnlyFor: markers written by the launch and idle-stop scripts are taken to use a new recycle id, or to rewrite a marker that has no completion time; when a launch fails (SignallingWebServer/src/viewer-idle-stop.ts:2202 and 2231) the marker of that recycle may be withdrawn at any later step.
- The agent: session artefacts and command results sent when a reset completes.
- The agent: HTTP, authentication, desired-state polling, sequence numbers of control responses and heartbeats. The events other code queues are one kind.
- GraceEvidence: the fields of a record other than its id are one value, and its normal form is an input.
- GraceEvidenceRuns.EvidenceIsKept: a record is promised to be kept when the agent's method says so; one whose write was reported as failed is not promised.
- GraceEvidenceRuns.SubmittedInTurn: one request at a time carries evidence; a bootstrap repeated within a heartbeat is not represented. An attempt whose answer cannot be acted on may occur, and is not counted.
- CodecEvidence: the fields of an event other than its id, connection and number are left out; `Readable` says which files the constructor accepts.
- Connections: connections are entries of one object, kept by number, not objects that refer to each other; aliasing between connection objects is not represented.
- Connections: the listeners of `EventEmitter` are the subscribers of a streamer, called in order; a listener removed during the event is not called, where Node calls it once more to no effect.
- ConnectionRuns.EveryRun: ungoverned viewers on a stream with H264 and SFUs in the capacity limit are not excluded by the code, and not by the claim.
- Connections: messages of a connection whose admission failed, binary framing, statistics, keepalive and TURN credentials.
- CodecPolicies.RestrictVideoSdp: the size of a description counts characters where the code counts UTF-16 units, and the available codecs are a set where the code returns them in the order of discovery.
- CodecPolicies: `parseCodecPolicy` is the predicate `ValidPolicy` on the fields the negotiation uses; changing letter case is modelled for the letters a to z.
- LogRedactions.RedactSensitiveLogValue: a value is text, or refers to an array or an object with own enumerable fields; getters and exotic objects are not represented, and the order of integer-like keys is that of the input.
- LogRedactions: the redaction of already serialised protocol messages.
- StreamerRegistries: messages to the streamer about its new id, and listeners of the registry.
- Ustar: lone surrogates in paths; the modification time is given in seconds.
- BundleFiles: discovery of candidates, fingerprints and the manifest; sanitised names, folders and readable contents are inputs.
- NegotiationRecoveries.NegotiationRecovery.Check: the order in which faults are raised, and calls made from within a fault; one call sees one instant of the clock.
- RuntimeStatus: statuses are in the trimmed lower-case form in which the code compares them; tags, observers, identity and failures of a write are one outcome, an attempt. The soak of `evaluateDerivedStatus` is not part of this model.
- PlayerRegistry: player ids are the numbers of connections; the search for an id that is not in use is not part of this model.
