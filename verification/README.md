# A verified model of the multAIplayer command-line client

The client joins end-to-end encrypted rooms over an untrusted relay, keeps what it
needs to survive a crash, hosts Codex turns on behalf of a room, hands the host role
over, and admits members by invite. This project models the parts of `apps/cli/src`
(and of the MLS engine that it calls) where a lost message, a second execution or a
decision taken twice would hide, and proves what they promise over every run.

`dafny verify dfyconfig.toml` checks the whole project.

## Structure

| file | what it holds |
|---|---|
| `RoomState`, `RoomBounds`, `RoomSession`, `ProcessedWindow` | the room session of `chat.rs`: recovery record, marker, window of processed ids, parsing and projection; the classes `ChatRoomSession` and `MlsClientService` |
| `RoomRuns`, `RoomGuarantees`, `RoomRecords`, `RoomAuthority` | every run of a session, with failed writes, crashes between any two durable writes and reopenings: which envelopes are opened, which records load, and where their events come from |
| `RoomDelivery` | what reaches a member: each event that is sent and may be said is read, stored and shown |
| `Outbox`, `OutboxAnswers`, `OutboxConservation`, `RelayAck` | the durable outbox, its drains, and the wait for an acknowledgement |
| `Handoff`, `HandoffAgreement` | host handoff as a fold of messages, and the agreement of members |
| `Proposals`, `ProposalAnswers`, `ProposalRuns`, `RoomController` | the Codex proposal machine, its answers and runs, and the controller that drives it |
| `Text`, `ContextFilter`, `Context` | tokens, the token filter, and the bounded context of a turn |
| `InviteDecisions`, `InviteAnswers`, `InviteRuns` | the host's decisions on admission requests, and their runs |
| `InviteCode`, `Base64` | the invite link: printer, parser and the encoding of its payload |
| `Calendar`, `Timestamps` | civil dates and RFC 3339 timestamps |
| `Basics` | options, sequences without repetition, the order of strings |

Code that changes state is a class whose methods are proved against a function on
values (`Receive`, `Open`, `Drain`, `OnApprove`, `Decide`, …); the promises are then
proved about that function. The environment is a parameter: each durable write, each
call into MLS and each answer of the engine or the socket has a `Fate` that says
whether it succeeds, is refused, or ends the process before or after taking effect.
Time is an argument. History variables that the program does not have are marked
`ghost` or kept in a `World`: the log of recorded ids (`recorded`), the calls of
`process_incoming` (`calls`), the tickets of outbox records, the keys issued and what
each digest names.

`ChatRoomSession` keeps of the outbox only the set of its ids; the records themselves
and how they leave are in `Outbox`, which `InviteDecisions` uses too. Strings are
sequences of Unicode scalar values, whose order is the order of their UTF-8 bytes; where
the source counts bytes or UTF-16 units (`Utf8Length`, `Utf16Length`) the model does.
The timestamp parser works on byte positions; it is modelled for texts in which each
character is one byte, and any other text is rejected by both for its separators or
digits.

## What the proofs turned up

Where code and expectation differ the model follows the code, and the exact condition
is proved.

- The window of processed ids is not the last 1,024 ids in first-seen order once an id
  comes back that had been pushed out (`FirstSeenOrderBreaksIff`, `FirstSeenOrderBreaks`). It is always the end of
  the log of recordings, and that is enough for the replay guarantees.
- A turn event is queued under the kind `codex.turn`, which the parser of the protocol
  does not know (it knows `codex.event`), so members project a marker of an unsupported
  event instead of the turn (`QueuedTurnsArriveUnsupported`).
- An unknown kind may hold control characters when it is projected, and may not when it is
  read back from disk (`ProjectionIsStorable`). One such message of any member makes the
  next start refuse the room (`UnknownKindSpoilsRecordIff`); on validated inputs it is the
  only defect that makes the start refuse a record without a marker (`StoredRecordLoadsIff`,
  `EveryStoredRecordLoads`).
- An error of the relay that names no id counts for the record in flight: it retires an
  application when its code is `application_epoch_expired`, clears a commit when it is
  `stale_epoch`, and otherwise only ends the drain (`DecidingEventSettles`, `ExpiresIff`,
  `RejoinIff`).
- The engine deletes a record before it looks up the epoch to answer, so a drain can fail
  on a record that has left (`DrainSettlesPrefix`, `RetryTakesUpWhereDrainStopped`).
- A new handoff offer enters the local state before it is validated, so an invalid offer
  can make the recovery record one that the next start refuses (`OfferSpoilsRecordIff`,
  `SpoiledRecordDoesNotLoad`).
- Members agree on a handoff only if no smaller candidate reached one of them between the
  host's choice and the commit (`LateRequestsRejectIff`).
- The memory of finished proposals forgets the smallest id, not the oldest. A small id can
  be forgotten as soon as it is finished, and is then started again as if it were new
  (`ForgottenIff`, `FinishedIdRestartsIff`, `SmallIdStartsTwice`).
- Reading back a proposal and its start fails once the proposal has expired
  (`ReplayFailsAfterExpiry`), and reading events a second time changes nothing only if every
  proposal among them that is still admissible is remembered (`ReadingChangesNothingIff`,
  `SecondReplayDiffersIff`).
- Clearing a stale commit deletes the receipt of the approval it carried. If the verifier
  had been deleted, no later call for the capability succeeds
  (`AnsweredDecisionIsFinal`); if a crash or failure had left the verifier behind, the same
  request can then be denied (`CanBeDecidedIff`, `DecidedTwice`).
- The token filter never returns an empty text, so the tests for one in
  `build_bounded_context` never succeed (`SanitizedIsNeverBlank`).
- The shape test of `invite.rs` accepts texts that name no date or time
  (`ShapeNamesInstantIff`). The parser of `codex.rs` reads texts that the printer never
  writes, with signs in their fields for one (`SignedFieldParses`,
  `ParsedTextIsPrintedIff`). Printing and parsing agree up to the year 9999 and no further
  (`PrintedTimestampParses`).

## Model

| member | source | states |
|---|---|---|
| RoomRuns.OpenedAtMostOnce | apps/cli/src/chat.rs:950-1148 | Over every run of deliveries, redeliveries, local records, failed writes, crashes and reopenings, MLS is called a second time for an envelope id only after 1,024 pairwise different other ids were durably recorded since the first call |
| RoomRuns.ProjectedAtMostOnce | apps/cli/src/chat.rs:907-987 | Over every such run, no delivered envelope is projected twice, and no local record is projected again as an echo, short of 1,024 other ids in between |
| RoomRuns.RunKeeps | apps/cli/src/chat.rs:376-412 | The invariant that ties window, marker, log and disk to the calls of MLS holds after every run |
| RoomRuns.StuckForever | apps/cli/src/chat.rs:1126-1132 | From a marker left by a crash or error nothing leads back: whatever follows, MLS is never called again |
| RoomGuarantees.LoadedDiskRecordsEveryCall | apps/cli/src/chat.rs:376-412 | After any run, a disk that loads has recorded every call of MLS ever made |
| RoomGuarantees.FailureBehindMarkerIsStuckIff | apps/cli/src/chat.rs:989-1148 | After a call of MLS that ends in an error the disk bears the marker; the live session is stuck on it too exactly when the envelope was refused by MLS, by the checks of a handoff commit or by the projection, all told before the call; when the final write failed instead, memory has recorded the envelope |
| RoomGuarantees.OwnEnvelopeCallsNothing | apps/cli/src/chat.rs:962-987 | No envelope of the client's own, handoff commits included, is handed to MLS |
| RoomGuarantees.DroppedMessagesAreUnrecorded | apps/cli/src/chat.rs:907-948 | Envelopes behind the message that failed are not in the window |
| RoomGuarantees.UnrecordedEnvelopeIsOpened | apps/cli/src/chat.rs:950-1010 | MLS is called for a foreign envelope exactly when the window does not hold it, no marker stands and the marker can be written; so a dropped envelope is opened when redelivered |
| RoomGuarantees.QueuedRecordIsMarked | apps/cli/src/chat.rs:787-815 | A local record is in the window and on disk before its publication is attempted |
| RoomGuarantees.OwnEchoIsNeverOpened | apps/cli/src/chat.rs:950-987 | The echo of the client's own application is never handed to MLS, projected or added to the history, even when a crash lost its mark |
| RoomRecords.StoredRecordLoadsIff | apps/cli/src/chat.rs:114-151 | In every run, whatever comes in, the next start refuses the stored record exactly when it holds an invalid offer or event, or the marker of an interrupted opening; size, ids, bounds, thread id and scope are never at fault |
| RoomRecords.EveryStoredRecordLoads | apps/cli/src/chat.rs:1456-1470 | When envelopes, own offers and own requests are what their validation makes them, only an event of unknown kind with a control character in its kind makes the next start refuse a record without a marker; nothing is assumed of the kinds that members send |
| RoomRecords.UnknownKindSpoilsRecordIff | apps/cli/src/chat.rs:1013-1096 | One message of an unknown kind is projected and stored, and the next start opens the room exactly when its kind holds no control character |
| RoomRecords.OfferSpoilsRecordIff | apps/cli/src/chat.rs:562-581 | A new offer leaves a memory that the next start accepts exactly when the offer is valid |
| RoomRecords.SpoiledRecordDoesNotLoad | apps/cli/src/chat.rs:386-397 | Once a record with an invalid offer is written, the room no longer opens |
| RoomSession.FittingDropsFewest | apps/cli/src/chat.rs:1150-1165 | The record that is written drops the fewest oldest history events for which it fits and changes nothing else; none is written exactly when even the empty history does not fit |
| RoomSession.ChatRoomSession.PersistRecovery | apps/cli/src/chat.rs:1150-1165 | The trimming loop and the write: new memory and disk for every fate of the write |
| RoomSession.ChatRoomSession.RememberProcessed | apps/cli/src/chat.rs:157-165 | The window after an id, and the log behind it |
| RoomSession.ChatRoomSession.RememberHistory | apps/cli/src/chat.rs:167-181 | The history after an event: at most 100, oldest out, no presence |
| RoomSession.ChatRoomSession.BeginIncoming | apps/cli/src/chat.rs:1126-1132 | The marker is refused while one stands, and is on disk before MLS is called |
| RoomSession.ChatRoomSession.FinishIncoming | apps/cli/src/chat.rs:1134-1148 | Mark, history and removal of the marker become durable together |
| RoomSession.ChatRoomSession.RecoverHostTransfer | apps/cli/src/chat.rs:1098-1124 | A handoff commit becomes an event only when group state, authorization and the member's own offer agree |
| RoomSession.ChatRoomSession.QueueProjectedEvent | apps/cli/src/chat.rs:787-815 | Queueing one local record, for every fate of the engine's write and the session's |
| RoomSession.ChatRoomSession.PublishHandoffOffer | apps/cli/src/chat.rs:562-581 | Who may offer, and what state an offer leaves even when it fails |
| RoomSession.ChatRoomSession.ValidateHandoffRequest | apps/cli/src/chat.rs:615-632 | Who may request, and the error for each reason not to: an unreadable group state is an MLS error, the others are invalid messages |
| RoomSession.ChatRoomSession.RequestHandoffFor | apps/cli/src/chat.rs:583-613 | The state after a request, for every state of the roster |
| RoomSession.ChatRoomSession.SaveCodexThreadId | apps/cli/src/chat.rs:428-437 | The thread id is validated, then stored with the record |
| RoomSession.ChatRoomSession.OpenRoomEvent | apps/cli/src/chat.rs:950-1096 | All branches of opening one envelope, for every choice of the environment |
| RoomSession.ChatRoomSession.OpenOwnEnvelope | apps/cli/src/chat.rs:962-987 | The branch for the client's own envelope |
| RoomSession.ChatRoomSession.ProjectOpened | apps/cli/src/chat.rs:989-1096 | What follows a call of MLS, for commits and application messages |
| RoomSession.MlsClientService.SaveRoomClientState | apps/cli/src/mls.rs:1146-1154 | One atomic write: the record is on disk entirely or not at all, whatever becomes of the process |
| RoomSession.MlsClientService.QueueApplication | apps/cli/src/mls.rs:663-674 | An id enters the outbox at most once, and not when the engine refuses |
| RoomSession.ChatRoomSession.ProjectApplication | apps/cli/src/chat.rs:1013-1096 | What an opened application message projects and how it changes the offers |
| RoomSession.ChatRoomSession.DeliverMessage | apps/cli/src/chat.rs:913-944 | One server message: presence, envelope, room update or none of these |
| RoomSession.ChatRoomSession.ProjectReceived | apps/cli/src/chat.rs:907-948 | The loop over received messages; the first failure ends it |
| RoomSession.ChatRoomSession.PublishQueuedApplication | apps/cli/src/chat.rs:843-871 | What was read while publishing is projected only after a publication that succeeded, and dropped otherwise |
| RoomAuthority.HistoryHasAuthority | apps/cli/src/chat.rs:1013-1096 | In every run each event that a client remembers or has on disk was queued by itself or came in an envelope, and turns, activities, handoff offers, assistant chat and queue decisions came from the device that was the active host's when it was opened |
| RoomState.ProjectionRespectsAuthority | apps/cli/src/chat.rs:1013-1096 | The same for one message: host-only events are projected only from the active host's device, everything else only under its authenticated sender |
| RoomState.ProjectionIsStorable | apps/cli/src/chat.rs:1456-1470 | A projected event can be stored and read back exactly when it is not an unknown kind with a control character; the offers stay valid |
| RoomState.QueuedTurnsArriveUnsupported | apps/cli/crates/protocol/src/events.rs:1951-1992 | An event of kind `codex.turn` is projected as a marker of an unsupported event, whatever it holds |
| RoomState.ReceiveKeepsValidOffers | apps/cli/src/chat.rs:121-130 | No handoff message makes a stored offer invalid |
| RoomDelivery.ProjectedIff | apps/cli/src/chat.rs:1013-1096 | An opened message is projected exactly when its data are those of its envelope, it parses, and its sender may say it; then as exactly that event, with the offers that it should leave; in particular every member's own chat message is |
| RoomDelivery.ParsesUnderItsKind | apps/cli/crates/protocol/src/events.rs:1951-1992 | A payload parses exactly under its own kind, and only when it is well formed |
| RoomDelivery.MessageArrivesIff | apps/cli/src/chat.rs:989-1096 | A message whose receiver can write arrives, enters the history and is on disk exactly when the sender may say it; otherwise it is an error behind the marker |
| RoomDelivery.WhatIsSentIsRead | apps/cli/src/chat.rs:787-815 | What one member queues and the outbox makes a message of, another member that opens it reads as that event, has it in its history and on disk, if the sender may say it in the receiver's view |
| RoomDelivery.TransferIff | apps/cli/src/chat.rs:1098-1124 | A handoff commit makes an acceptance exactly when it is authorized for this room, the group agrees on the new host and a held offer agrees |
| RoomDelivery.CommitArrivesIff | apps/cli/src/chat.rs:989-1010 | A plain commit is recorded; a handoff is recorded with its acceptance exactly when the transfer holds |
| RoomDelivery.OwnTransferIff | apps/cli/src/chat.rs:962-987 | The own handoff commit is recorded with its acceptance, and without MLS |
| RoomDelivery.EnvelopeIsIgnoredOrRefused | apps/cli/src/chat.rs:950-961 | Envelopes of other rooms and repeated ones change nothing; a malformed one is refused |
| RoomDelivery.OtherMessages | apps/cli/src/chat.rs:913-944 | What presence, room updates and other messages show, and that they change nothing |
| RoomDelivery.BatchInOrder | apps/cli/src/chat.rs:907-948 | The events of a batch are those of its messages in order, up to the first failure |
| RoomDelivery.PersistTells | apps/cli/src/chat.rs:1150-1165 | Memory and disk after a write of each fate, told by the record that fits |
| RoomDelivery.QueuedIff | apps/cli/src/chat.rs:787-815 | A local record is taken, noted and on disk exactly when it is well formed, its id is new and both writes succeed |
| RoomDelivery.OfferIff | apps/cli/src/chat.rs:562-581 | Who may offer the host role, and the offer that goes out: open and without a candidate |
| RoomDelivery.RequestIff | apps/cli/src/chat.rs:583-632 | Who may ask for the host role, and for whom |
| RoomDelivery.ThreadIff | apps/cli/src/chat.rs:428-437 | A thread id is stored exactly when it is bounded and free of control characters |
| RoomBounds.EnvelopeBounds | apps/cli/crates/protocol/src/relay.rs:181-215 | The fields that an envelope must have, and that the parts of a handoff come all together on a commit or not at all |
| RoomBounds.AuthorizationBounds | apps/cli/crates/protocol/src/relay.rs:98-145 | The bounds of a handoff authorization |
| RoomBounds.RecordBounds | apps/cli/src/chat.rs:114-151 | The bounds of the recovery record, in numbers |
| RoomBounds.EventBounds | apps/cli/src/chat.rs:1456-1470 | Which events a record may hold |
| ProcessedWindow.WindowIsEndOfLog | apps/cli/src/chat.rs:153-165 | Over every run the window is the last 1,024 entries of the log of recordings, in which equal ids are more than 1,024 places apart |
| ProcessedWindow.RememberRefinesRecord | apps/cli/src/chat.rs:157-165 | One step of the window is the end of one step of the log, which keeps its spacing |
| ProcessedWindow.ForgottenIdWasPushedOut | apps/cli/src/chat.rs:157-165 | A recorded id that is not in the window was followed by 1,024 pairwise different other ids |
| ProcessedWindow.BacklogReplayChangesNothing | apps/cli/src/chat.rs:157-165 | Redelivering any of the 1,000 most recent ids, in any order and number, even after up to 24 newer ones, changes nothing |
| ProcessedWindow.FirstSeenOrderBreaksIff | apps/cli/src/chat.rs:157-165 | The window stays in first-seen order exactly until an id returns that was pushed out |
| ProcessedWindow.FirstSeenOrderBreaks | apps/cli/src/chat.rs:157-165 | Any 1,025 different ids and then the first of them again: in order before, not after |
| Outbox.OutboxService.MarkPublished | apps/desktop/src-tauri/crates/mls-core/src/engine/outbox_lifecycle.rs:61-130 | A published record, and only it, leaves the outbox; it can have left although the call fails |
| Outbox.OutboxService.ClearCommit | apps/desktop/src-tauri/crates/mls-core/src/engine/outbox_lifecycle.rs:132-204 | A stale commit leaves with the welcomes of its epoch when it added a member |
| Outbox.OutboxService.RetireApplication | apps/desktop/src-tauri/crates/mls-core/src/engine/outbox_lifecycle.rs:206-234 | Only an application record can be retired; it can have left although the call fails |
| Outbox.OutboxService.DrainItem | apps/cli/src/mls.rs:1334-1368 | One record of a drain: message, publication, and what each answer does to store and report |
| Outbox.OutboxService.DrainItems | apps/cli/src/mls.rs:1334-1368 | The loop: the first error ends it |
| Outbox.OutboxService.DrainRoom | apps/cli/src/mls.rs:1181-1237 | Work list and drain of one room; a stale commit in a drain of every record marks the room for rejoin |
| OutboxConservation.EveryRunConserves | apps/cli/src/mls.rs:1334-1368 | Over every sequence of queueings and drains each record that entered is in exactly one place: pending, published, expired or cleared |
| OutboxConservation.DecidingEventSettles | apps/cli/src/mls.rs:1334-1368 | What one record of a drain leaves, told from the first event that decides about its publication: `Published` publishes it, an expired epoch retires an application, a stale epoch clears a commit, for this id or for none, and everything else only ends the drain |
| OutboxConservation.ExpiresIff | apps/cli/src/relay.rs:391-398 | A record is reported as expired exactly when it is an application, the deciding event is that error for its id or for none, and the engine settles |
| OutboxConservation.RejoinIff | apps/cli/src/mls.rs:1358-1363 | A rejoin is asked for exactly when the record is a commit, the deciding event calls its epoch stale, for its id or for none, and the engine clears it |
| OutboxConservation.EverySettlementHasItsReason | apps/cli/src/mls.rs:1334-1368 | Over every run a record left only by the event that decided about a publication in the drain that settled it: its own for a published record and an expired application, that of its commit for a cleared one |
| OutboxConservation.DrainExplains | apps/cli/src/relay.rs:376-416 | The same within one drain |
| OutboxConservation.DrainSettlesPrefix | apps/cli/src/mls.rs:1334-1368 | A drain settles exactly the prefix before the failing record, plus what leaves with a stale commit, plus the failing record itself only if the engine deleted it before it failed |
| OutboxConservation.RetryTakesUpWhereDrainStopped | apps/cli/src/mls.rs:1206-1237 | The work list of a retry is the old one without the settled prefix, in the same order; the record that failed is missing only if the engine had deleted it |
| OutboxConservation.WorkListIsSorted | apps/cli/src/mls.rs:1516-1522 | The work list holds exactly the selected records of the room, ascending by epoch, priority and id |
| OutboxConservation.WorkListIsInPublishingOrder | apps/cli/src/mls.rs:1206-1237 | A drain takes up every record of its room, or every application of it, and no other: by epoch; within an epoch applications, then commits, then welcomes and denials; and by id among those |
| OutboxAnswers.PublishedIff | apps/desktop/src-tauri/crates/mls-core/src/engine/outbox_lifecycle.rs:61-130 | Which record of which room leaves as published, and when the call fails |
| OutboxAnswers.ClearedIff | apps/desktop/src-tauri/crates/mls-core/src/engine/outbox_lifecycle.rs:132-204 | Only a commit is cleared, and with an added member's commit exactly the welcomes of its room and epoch |
| OutboxAnswers.RetiredIff | apps/desktop/src-tauri/crates/mls-core/src/engine/outbox_lifecycle.rs:206-234 | Only an application is retired |
| OutboxAnswers.MessageIff | apps/cli/src/mls.rs:1442-1514 | Which records become a message, and which message |
| OutboxAnswers.OutcomeTells | apps/cli/src/relay.rs:376-416 | What each message of the relay says to one who waits for a publication or a join |
| RelayAck.RelayConnection.PublishAndWaitForAck | apps/cli/src/relay.rs:260-278 | The pending id is set and cleared whatever happens; a second publication is refused while one waits |
| RelayAck.RelayConnection.WaitForAck | apps/cli/src/relay.rs:312-338 | The loop over socket events: verdict, what is left to read and what the handler saw |
| RelayAck.AwaitStopsAtFirst | apps/cli/src/relay.rs:312-338 | The first event that decides ends the wait with its own verdict, and the handler has seen every message up to it in order |
| RelayAck.PublishAcceptedIff | apps/cli/src/relay.rs:376-416 | A publication succeeds exactly when `Published` with this exact id comes before any error, failure or silence |
| Handoff.HandoffState.RememberOffer | apps/cli/src/handoff.rs:33-42 | The list of offers after a new one |
| Handoff.HandoffState.RequestCandidate | apps/cli/src/handoff.rs:44-86 | The offer after a request, and whether it was taken |
| Handoff.HandoffState.AcceptInformational | apps/cli/src/handoff.rs:88-117 | When the informational event is accepted, and what it changes |
| Handoff.HandoffState.AcceptCommitted | apps/cli/src/handoff.rs:119-153 | When the commit is accepted, and what it changes |
| HandoffAgreement.LexicographicOrder | apps/cli/src/handoff.rs:44-86 | Candidates are compared by user, then device, then leaf |
| HandoffAgreement.RequestIsAnsweredIff | apps/cli/src/handoff.rs:44-86 | A request is answered yes exactly when its offer is held and not accepted, whoever asks |
| HandoffAgreement.EveryRequestIsAnswered | apps/cli/src/handoff.rs:44-86 | Among requests in any order and number every one for an open offer is answered yes |
| HandoffAgreement.OfferIsKept | apps/cli/src/handoff.rs:33-42 | The last 32 offers are kept in the order of arrival, new ones open, known ones as they are |
| HandoffAgreement.AcceptanceIff | apps/cli/src/handoff.rs:88-153 | Which announcements are taken, and that they write candidate and time and nothing else |
| HandoffAgreement.EveryRunIsWellFormed | apps/cli/src/handoff.rs:33-153 | After any messages: at most 32 offers, no id twice, and a choice wherever one is claimed |
| HandoffAgreement.RequestsChooseTheLeast | apps/cli/src/handoff.rs:44-86 | Requests in any order and number leave each open offer with the least candidate by user, device and leaf, and touch nothing else |
| HandoffAgreement.RequestsConverge | apps/cli/src/handoff.rs:44-86 | The same set of requests leads to the same state |
| HandoffAgreement.AnnouncementsAreAllOrNothing | apps/cli/src/handoff.rs:88-153 | Commit and informational event, in either order and any number, are all accepted or all rejected, as the member's own choice decides |
| HandoffAgreement.MembersAgree | apps/cli/src/handoff.rs:44-153 | Two members that hold an open offer, each among offers of its own, and saw the same requests for it before its acceptance end equal on it but for the time of acceptance, accept exactly the least candidate, and agree on every other open offer they share with the same requests |
| HandoffAgreement.LateRequestsRejectIff | apps/cli/src/handoff.rs:119-153 | A member with further requests accepts the commit exactly when none of them precedes the host's choice |
| HandoffAgreement.AcceptedIsFinal | apps/cli/src/handoff.rs:33-153 | No message changes more of an accepted offer than the time of acceptance |
| HandoffAgreement.AcceptedStaysFinal | apps/cli/src/handoff.rs:44-153 | An accepted offer keeps candidate and acceptor under every later message while it is retained |
| Proposals.ProposalMachine.Create | apps/cli/src/codex.rs:92-102 | A machine for a bounded room id, idle and with nothing remembered; an error for any other |
| Proposals.ProposalMachine.Observe | apps/cli/src/codex.rs:112-145 | All checks of a new proposal in their order, and the state after it |
| Proposals.ProposalMachine.Approve | apps/cli/src/codex.rs:147-178 | Approval by the active host before the expiry; an expired proposal is finished instead |
| Proposals.ProposalMachine.Start | apps/cli/src/codex.rs:180-196 | Only an approved proposal starts, and only for the active host |
| Proposals.ProposalMachine.Cancel | apps/cli/src/codex.rs:198-212 | Cancelling finishes what is held |
| Proposals.ProposalMachine.Complete | apps/cli/src/codex.rs:214-238 | A running turn completes; without authority it is cancelled instead |
| Proposals.ProposalMachine.Fail | apps/cli/src/codex.rs:240-248 | A running turn fails and is finished |
| Proposals.ProposalMachine.ObserveStarted | apps/cli/src/codex.rs:250-270 | A start read back without a live turn finishes the proposal |
| Proposals.ProposalMachine.RequireBinding | apps/cli/src/codex.rs:272-283 | Succeeds exactly for this room and the id of what is held |
| Proposals.ProposalMachine.FinishCurrent | apps/cli/src/codex.rs:285-294 | The loop that forgets the smallest ids until 256 are left |
| ProposalRuns.RemembersTheLargest | apps/cli/src/codex.rs:285-294 | After any run the remembered ids are exactly the 256 largest of all ids ever finished, or all of them |
| ProposalRuns.LargestIsUnique | apps/cli/src/codex.rs:285-294 | There is only one such set |
| ProposalRuns.ForgottenIff | apps/cli/src/codex.rs:285-294 | A finished id is forgotten exactly when 256 larger ones have finished |
| ProposalRuns.HeldIsProper | apps/cli/src/codex.rs:112-295 | In every run a proposal is held exactly in the phases proposed, approved and running; it is valid, of this room and never a remembered one; starting is never seen |
| ProposalRuns.EveryStartWasApproved | apps/cli/src/codex.rs:147-196 | Each start follows the active host's approval of that very proposal before its expiry, with the proposal held unchanged in between |
| ProposalRuns.EveryCompletionWasStarted | apps/cli/src/codex.rs:214-238 | Each completion follows a start of that very proposal with nothing in between |
| ProposalRuns.FinishedIdRestartsIff | apps/cli/src/codex.rs:112-196 | With nothing held, a finished proposal that has not expired can be observed, approved and started once more exactly when 256 larger ids have finished |
| ProposalRuns.SmallIdStartsTwice | apps/cli/src/codex.rs:285-294 | Any valid proposal and any 256 larger ids give a run that starts the proposal twice |
| ProposalRuns.StartedAtMostOnce | apps/cli/src/codex.rs:112-295 | In a run that finishes at most 256 ids each id starts at most once |
| ProposalRuns.RememberedIdIsInert | apps/cli/src/codex.rs:147-270 | No command that names a remembered id changes the machine |
| ProposalAnswers.ProposalBounds | apps/cli/src/codex.rs:297-332 | The bounds of a proposal, field by field |
| ProposalAnswers.ObserveAnswers | apps/cli/src/codex.rs:112-145 | The answer of each kind and exactly when it is given, and the machine left, in every state |
| ProposalAnswers.ApproveAnswers | apps/cli/src/codex.rs:147-178 | The same for an approval; an expired proposal is ended |
| ProposalAnswers.StartAnswers | apps/cli/src/codex.rs:180-196 | The same for a start |
| ProposalAnswers.CancelAnswers | apps/cli/src/codex.rs:198-212 | The same for a cancellation |
| ProposalAnswers.CompleteAnswers | apps/cli/src/codex.rs:214-238 | The same for a completion; without authority what is held is cancelled |
| ProposalAnswers.FailAnswers | apps/cli/src/codex.rs:240-248 | The same for a failure |
| ProposalAnswers.StartedAnswers | apps/cli/src/codex.rs:250-270 | The same for a start that is read back |
| RoomController.CodexRoomController.ObserveEvent | apps/cli/src/main.rs:771-864 | All events of the controller; a preview is built from the held proposal, the history and the participants, and cannot fail |
| RoomController.CodexRoomController.ObserveQueued | apps/cli/src/main.rs:791-835 | Expiry, admission and when a preview is due |
| RoomController.CodexRoomController.ObserveChat | apps/cli/src/main.rs:778-785 | The history after a message, at most 100 long, and its author among the participants |
| RoomController.CodexRoomController.MakePreview | apps/cli/src/main.rs:910-930 | A preview shows the held proposal with the context built from history and participants |
| RoomController.HistoryIsRecent | apps/cli/src/main.rs:778-785 | Over every run the history is the last 100 messages since a turn last completed |
| RoomController.PreviewIff | apps/cli/src/main.rs:791-835 | A preview is given exactly to the active host, for a queued proposal that the machine holds, that was not previewed, once the settings resolve |
| RoomController.FirstPreview | apps/cli/src/main.rs:806-835 | An idle controller that sees an admissible proposal previews it to the active host and to nobody else |
| RoomController.PreviewsGoToTheHost | apps/cli/src/main.rs:806-835 | Over every run previews go only to the active host and show what is held |
| RoomController.PreviewedOnce | apps/cli/src/main.rs:791-835 | Over every run a proposal is previewed a second time only after the first preview was forgotten |
| RoomController.HeldProposalIsPreviewed | apps/cli/src/main.rs:806-835 | A held proposal that was not previewed is, at its next copy read with authority and a successful probe |
| RoomController.EventFailsIff | apps/cli/src/main.rs:771-864 | The exact condition under which an event is an error |
| RoomController.CancellationEnds | apps/cli/src/main.rs:833-847 | A cancellation ends what is held under its id and otherwise leaves the machine alone |
| RoomController.StartedTurnReplaysIff | apps/cli/src/main.rs:848-855 | A restarted client reads back a proposal and its start without error exactly when it admits the proposal; then it is finished, and no approval or copy brings it back |
| RoomController.ReplayFailsAfterExpiry | apps/cli/src/main.rs:793-855 | For a proposal stamped by a client's clock: exactly within its fifteen minutes |
| RoomController.ReadingChangesNothingIff | apps/cli/src/main.rs:771-864 | Events read with nothing held and room to remember leave the machine as it was exactly when every admissible proposal among them is a remembered one |
| RoomController.SecondReadingIff | apps/cli/src/main.rs:771-864 | So a second reading that starts at rest changes nothing exactly when every proposal still admissible is remembered |
| RoomController.SecondReplayDiffersIff | apps/cli/src/main.rs:806-847 | For a proposal, one turned away meanwhile and the cancellation of the first, the second reading differs exactly when the other is admissible and another one |
| ContextFilter.SanitizeContextText | apps/cli/src/codex.rs:411-450 | The loop over tokens yields the tokens of the prefix with the hidden ones replaced, or one placeholder |
| ContextFilter.ReducedToPlaceholderIff | apps/cli/src/codex.rs:441-449 | A text becomes the placeholder exactly when every token of its prefix is hidden or is the placeholder |
| ContextFilter.SanitizedIsNeverBlank | apps/cli/src/codex.rs:441-449 | The filter never returns an empty or blank text |
| ContextFilter.SanitizedIsSafe | apps/cli/src/codex.rs:411-450 | Nothing that passed the filter holds a token that it hides |
| ContextFilter.SanitizedTwice | apps/cli/src/codex.rs:411-450 | Filtering again changes nothing |
| ContextFilter.FilteredIff | apps/cli/src/codex.rs:411-440 | Which tokens are hidden |
| ContextFilter.SanitizedTells | apps/cli/src/codex.rs:411-450 | The text that the filter leaves, token by token |
| Context.BuildBoundedContext | apps/cli/src/codex.rs:334-409 | Succeeds exactly on valid proposals, with the context that the greedy description determines |
| Context.AppendMessages | apps/cli/src/codex.rs:362-396 | The loop keeps a message exactly when it has a line and both budgets have room after the lines kept before |
| Context.BuildHeader | apps/cli/src/codex.rs:345-361 | The header holds the filtered proposer and task, the first 32 sorted names and the filtered intent |
| Context.RenderLine | apps/cli/src/codex.rs:373-391 | The line of a message, or none for a system message or a body of which nothing is left |
| Context.GreedyIsUnique | apps/cli/src/codex.rs:368-396 | The greedy choice is determined by lines and header length |
| Context.LineTells | apps/cli/src/codex.rs:373-391 | The line of each message, in full, and which messages have none |
| Context.HeaderTells | apps/cli/src/codex.rs:345-361 | The header, in full |
| Context.SortNames | apps/cli/src/codex.rs:345-352 | Filtered names, ascending and without duplicates |
| Context.ContextIsUnique | apps/cli/src/codex.rs:334-409 | The description determines the context |
| Context.BudgetsHold | apps/cli/src/codex.rs:362-409 | Included plus excluded is the number of the last 64 messages, at most 32 are included, the reported length is true and at most 24,000 even when the header alone is longer |
| Context.ContextShowsNothingHidden | apps/cli/src/codex.rs:341-450 | No token of the whole context is secret-like or a local path, across seams, added punctuation and the final cut, for every input |
| InviteDecisions.InviteLedger.DecideInvite | apps/cli/src/mls.rs:871-992 | All branches of a decision, for every choice of engine and store, the failed deletion of the verifier included |
| InviteDecisions.InviteLedger.AddMemberForInvite | apps/desktop/src-tauri/crates/mls-core/src/engine/membership.rs:67-236 | Receipt, commit and welcome are written together or not at all, and never beside a denial |
| InviteDecisions.InviteLedger.DenyInvite | apps/desktop/src-tauri/crates/mls-core/src/engine/invite_admission.rs:55-118 | Denial and answer are written together or not at all, and never beside a receipt |
| InviteDecisions.InviteLedger.HasInviteDecision | apps/cli/src/mls.rs:994-1005 | After a yes no call for the handle changes anything, whoever asks for what; after a no every call that is answered makes the decision |
| InviteDecisions.InviteLedger.ClearPendingCommit | apps/desktop/src-tauri/crates/mls-core/src/engine/outbox_lifecycle.rs:132-204 | The receipt of an added member leaves with its stale commit |
| InviteDecisions.RepeatSucceedsIff | apps/cli/src/mls.rs:882-933 | With a decision on record nothing changes, and a call succeeds exactly when it repeats the choice for the same binding (an approval while its welcome waits), with the recorded answer whatever time it claims |
| InviteDecisions.FirstDecisionSucceedsIff | apps/cli/src/mls.rs:934-992 | A first decision succeeds exactly on a well-formed request whose MAC fits the verifier still held, and then deletes the verifier |
| InviteDecisions.AcceptedByItsRequesterOnly | apps/cli/src/mls.rs:1007-1073 | The requester's checks accept the answer exactly for its own request, and tell it the choice made |
| InviteAnswers.FirstDecisionWritesIff | apps/cli/src/mls.rs:934-992 | When a first decision is put on record, answered or not, and the receipt, records and signature that it writes |
| InviteAnswers.RefusalTells | apps/cli/src/mls.rs:871-992 | The error of every call that is not answered, and exactly when each is given |
| InviteAnswers.BindingIff | apps/desktop/src-tauri/crates/mls-core/src/invite_capability.rs:236-268 | Which bindings can be encoded |
| InviteAnswers.PairIff | apps/cli/src/mls.rs:1620-1650 | A response belongs to a request exactly when it is that request, answered |
| InviteAnswers.AcceptIff | apps/cli/src/mls.rs:1007-1073 | The exact condition under which the requester takes an answer |
| InviteRuns.EveryRunIsSound | apps/cli/src/mls.rs:871-992 | Over every run approval and denial are never both on record, and each record answers a request under the key its handle was issued with |
| InviteRuns.RecordChange | apps/desktop/src-tauri/crates/mls-core/src/engine/outbox_lifecycle.rs:132-204 | A record comes only from a decision while the verifier is there, goes only with its own stale commit, and is never replaced |
| InviteRuns.VerifierRemainsIff | apps/cli/src/mls.rs:984-991 | The verifier of an issued handle remains exactly until a decision for it is put on record and answered at once |
| InviteRuns.CanBeDecidedIff | apps/cli/src/mls.rs:871-992 | Over every run, an issued handle without a record can be decided, for the first or another time, exactly when no call that put a decision for it on record was answered |
| InviteRuns.DecidedTwice | apps/cli/src/mls.rs:934-991 | Any approvable request gives a four-step run that decides its handle twice: issued, approved without deleting the verifier, cleared as stale, denied |
| InviteRuns.SecondDecisionOnlyAfter | apps/cli/src/mls.rs:871-992 | What lies between two decisions of a handle: the first was an approval, never answered, and its own commit was cleared |
| InviteRuns.AnsweredDecisionIsFinal | apps/cli/src/mls.rs:871-992 | After an answered first decision nothing else is ever on record, and once the record is gone every call fails |
| InviteRuns.RepeatedAnswersAgree | apps/cli/src/mls.rs:882-933 | Two answered calls for a handle return the identical decision and made the same choice on the same binding, unless the record was cleared in between |
| InviteRuns.EveryAnswerReachesItsRequester | apps/cli/src/mls.rs:1620-1650 | Over every run, each answer passes the requester's checks under the issued key, for the request that was decided and no other |
| InviteCode.ParseFields | apps/cli/src/invite.rs:284-305 | The loop accepts exactly the fragments that hold the three fields, each once, in any order, and nothing else |
| InviteCode.ParseInviteCode | apps/cli/src/invite.rs:269-320 | The parser returns the invite that the text carries exactly if its fields and its checksum are sound, answers a wrong checksum exactly if the text carries sound fields with another checksum, and rejects every other text as invalid |
| InviteCode.CarriesOne | apps/cli/src/invite.rs:269-320 | A text carries at most one invite under one id |
| InviteCode.ValidateTells | apps/cli/src/invite.rs:181-217 | An invite is sound exactly when its fields and its checksum are; a wrong checksum is the answer exactly when that is all that is wrong |
| InviteCode.FieldsIff | apps/cli/src/invite.rs:191-217 | Soundness of each field, told by what the field holds |
| InviteCode.FingerprintIff | apps/cli/src/invite.rs:1613-1622 | A fingerprint is `sha256:` and sixteen groups of four hexadecimal digits |
| InviteCode.CapabilityIff | apps/cli/src/invite.rs:191-217 | A capability is the text of exactly 32 bytes |
| InviteCode.CarriesTells | apps/cli/src/invite.rs:269-320 | What a text that carries an invite is made of |
| InviteCode.InviteUrlIff | apps/cli/src/invite.rs:269-283 | The two addresses of an invite link |
| InviteCode.EncodeTells | apps/cli/src/invite.rs:160-179 | The text printed for an invite, or the error and its reason |
| InviteCode.NewInviteTells | apps/cli/src/invite.rs:128-158 | A new invite has the current version and its own checksum, and exists exactly for sound fields |
| InviteCode.AnyOrderIsAFragment | apps/cli/src/invite.rs:284-305 | Any order of the three fields is a fragment for the same id and payload |
| InviteCode.PrintedInviteIsCarried | apps/cli/src/invite.rs:160-179 | Whatever is printed carries the invite that was given, under its id, and is accepted |
| InviteCode.NewInvitePrintsIff | apps/cli/src/invite.rs:128-179 | A new invite prints exactly under sound ids within the length bound |
| Base64.EncodedDecodes | apps/cli/src/invite.rs:171-171 | Decoding undoes encoding |
| Base64.DecodedEncodes | apps/cli/src/invite.rs:207-217 | Only encodings decode: each value has one text |
| Base64.Alphabet | apps/cli/src/invite.rs:171-171 | The alphabet in the order of its values |
| Base64.BitsInOrder | apps/cli/src/invite.rs:171-171 | The digits carry the bits of the bytes in order |
| Calendar.CivilDateRefinesWalk | apps/cli/src/main.rs:2060-2077 | For every integer day, the closed form is the date reached from 1970-01-01 by next-day and previous-day steps |
| Calendar.ClosedFormsAreInverse | apps/cli/src/codex.rs:2091-2107 | The formulas of printer and parser are inverse on every day, and on exactly the dates that exist |
| Calendar.DaysOrderDates | apps/cli/src/codex.rs:2091-2107 | On valid dates the day number orders as the calendar does |
| Calendar.TruncationIsFloor | apps/cli/src/main.rs:2062-2066 | The adjusted truncating quotient is the floor, for negative days too |
| Timestamps.PrintedTimestampParses | apps/cli/src/codex.rs:2060-2111 | Printing and parsing returns the same second, and the text passes the shape test, for every second before the year 10000 and for no later one |
| Timestamps.NotExpiredIsChronological | apps/cli/src/invite.rs:976-981 | On texts that name instants the string comparison succeeds exactly when the expiry is later, to the millisecond |
| Timestamps.ShapeNamesInstantIff | apps/cli/src/invite.rs:962-974 | A text of the right shape names an instant exactly when its date exists and its time is a time of day |
| Timestamps.ParsedTextIsPrintedIff | apps/cli/src/codex.rs:2060-2111 | A text read as a second from 1970 on is the text printed for that second exactly when it has the 24-character shape and `.000` for its milliseconds |
| Timestamps.ParsedIff | apps/cli/src/codex.rs:2060-2111 | The parser reads exactly the texts of one form, whatever their length: a year of four characters, perhaps signed, five fields of two, an optional fraction, an existing date and a time of day; as the second that they name |
| Timestamps.NotExpiredIff | apps/cli/src/invite.rs:962-981 | The test succeeds exactly when both texts have the shape of a printed timestamp and the expiry sorts behind the clock |
| Timestamps.ProposalExpiryTells | apps/cli/src/codex.rs:2113-2125 | For every text and clock: live, expired, or invalid, and exactly why |
| Timestamps.SignedFieldParses | apps/cli/src/codex.rs:2073-2078 | A text with a sign in a field is read, and is printed for no second |
| Timestamps.StampedProposalLifetime | apps/cli/src/codex.rs:2113-2125 | A proposal stamped by the printer is live for exactly the 900 seconds that begin with its own |

## Left out

- MLS, HPKE, SHA-256, HMAC and JSON: the model has the laws it needs. A hash of a binding stands for the binding, a MAC names its key and text, ids of outbox records and capability handles do not come up twice (`NewNames`), and JSON and URLs outside the fragment are parameters (`Lawful`).
- The relay server, sockets, TLS, HTTP, the credential store and SQLCipher: the environment chooses what they answer.
- `wait_for_ack`: its wall-clock deadline and the errors of its handler; silence is the end of the incoming events. The join acknowledgement is left out, as the same loop with another target.
- `connect_with_retries` and `ReconnectPolicy::delay`: a bounded retry with one branch for each answer.
- `join_with_recovery` and `RecoveringChatRoomSession`: a rejoin appears as further deliveries of the same session or as a reopening.
- `approve_handoff`, `recover_application_outbox`, `delete_local_history` and the presence map: sequences of modelled operations, or state that no guarantee reads.
- The syntax of times in a stored offer is part of `termsWellFormed`; payload fields that the client only carries are one opaque text each.
- The size of the encoded record is a parameter (`Sizer`).
- `parse_invite_code`: what a URL library makes of texts that are not of the printed form is a parameter, so the parser theorem is about the URL it reports.
- Invite admission around the decision (`InviteService`, key packages, publication of commit and response): sequences of calls to the backend.
- Approval, denial, tick and privileged requests of the room controller: the machine's commands may come in any order in `ProposalRuns`, which covers them; resolving the settings is one answer (`probes`).
- `auth.rs`, `identity.rs`, `platform.rs`, `lib.rs`, terminal rendering, argument parsing, catalog selection, path checks, the desktop application and all TypeScript.
