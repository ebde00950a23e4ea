/** What a message does to the member that receives it: every authorized event arrives as it
    was sent, and nothing else does. */
module RoomDelivery {
  import opened Basics
  import opened Text
  import opened Handoff
  import opened ProcessedWindow
  import opened RoomState
  import opened RoomSession
  import opened RoomRuns
  import Outbox

  // ---- What a kind says about its payload ----

  /** The kind that the protocol gives to an event. */
  function KindOf(event: Event): string {
    match event
    case Chat(_, _, _, _) => "chat.message"
    case Proposal(_, _, _, _, _, _) => "codex.queue"
    case Turn(_, _, _) => "codex.event"
    case Activity(_, _, _) => "codex.activity"
    case HandoffOffered(_) => "room.host"
    case HandoffWanted(_, _) => "room.host.request"
    case HandoffAccepted(_, _) => "room.host.accepted"
    case _ => ""
  }

  /** The payload passes the wire validation. */
  predicate WellFormed(event: Event) {
    match event
    case Chat(_, _, _, ok) => ok
    case Proposal(_, _, _, _, _, ok) => ok
    case Turn(_, _, ok) => ok
    case Activity(_, _, ok) => ok
    case HandoffOffered(offer) => ValidOffer(offer)
    case HandoffWanted(request, ok) => ok && ValidCandidate(request.candidate)
    case HandoffAccepted(acceptance, ok) => ok && ValidCandidate(acceptance.host)
    case _ => false
  }

  /** An event is read from a payload exactly under its own kind, and only if it is well
      formed. */
  lemma ParsesUnderItsKind(kind: string, event: Event)
    requires kind in {"chat.message", "codex.queue", "codex.event", "codex.activity", "room.host", "room.host.request",
                      "room.host.accepted"}
    ensures Parse(kind, Payload(event)) == if kind == KindOf(event) && WellFormed(event) then Some(event) else None
    ensures Parse(kind, Malformed).None? && forall ok :: Parse(kind, OtherPayload(ok)).None?
  {
    hide ValidOffer, ValidCandidate;
  }

  /** A kind that the protocol knows and the client does not show is read as a marker if its
      payload is well formed, and a kind that nobody knows whatever its payload is. */
  lemma ParsesAsMarker(kind: string, p: Plaintext)
    requires kind !in {"chat.message", "codex.queue", "codex.event", "codex.activity", "room.host", "room.host.request",
                       "room.host.accepted"}
    ensures Parse(kind, p) == Some(Unsupported(kind)) <==>
              !p.Malformed? && if kind in OTHER_KINDS then p == OtherPayload(true) else 1 <= Utf16Length(kind) <= 128
    ensures Parse(kind, p).None? || Parse(kind, p) == Some(Unsupported(kind))
  {
    hide OTHER_KINDS, Utf16Length;
  }

  lemma KnownKinds(kind: string)
    requires kind in {"chat.reaction", "chat.edit", "chat.delete", "terminal.request", "terminal.event", "git.event",
                      "browser.request", "browser.event", "workspace.request", "workspace.event", "preview.event",
                      "room.config", "room.settings"}
    ensures Parse(kind, OtherPayload(true)) == Some(Unsupported(kind)) && Parse(kind, OtherPayload(false)).None?
  {
  }

  // ---- Who may say what ----

  /** The sender is the member, and the device, that the room names as its active host. */
  predicate SpeaksAsHost(room: Room, e: Envelope) {
    room == Room(Some(e.senderUserId), Some(e.senderDeviceId), true)
  }

  /** What the sender of an envelope may say, given the offers that the receiver holds. */
  predicate MaySay(room: Room, offers: seq<Handoff.Offer>, e: Envelope, event: Event) {
    match event
    case Chat(author, role, _, _) => author == e.senderUserId && (role == Human || SpeaksAsHost(room, e))
    case Proposal(id, _, Queued, requester, _, _) => id == e.id && requester == e.senderUserId
    case Proposal(id, _, _, _, _, _) => id == e.id && SpeaksAsHost(room, e)
    case Turn(_, _, _) => SpeaksAsHost(room, e)
    case Activity(_, _, _) => SpeaksAsHost(room, e)
    case HandoffOffered(offer) => SpeaksAsHost(room, e) && offer.fromUserId == e.senderUserId
    case HandoffWanted(request, _) =>
      && request.candidate.userId == e.senderUserId && request.candidate.deviceId == e.senderDeviceId
      && Lookup(offers, request.offerId).Some? && Lookup(offers, request.offerId).value.status != Accepted
    case HandoffAccepted(a, _) =>
      && Lookup(offers, a.offerId).Some?
      && var o := Lookup(offers, a.offerId).value;
         o.fromUserId == e.senderUserId && o.status != Available && o.Choice() == Some(a.host)
    case Unsupported(_) => true
    case Presence(_, _, _, _) => false
  }

  /** The offers after the event. */
  function OffersAfter(offers: seq<Handoff.Offer>, e: Envelope, event: Event): seq<Handoff.Offer> {
    match event
    case HandoffOffered(offer) => Handoff.Receive(offers, Offered(offer)).0
    case HandoffWanted(request, _) => Handoff.Receive(offers, Wanted(request)).0
    case HandoffAccepted(a, _) => Handoff.Receive(offers, Informed(a, e.senderUserId, e.createdAt)).0
    case _ => offers
  }

  /** The authenticated data that belongs to an envelope, with this kind. */
  function DataOf(e: Envelope, kind: string): Authenticated {
    Authenticated(1, e.epochHint, e.id, e.teamId, e.roomId, kind, e.senderUserId, e.senderDeviceId, e.createdAt)
  }

  /** An opened message is projected exactly when its authenticated data are those of its
      envelope, its plaintext reads as an event and its sender may say it; it is then projected
      as that event, and the offers are what the event makes of them.  Otherwise it is refused
      and changes nothing. */
  lemma ProjectedIff(room: Room, offers: seq<Handoff.Offer>, e: Envelope, aad: Authenticated, p: Plaintext)
    ensures var event := Parse(aad.kind, p);
            Project(room, offers, e, aad, p) ==
              if aad == DataOf(e, aad.kind) && event.Some? && MaySay(room, offers, e, event.value)
              then (event, OffersAfter(offers, e, event.value)) else (None, offers)
  {
    hide Parse;
    RefusedLeavesOffers(room, offers, e, aad, p);
    ReadsNoPresence(aad.kind, p);
    if Parse(aad.kind, p).Some? {
      AnswersOfOffers(offers, e, Parse(aad.kind, p).value);
    }
  }

  lemma ReadsNoPresence(kind: string, p: Plaintext)
    ensures Parse(kind, p).Some? ==> !Parse(kind, p).value.Presence?
  {
  }

  lemma RefusedLeavesOffers(room: Room, offers: seq<Handoff.Offer>, e: Envelope, aad: Authenticated, p: Plaintext)
    ensures Project(room, offers, e, aad, p).0.None? ==> Project(room, offers, e, aad, p).1 == offers
  {
    hide Parse, Handoff.Receive;
  }

  lemma AnswersOfOffers(offers: seq<Handoff.Offer>, e: Envelope, event: Event)
    ensures event.HandoffWanted? ==>
              (Handoff.Receive(offers, Wanted(event.request)).1 <==>
                 && Lookup(offers, event.request.offerId).Some?
                 && Lookup(offers, event.request.offerId).value.status != Accepted)
    ensures event.HandoffAccepted? ==>
              (Handoff.Receive(offers, Informed(event.acceptance, e.senderUserId, e.createdAt)).1 <==>
                 && Lookup(offers, event.acceptance.offerId).Some?
                 && var o := Lookup(offers, event.acceptance.offerId).value;
                    && o.fromUserId == e.senderUserId && o.status != Available
                    && o.Choice() == Some(event.acceptance.host))
  {
  }

  // ---- Opening a message ----

  /** A foreign message of this room, not yet seen, with everything on the receiver's side in
      order: no marker stands, the writes succeed, and the records fit. */
  ghost predicate Deliverable(size: Sizer, n: Node, e: Envelope, env: Env, event: Option<Event>) {
    && e.teamId == n.memory.recovery.scope.teamId && e.roomId == n.memory.recovery.scope.roomId
    && !(e.senderUserId == n.memory.recovery.scope.userId && e.senderDeviceId == n.memory.recovery.scope.deviceId)
    && e.id !in n.memory.recovery.processed && ValidEnvelopeId(e.id) && e.ciphertext.Some?
    && n.memory.recovery.pending.None? && env.begin.Written? && env.finish.Written?
    && size(n.memory.recovery.(pending := Some(e.id))) <= MAX_RECOVERY_BYTES
    && forall offers :: size(Noted(n.memory.recovery, e.id, event).(offers := offers)) <= MAX_RECOVERY_BYTES
  }

  /** The record with an envelope marked and its event noted. */
  function Noted(r: Recovery, id: string, event: Option<Event>): Recovery {
    r.(processed := Remember(r.processed, id),
       history := if event.Some? then Last(100, r.history + [event.value]) else r.history)
  }

  /** What a write leaves: the record with the oldest history dropped until it fits, in memory
      whatever happens and on disk if the write takes effect; when not even an empty history
      fits, nothing is written and the history is gone from memory. */
  lemma PersistTells(size: Sizer, n: Node, fate: WriteFate)
    ensures var (m, effect) := Persist(size, n, fate);
            match Fitting(size, n.memory.recovery)
            case None =>
              && effect == Failed(InvalidRecoveryState) && m.memory.recovery == n.memory.recovery.(history := [])
              && m.memory.recorded == n.memory.recorded && m.disk == n.disk && m.room == n.room
            case Some(r) =>
              && m.memory == Memory(r, n.memory.recorded) && m.room == n.room
              && effect == (match fate case Written => Done case Refused => Failed(Mls) case _ => Died)
              && m.disk == if fate in {Written, DiesAfter}
                           then Disk(Some(r), n.memory.recorded, n.disk.outbox, n.disk.calls) else n.disk
  {
    hide Fitting;
  }

  /** Nothing is finished but the opening that the marker names. */
  lemma FinishNeedsMarker(size: Sizer, n: Node, id: string, event: Option<Event>, fate: WriteFate)
    requires n.memory.recovery.pending != Some(id)
    ensures Finish(size, n, id, event, fate) == (n, Failed(RecoveryInterrupted))
  {
  }

  lemma FinishWrites(size: Sizer, n: Node, id: string, event: Option<Event>)
    requires n.memory.recovery.pending == Some(id) && |n.memory.recovery.history| <= 100
    requires event.Some? ==> !event.value.Presence?
    requires size(Noted(n.memory.recovery, id, event).(pending := None)) <= MAX_RECOVERY_BYTES
    ensures var (m, effect) := Finish(size, n, id, event, Written);
            && effect.Done? && m.memory.recovery == Noted(n.memory.recovery, id, event).(pending := None)
            && m.disk.saved == Some(m.memory.recovery) && m.room == n.room
  {
    hide Remember, Record;
  }

  /** What one message does.  It arrives, is noted as the latest event and is on disk, exactly
      when it says an event that its sender may say; otherwise it is refused, and the marker
      stays. */
  lemma MessageArrivesIff(size: Sizer, n: Node, e: Envelope, env: Env)
    requires e.messageType == Application && env.mls.Opened? && |n.memory.recovery.history| <= 100
    requires Deliverable(size, n, e, env, Parse(env.mls.aad.kind, env.mls.plaintext))
    ensures var aad, event := env.mls.aad, Parse(env.mls.aad.kind, env.mls.plaintext);
            var offers := n.memory.recovery.offers;
            var (m, o) := Open(size, n, e, env);
            if aad == DataOf(e, aad.kind) && event.Some? && MaySay(n.room, offers, e, event.value)
            then && o == Projected(event)
                 && m.memory.recovery == Noted(n.memory.recovery, e.id, event).(
                      offers := OffersAfter(offers, e, event.value))
                 && m.disk.saved == Some(m.memory.recovery)
            else o == Error(InvalidEncryptedMessage) && m.memory.recovery.pending == Some(e.id)
  {
    hide Project, Parse, Finish, Noted, OffersAfter, MaySay, Remember;
    var aad, event := env.mls.aad, Parse(env.mls.aad.kind, env.mls.plaintext);
    ProjectedIff(n.room, n.memory.recovery.offers, e, aad, env.mls.plaintext);
    var called := CallMls(Begin(size, n, e.id, env.begin).0, e.id);
    assert called.memory.recovery == n.memory.recovery.(pending := Some(e.id));
    var offers := Project(n.room, n.memory.recovery.offers, e, aad, env.mls.plaintext).1;
    NotedOffers(n.memory.recovery, e.id, event, offers);
    if event.Some? && MaySay(n.room, n.memory.recovery.offers, e, event.value) {
      NoPresence(n.room, n.memory.recovery.offers, e, event.value);
      FinishWrites(size, called.(memory := WithOffers(called.memory, offers)), e.id, event);
    }
  }

  lemma NoPresence(room: Room, offers: seq<Handoff.Offer>, e: Envelope, event: Event)
    requires MaySay(room, offers, e, event)
    ensures !event.Presence?
  {
  }

  lemma NotedOffers(r: Recovery, id: string, event: Option<Event>, offers: seq<Handoff.Offer>)
    ensures Noted(r.(pending := Some(id), offers := offers), id, event).(pending := None)
            == Noted(r, id, event).(offers := offers, pending := None)
    ensures r.pending.None? ==> Noted(r.(pending := Some(id)), id, event).(pending := None) == Noted(r, id, event)
  {
  }

  // ---- From one member to another ----

  /** The kind under which the client sends an event: a turn goes out under one of its own. */
  function SentKind(event: Event): string {
    if event.Turn? then "codex.turn" else KindOf(event)
  }

  /** The record of an event that a member has queued. */
  function SentItem(
      from: Scope, id: string, epoch: nat, createdAt: string, event: Event, payload: string): Outbox.Item {
    Outbox.Item(id, from.roomId, epoch, "application", payload,
                Some(Outbox.ApplicationData(
                  Authenticated(1, epoch, id, from.teamId, from.roomId, SentKind(event), from.userId, from.deviceId,
                                createdAt))))
  }

  /** The message that a drain makes of a member's record has the record's own data for its
      receiver, and is made exactly when it passes the wire validation. */
  lemma SentMessage(from: Scope, id: string, epoch: nat, createdAt: string, event: Event, payload: string, at: string)
    ensures var item := SentItem(from, id, epoch, createdAt, event, payload);
            var e := Envelope(id, from.teamId, from.roomId, from.userId, from.deviceId, createdAt, Application, epoch,
                              Some(payload), false, None, None, None);
            && Outbox.RelayMessageFor(item, Outbox.Route(from.teamId, from.roomId, at), from.userId, from.deviceId)
               == (if ValidEnvelope(e) then Ok(e) else Err(Outbox.InvalidOutbox))
            && item.metadata.value.aad == DataOf(e, SentKind(event))
  {
    hide ValidEnvelope;
  }

  /** What one member sends another member reads: an event that the sender may say arrives at
      any other member of the room as that event, as its latest, with the offers that it makes;
      only a turn arrives as a marker. */
  lemma WhatIsSentIsRead(
      size: Sizer, n: Node, env: Env, from: Scope, id: string, epoch: nat, createdAt: string, event: Event,
      payload: string)
    requires WellFormed(event) && |n.memory.recovery.history| <= 100
    requires env.mls == Opened(SentItem(from, id, epoch, createdAt, event, payload).metadata.value.aad, Payload(event))
    requires var e := Envelope(id, from.teamId, from.roomId, from.userId, from.deviceId, createdAt, Application, epoch,
                               Some(payload), false, None, None, None);
             var arrives := if event.Turn? then Unsupported("codex.turn") else event;
             Deliverable(size, n, e, env, Some(arrives)) && MaySay(n.room, n.memory.recovery.offers, e, arrives)
    ensures var e := Envelope(id, from.teamId, from.roomId, from.userId, from.deviceId, createdAt, Application, epoch,
                              Some(payload), false, None, None, None);
            var arrives := if event.Turn? then Unsupported("codex.turn") else event;
            var (m, o) := Open(size, n, e, env);
            && o == Projected(Some(arrives))
            && m.memory.recovery.history == Last(100, n.memory.recovery.history + [arrives])
            && m.memory.recovery.offers == OffersAfter(n.memory.recovery.offers, e, arrives)
            && id in m.memory.recovery.processed && m.disk.saved == Some(m.memory.recovery)
  {
    hide Open, Parse, Deliverable, MaySay, OffersAfter, WellFormed;
    var e := Envelope(id, from.teamId, from.roomId, from.userId, from.deviceId, createdAt, Application, epoch,
                      Some(payload), false, None, None, None);
    if event.Turn? {
      AsciiLength("codex.turn");
      TurnKindIsUnknown("codex.turn");
      UnknownKindIsUnsupported("codex.turn", Payload(event));
    } else {
      SomeKind(event);
      ParsesUnderItsKind(KindOf(event), event);
    }
    MessageArrivesIff(size, n, e, env);
    RememberedIsHeld(n.memory.recovery.processed, id);
  }

  lemma SomeKind(event: Event)
    requires WellFormed(event)
    ensures KindOf(event) in {"chat.message", "codex.queue", "codex.event", "codex.activity", "room.host",
                              "room.host.request", "room.host.accepted"}
  {
    hide ValidOffer, ValidCandidate;
  }

  // ---- Commits ----

  /** The group has moved on by one epoch to the host that the authorization names. */
  predicate GroupAgrees(e: Envelope, auth: Authorization, state: GroupSnapshot) {
    state == GroupSnapshot(e.epochHint + 1, auth.next.leaf, auth.next.deviceId, Some(auth.transferId))
  }

  /** A handoff commit makes an acceptance exactly when it is authorized, the group agrees, and
      the member's own offer does. */
  lemma TransferIff(n: Node, e: Envelope, snapshot: Option<GroupSnapshot>)
    ensures var (m, transfer) := HostTransfer(n, e, snapshot);
            && (transfer.Ok? <==>
                 && e.authorization.Some? && snapshot.Some? && GroupAgrees(e, e.authorization.value, snapshot.value)
                 && Handoff.Receive(n.memory.recovery.offers, Committed(e)).1)
            && (transfer.Ok? ==>
                 && m == n.(memory := WithOffers(n.memory, Handoff.Receive(n.memory.recovery.offers, Committed(e)).0))
                 && transfer.value.HandoffAccepted? && transfer.value.acceptance
                    == Acceptance(e.authorization.value.transferId, e.authorization.value.next, e.epochHint + 1)
                 && (transfer.value.wellFormed <==>
                      && 1 <= Utf16Length(e.authorization.value.transferId) <= 160
                      && ValidCandidate(e.authorization.value.next) && e.epochHint + 1 < 0x20_0000_0000_0000))
            && (transfer.Err? ==>
                 && m == n
                 && transfer.error == if e.authorization.Some? && snapshot.None? then Mls else InvalidEncryptedMessage)
  {
    hide Handoff.Receive, Utf16Length, ValidCandidate;
  }

  /** What one commit does: a plain one is recorded; a handoff is recorded with the acceptance
      that it makes, and refused when it makes none. */
  lemma CommitArrivesIff(size: Sizer, n: Node, e: Envelope, env: Env)
    requires e.messageType == Commit && !env.mls.MlsRefuses? && !env.mls.MlsDies? && |n.memory.recovery.history| <= 100
    requires var transfer := HostTransfer(n, e, env.snapshot).1;
             Deliverable(size, n, e, env, if e.hostHandoff && transfer.Ok? then Some(transfer.value) else None)
    ensures var (h, transfer) := HostTransfer(n, e, env.snapshot);
            var (m, o) := Open(size, n, e, env);
            if !e.hostHandoff then o == Projected(None) && m.memory.recovery == Noted(n.memory.recovery, e.id, None)
            else if transfer.Err? then o == Error(transfer.error) && m.memory.recovery.pending == Some(e.id)
            else && o == Projected(Some(transfer.value))
                 && m.memory.recovery == Noted(n.memory.recovery, e.id, Some(transfer.value)).(
                      offers := h.memory.recovery.offers)
  {
    hide Finish, Noted, Handoff.Receive, Remember;
    var called := CallMls(Begin(size, n, e.id, env.begin).0, e.id);
    assert called.memory.recovery == n.memory.recovery.(pending := Some(e.id));
    var (h, transfer) := HostTransfer(n, e, env.snapshot);
    TransferIff(n, e, env.snapshot);
    TransferIff(called, e, env.snapshot);
    if e.hostHandoff && transfer.Ok? {
      NotedOffers(n.memory.recovery, e.id, Some(transfer.value), h.memory.recovery.offers);
      FinishWrites(size, HostTransfer(called, e, env.snapshot).0, e.id, Some(transfer.value));
    } else if !e.hostHandoff {
      NotedOffers(n.memory.recovery, e.id, None, n.memory.recovery.offers);
      FinishWrites(size, called, e.id, None);
    }
  }

  /** The client's own handoff commit, come back: it is recorded with its acceptance, without
      MLS and without a marker, exactly when the engine finds the transfer and it makes one. */
  lemma OwnTransferIff(size: Sizer, n: Node, e: Envelope, env: Env)
    requires e.teamId == n.memory.recovery.scope.teamId && e.roomId == n.memory.recovery.scope.roomId
    requires e.senderUserId == n.memory.recovery.scope.userId && e.senderDeviceId == n.memory.recovery.scope.deviceId
    requires e.id !in n.memory.recovery.processed && ValidEnvelopeId(e.id) && e.hostHandoff && env.finish.Written?
    requires forall r: Recovery :: size(r) <= MAX_RECOVERY_BYTES
    ensures var (h, transfer) := HostTransfer(n, e, env.snapshot);
            var (m, o) := Open(size, n, e, env);
            if !env.localTransferFound then o == Error(Mls) && m == n
            else if transfer.Err? then o == Error(transfer.error) && m == n
            else && o == Projected(Some(transfer.value)) && e.id in m.memory.recovery.processed
                 && m.memory.recovery.history == RememberHistory(n.memory.recovery.history, transfer.value)
                 && m.memory.recovery.offers == h.memory.recovery.offers && m.disk.saved == Some(m.memory.recovery)
  {
    hide Handoff.Receive, Remember, Record;
    TransferIff(n, e, env.snapshot);
    RememberedIsHeld(n.memory.recovery.processed, e.id);
  }

  // ---- Everything else that the relay delivers ----

  /** An envelope of another room, and one already seen, changes nothing and shows nothing; an
      envelope without a proper id, or whose text does not decode, is refused untouched. */
  lemma EnvelopeIsIgnoredOrRefused(size: Sizer, n: Node, e: Envelope, env: Env)
    ensures var scope := n.memory.recovery.scope;
            if e.teamId != scope.teamId || e.roomId != scope.roomId || e.id in n.memory.recovery.processed
            then Open(size, n, e, env) == (n, Projected(None))
            else if !ValidEnvelopeId(e.id)
                    || (e.ciphertext.None? && !(e.senderUserId == scope.userId && e.senderDeviceId == scope.deviceId))
            then Open(size, n, e, env) == (n, Error(InvalidEncryptedMessage))
            else true
  {
    hide OpenOwn, Begin, AfterMls;
  }

  /** A refusal by MLS leaves the marker; so does a death, and nothing is projected then. */
  lemma RefusedByMls(size: Sizer, n: Node, e: Envelope, env: Env)
    requires Deliverable(size, n, e, env, None)
    ensures env.mls.MlsRefuses? ==> Open(size, n, e, env).1 == Error(Mls)
    ensures env.mls.MlsDies? ==> Open(size, n, e, env).1 == Dead
    ensures env.mls.NoApplication? && e.messageType == Application && |n.memory.recovery.history| <= 100 ==>
              && Open(size, n, e, env).1 == Projected(None)
              && Open(size, n, e, env).0.memory.recovery == Noted(n.memory.recovery, e.id, None)
  {
    hide Finish, Noted, Remember;
    var called := CallMls(Begin(size, n, e.id, env.begin).0, e.id);
    assert called.memory.recovery == n.memory.recovery.(pending := Some(e.id));
    NotedOffers(n.memory.recovery, e.id, None, n.memory.recovery.offers);
    if env.mls.NoApplication? && |n.memory.recovery.history| <= 100 {
      FinishWrites(size, called, e.id, None);
    }
  }

  /** A standing marker lets nothing through. */
  lemma MarkerBlocks(size: Sizer, n: Node, e: Envelope, env: Env)
    requires n.memory.recovery.pending.Some? && e.id !in n.memory.recovery.processed
    requires e.teamId == n.memory.recovery.scope.teamId && e.roomId == n.memory.recovery.scope.roomId
    requires ValidEnvelopeId(e.id) && e.ciphertext.Some?
    requires !(e.senderUserId == n.memory.recovery.scope.userId && e.senderDeviceId == n.memory.recovery.scope.deviceId)
    ensures Open(size, n, e, env) == (n, Error(RecoveryInterrupted))
  {
  }

  /** Presence is shown, with the sign of the active host's device; an update of the room is
      taken over; neither touches memory or disk, and other rooms are ignored. */
  lemma OtherMessages(size: Sizer, n: Node, env: Env, team: string, room: string, user: string, device: string,
                      name: string, online: bool, next: Room)
    ensures var here := team == n.memory.recovery.scope.teamId && room == n.memory.recovery.scope.roomId;
            && Deliver(size, n, PresenceChanged(team, room, user, device, name, online), env)
               == (n, Projected(if !here then None
                                else Some(Presence(name, device, online,
                                                   n.room.hostUserId == Some(user)
                                                   && n.room.activeHostDeviceId == Some(device)))))
            && Deliver(size, n, RoomUpdated(team, room, next), env)
               == (if here then Node(next, n.memory, n.disk) else n, Projected(None))
            && Deliver(size, n, OtherMessage, env) == (n, Projected(None))
  {
  }

  /** A batch is handled in order: with one more message, the events are those of the batch and
      then the one of that message, unless something before it failed. */
  lemma {:induction false} BatchInOrder(
      size: Sizer, n: Node, messages: seq<ServerMessage>, envs: seq<Env>, shown: seq<Event>, m: ServerMessage, env: Env)
    requires |envs| == |messages|
    ensures var (mid, r) := DeliverAll(size, n, messages, envs, shown);
            DeliverAll(size, n, messages + [m], envs + [env], shown) ==
              match r
              case Err(o) => (mid, Err(o))
              case Ok(events) =>
                var (after, o) := Deliver(size, mid, m, env);
                (after, match o
                        case Projected(Some(event)) => Ok(events + [event])
                        case Projected(None) => Ok(events)
                        case _ => Err(o))
    decreases |messages|
  {
    hide Deliver;
    if messages != [] {
      var (next, o) := Deliver(size, n, messages[0], envs[0]);
      assert (messages + [m])[1..] == messages[1..] + [m] && (envs + [env])[1..] == envs[1..] + [env];
      if o.Projected? {
        var more := if o.event.Some? then shown + [o.event.value] else shown;
        BatchInOrder(size, next, messages[1..], envs[1..], more, m, env);
      }
    } else {
      assert messages + [m] == [m] && envs + [env] == [env];
      assert [m][1..] == [] && [env][1..] == [];
      var (after, o) := Deliver(size, n, m, env);
      if o.Projected? {
        var more := if o.event.Some? then shown + [o.event.value] else shown;
        assert DeliverAll(size, after, [m][1..], [env][1..], more) == (after, Ok(more));
      }
    }
  }

  // ---- The client's own records ----

  /** A record of the client's own is taken, noted and on disk exactly when it is well formed,
      its id is a new token, engine and store do their part and the record fits. */
  lemma QueuedIff(size: Sizer, n: Node, id: string, event: Event, engine: WriteFate, save: WriteFate)
    requires |n.memory.recovery.history| <= 100
    requires size(Noted(n.memory.recovery, id, Some(event))) <= MAX_RECOVERY_BYTES
    ensures var (m, o) := Queue(size, n, id, event, engine, save);
            && (o == Projected(Some(event)) <==>
                 && ValidHistoryEvent(event) && ValidToken(id) && id !in n.disk.outbox
                 && engine.Written? && save.Written?)
            && (o.Projected? ==> o.event == Some(event))
            && (o == Projected(Some(event)) ==>
                 && m.memory.recovery == Noted(n.memory.recovery, id, Some(event))
                 && m.disk.saved == Some(m.memory.recovery) && id in m.disk.outbox)
            && (o.Error? <==>
                 || !ValidHistoryEvent(event) || !ValidToken(id) || id in n.disk.outbox || engine.Refused?
                 || (engine.Written? && save.Refused?))
            && (o.Error? ==> o.error == if !ValidHistoryEvent(event) then InvalidMessage else Mls)
  {
    hide ValidToken, Remember, Record, ValidOffer, NoControl;
  }

  /** Who may offer the handoff, and what the offer is when it goes out: open, without a
      candidate, in the client's own name. */
  lemma OfferIff(size: Sizer, n: Node, id: string, offer: Handoff.Offer, engine: WriteFate, save: WriteFate)
    ensures var scope := n.memory.recovery.scope;
            var clean := Handoff.Offer(offer.id, offer.fromUserId, offer.terms, offer.termsWellFormed, Available, None,
                                       None, None, offer.acceptedByUserId, offer.acceptedAt);
            var offers := Handoff.Receive(n.memory.recovery.offers, Offered(clean)).0;
            var offered := n.(memory := WithOffers(n.memory, offers));
            OfferHandoff(size, n, id, offer, engine, save) ==
              if n.room == Room(Some(scope.userId), Some(scope.deviceId), true)
                 && offer.id == id && offer.fromUserId == scope.userId
              then Queue(size, offered, id, HandoffOffered(clean), engine, save)
              else (n, Error(InvalidMessage))
  {
    hide Queue, Handoff.Receive;
  }

  /** Who may ask for the host role, and for whom: a member that is not the host, for itself,
      as the roster lists it, while the offer is held and not accepted. */
  lemma RequestIff(
      size: Sizer, n: Node, offerId: string, id: string, roster: Roster, engine: WriteFate, save: WriteFate)
    ensures var scope, offers := n.memory.recovery.scope, n.memory.recovery.offers;
            var host := n.room == Room(Some(scope.userId), Some(scope.deviceId), true);
            var open := Lookup(offers, offerId).Some? && Lookup(offers, offerId).value.status != Accepted;
            var (m, o) := RequestHandoff(size, n, offerId, id, roster, engine, save);
            var own := roster.Listed? && roster.me.userId == scope.userId && roster.me.deviceId == scope.deviceId;
            if !host && open && own
            then var request := Handoff.Request(offerId, roster.me);
                 var asked := n.(memory := WithOffers(n.memory, Handoff.Receive(offers, Wanted(request)).0));
                 var ok := 1 <= Utf16Length(offerId) <= 160 && ValidCandidate(roster.me);
                 (m, o) == Queue(size, asked, id, HandoffWanted(request, ok), engine, save)
            else m == n && o == Error(if !host && Lookup(offers, offerId).Some? && roster.Unreadable? then Mls
                                      else InvalidMessage)
  {
    hide Queue, ValidCandidate, Utf16Length;
  }

  /** A thread id is kept exactly when it is bounded and without control characters. */
  lemma ThreadIff(size: Sizer, n: Node, threadId: string)
    requires size(n.memory.recovery.(codexThreadId := Some(threadId))) <= MAX_RECOVERY_BYTES
    ensures var (m, o) := SaveThread(size, n, threadId, Written);
            if 1 <= |threadId| <= 512 && forall i :: 0 <= i < |threadId| ==> !IsControl(threadId[i])
            then && o == Projected(None) && m.disk.saved == Some(m.memory.recovery)
                 && m.memory.recovery == n.memory.recovery.(codexThreadId := Some(threadId))
            else (m, o) == (n, Error(InvalidRecoveryState))
  {
  }
}
