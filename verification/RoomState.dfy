/** What a room session stores and projects: events, the recovery record, its
    validation on load, and the decision what an opened message projects. */
module RoomState {
  import opened Basics
  import opened Text
  import opened Handoff
  import opened ProcessedWindow

  const RECOVERY_VERSION := 1
  const MAX_HISTORY := 100
  const MAX_RECOVERY_BYTES := 768 * 1_024
  const MAX_SAFE_INTEGER := 9_007_199_254_740_991

  datatype ChatRole = Human | Codex | System

  datatype QueueAction = Queued | Cancelled | Coalesced | Promoted | Dropped

  /** Of each payload the model keeps what the client reads; `content` stands for the
      rest and `wellFormed` for the verdict of the wire validation. */
  datatype Event =
    | Chat(authorUserId: string, role: ChatRole, content: string, wellFormed: bool)
    | Proposal(queueEventId: string, turnId: string, action: QueueAction, requestedByUserId: string,
               content: string, wellFormed: bool)
    | Turn(turnId: string, content: string, wellFormed: bool)
    | Activity(activityId: string, content: string, wellFormed: bool)
    | HandoffOffered(offer: Offer)
    | HandoffWanted(request: Request, wellFormed: bool)
    | HandoffAccepted(acceptance: Acceptance, wellFormed: bool)
    | Presence(displayName: string, deviceId: string, online: bool, activeHost: bool)
    | Unsupported(kind: string)

  // ---- Validation ----

  function Utf16Length(s: string): nat {
    if s == "" then 0 else (if s[0] as int > 0xFFFF then 2 else 1) + Utf16Length(s[1..])
  }

  predicate Bounded(s: string, low: nat, high: nat) { low <= Utf16Length(s) <= high }

  predicate ValidEnvelopeId(id: string) { Bounded(id, 1, 160) }

  predicate ValidCandidate(c: Candidate) {
    ValidUserId(c.userId) && ValidDeviceId(c.deviceId) && c.leaf <= MAX_SAFE_INTEGER
  }

  /** `HostHandoffPlaintextPayload::validate`; the syntax of times is left to the wire. */
  predicate ValidOffer(o: Offer) {
    && o.termsWellFormed
    && (o.candidateUserId.Some? ==> ValidUserId(o.candidateUserId.value))
    && (o.candidateDeviceId.Some? ==> ValidDeviceId(o.candidateDeviceId.value))
    && (o.candidateLeaf.Some? ==> o.candidateLeaf.value <= MAX_SAFE_INTEGER)
    && (o.acceptedByUserId.Some? ==> ValidUserId(o.acceptedByUserId.value))
  }

  predicate ValidHistoryEvent(e: Event) {
    match e
    case Chat(_, _, _, ok) => ok
    case Proposal(_, _, _, _, _, ok) => ok
    case Turn(_, _, ok) => ok
    case Activity(_, _, ok) => ok
    case HandoffOffered(offer) => ValidOffer(offer)
    case HandoffWanted(_, ok) => ok
    case HandoffAccepted(_, ok) => ok
    case Unsupported(kind) => 0 < |kind| <= 128 && NoControl(kind)
    case Presence(_, _, _, _) => false
  }

  predicate ValidThreadId(id: string) { 0 < |id| <= 512 && NoControl(id) }

  predicate ValidUserId(s: string) { Bounded(s, 1, 160) }

  predicate ValidDeviceId(s: string) { Bounded(s, 8, 160) }

  predicate ValidRelayId(s: string) { Bounded(s, 3, 160) && AllTokenChars(s) }

  predicate ValidCommitId(s: string) {
    |s| == 64 && forall i :: 0 <= i < 64 ==> '0' <= s[i] <= '9' || 'a' <= s[i] <= 'f'
  }

  /** `HostTransferAuthorization::validate`, as far as the model sees the authorization. */
  predicate ValidAuthorization(a: Authorization) {
    && Bounded(a.transferId, 1, 160) && ValidRelayId(a.roomId) && ValidCommitId(a.commitMessageId)
    && a.parentEpoch <= MAX_SAFE_INTEGER
    && ValidUserId(a.outgoingHostUserId) && ValidDeviceId(a.outgoingHostDeviceId)
    && ValidCandidate(a.next)
  }

  /** `MlsRelayMessage::validate`, as far as the model sees the envelope. */
  predicate ValidEnvelope(e: Envelope) {
    && ValidEnvelopeId(e.id) && ValidRelayId(e.teamId) && ValidRelayId(e.roomId)
    && ValidUserId(e.senderUserId) && ValidDeviceId(e.senderDeviceId)
    && e.epochHint <= MAX_SAFE_INTEGER && e.ciphertext.Some?
    && (e.nextHostUserId.Some? ==> ValidUserId(e.nextHostUserId.value))
    && (e.nextHostDeviceId.Some? ==> ValidDeviceId(e.nextHostDeviceId.value))
    && (e.authorization.Some? ==> ValidAuthorization(e.authorization.value))
    && (e.hostHandoff || e.nextHostUserId.Some? || e.nextHostDeviceId.Some? || e.authorization.Some? ==>
          && e.hostHandoff && e.nextHostUserId.Some? && e.nextHostDeviceId.Some? && e.authorization.Some?
          && e.messageType == Commit)
  }

  // ---- The recovery record ----

  datatype Scope = Scope(version: nat, teamId: string, roomId: string, userId: string, deviceId: string)

  datatype Recovery = Recovery(
    scope: Scope, processed: seq<string>, history: seq<Event>, pending: Option<string>,
    codexThreadId: Option<string>, offers: seq<Offer>)

  function EmptyRecovery(scope: Scope): Recovery {
    Recovery(scope, [], [], None, None, [])
  }

  /** What `validate` asks of everything but the contents of offers and history. */
  predicate ValidFrame(r: Recovery, scope: Scope) {
    && r.scope == scope && scope.version == RECOVERY_VERSION
    && |r.processed| <= MAX_PROCESSED && |r.history| <= MAX_HISTORY && |r.offers| <= MAX_HANDOFFS
    && (forall i :: 0 <= i < |r.processed| ==> ValidEnvelopeId(r.processed[i]))
    && (r.pending.Some? ==> ValidEnvelopeId(r.pending.value))
    && (r.codexThreadId.Some? ==> ValidThreadId(r.codexThreadId.value))
    && Distinct(r.processed)
  }

  /** `RoomRecoveryState::validate`. */
  predicate ValidRecovery(r: Recovery, scope: Scope) {
    && ValidFrame(r, scope)
    && (forall i :: 0 <= i < |r.offers| ==> ValidOffer(r.offers[i]))
    && (forall i :: 0 <= i < |r.history| ==> ValidHistoryEvent(r.history[i]))
  }

  function RememberHistory(history: seq<Event>, e: Event): seq<Event> {
    if e.Presence? then history
    else
      var pushed := history + [e];
      if |pushed| > MAX_HISTORY then pushed[1..] else pushed
  }

  // ---- Projection of an opened application message ----

  datatype Room = Room(hostUserId: Option<string>, activeHostDeviceId: Option<string>, hostActive: bool)

  /** The data that MLS authenticated beside the plaintext. */
  datatype Authenticated = Authenticated(
    version: nat, epoch: nat, messageId: string, teamId: string, roomId: string, kind: string,
    senderUserId: string, senderDeviceId: string, createdAt: string)

  /** Plaintext as JSON: one of the payload shapes, another one, or not JSON at all. */
  datatype Plaintext = Payload(event: Event) | OtherPayload(wellFormed: bool) | Malformed

  /** Kinds the protocol knows and this client does not project. */
  const OTHER_KINDS := {
    "chat.reaction", "chat.edit", "chat.delete", "terminal.request", "terminal.event", "git.event",
    "browser.request", "browser.event", "workspace.request", "workspace.event", "preview.event",
    "room.config", "room.settings"}

  /** `RoomEvent::parse`: the kind selects the payload that the plaintext must be. */
  function Parse(kind: string, p: Plaintext): Option<Event> {
    if p.Malformed? then None
    else if kind == "chat.message" then
      if p.Payload? && p.event.Chat? && p.event.wellFormed then Some(p.event) else None
    else if kind == "codex.queue" then
      if p.Payload? && p.event.Proposal? && p.event.wellFormed then Some(p.event) else None
    else if kind == "codex.event" then
      if p.Payload? && p.event.Turn? && p.event.wellFormed then Some(p.event) else None
    else if kind == "codex.activity" then
      if p.Payload? && p.event.Activity? && p.event.wellFormed then Some(p.event) else None
    else if kind == "room.host" then
      if p.Payload? && p.event.HandoffOffered? && ValidOffer(p.event.offer) then Some(p.event) else None
    else if kind == "room.host.request" then
      if p.Payload? && p.event.HandoffWanted? && p.event.wellFormed && ValidCandidate(p.event.request.candidate)
      then Some(p.event) else None
    else if kind == "room.host.accepted" then
      if p.Payload? && p.event.HandoffAccepted? && p.event.wellFormed && ValidCandidate(p.event.acceptance.host)
      then Some(p.event) else None
    else if kind in OTHER_KINDS then
      if p.OtherPayload? && p.wellFormed then Some(Unsupported(kind)) else None
    else if Bounded(kind, 1, 128) then Some(Unsupported(kind))
    else None
  }

  predicate FromActiveHost(room: Room, e: Envelope) {
    room.hostUserId == Some(e.senderUserId) && room.activeHostDeviceId == Some(e.senderDeviceId) && room.hostActive
  }

  predicate BoundTo(aad: Authenticated, e: Envelope) {
    && aad.version == 1 && aad.epoch == e.epochHint && aad.messageId == e.id
    && aad.teamId == e.teamId && aad.roomId == e.roomId
    && aad.senderUserId == e.senderUserId && aad.senderDeviceId == e.senderDeviceId
    && aad.createdAt == e.createdAt
  }

  /** The event an opened message projects (None: it is refused) and the offers after it. */
  function Project(room: Room, offers: seq<Offer>, e: Envelope, aad: Authenticated, p: Plaintext)
    : (Option<Event>, seq<Offer>)
  {
    if !BoundTo(aad, e) || Parse(aad.kind, p).None? then (None, offers)
    else
      var event := Parse(aad.kind, p).value;
      match event
      case Chat(author, role, _, _) =>
        if author == aad.senderUserId && (role == Human || FromActiveHost(room, e))
        then (Some(event), offers) else (None, offers)
      case Proposal(id, _, action, requester, _, _) =>
        if id == aad.messageId
           && ((action == Queued && requester == aad.senderUserId) || (action != Queued && FromActiveHost(room, e)))
        then (Some(event), offers) else (None, offers)
      case Turn(_, _, _) => if FromActiveHost(room, e) then (Some(event), offers) else (None, offers)
      case Activity(_, _, _) => if FromActiveHost(room, e) then (Some(event), offers) else (None, offers)
      case HandoffOffered(offer) =>
        if FromActiveHost(room, e) && offer.fromUserId == e.senderUserId
        then (Some(event), Receive(offers, Offered(offer)).0) else (None, offers)
      case HandoffWanted(request, _) =>
        if request.candidate.userId == e.senderUserId && request.candidate.deviceId == e.senderDeviceId
           && Receive(offers, Wanted(request)).1
        then (Some(event), Receive(offers, Wanted(request)).0) else (None, offers)
      case HandoffAccepted(accepted, _) =>
        var message := Informed(accepted, e.senderUserId, e.createdAt);
        if Receive(offers, message).1 then (Some(event), Receive(offers, message).0) else (None, offers)
      case _ => (Some(event), offers)
  }

  predicate ValidOffers(offers: seq<Offer>) {
    |offers| <= MAX_HANDOFFS && forall i :: 0 <= i < |offers| ==> ValidOffer(offers[i])
  }

  lemma ReceiveKeepsValidOffers(offers: seq<Offer>, m: Message)
    requires ValidOffers(offers)
    requires m.Offered? ==> ValidOffer(m.offer)
    requires m.Wanted? ==> ValidCandidate(m.request.candidate)
    requires m.Informed? ==> ValidCandidate(m.acceptance.host)
    requires m.Committed? ==> ValidEnvelope(m.envelope)
    ensures ValidOffers(Receive(offers, m).0)
  {
  }

  lemma ReceiveKeepsBound(offers: seq<Offer>, m: Message)
    requires |offers| <= MAX_HANDOFFS
    ensures |Receive(offers, m).0| <= MAX_HANDOFFS
  {
  }

  lemma ProjectKeepsBound(room: Room, offers: seq<Offer>, e: Envelope, aad: Authenticated, p: Plaintext)
    requires |offers| <= MAX_HANDOFFS
    ensures |Project(room, offers, e, aad, p).1| <= MAX_HANDOFFS
  {
    hide Receive, Parse, BoundTo;
    if BoundTo(aad, e) && Parse(aad.kind, p).Some? {
      match Parse(aad.kind, p).value {
        case HandoffOffered(offer) => ReceiveKeepsBound(offers, Offered(offer));
        case HandoffWanted(request, _) => ReceiveKeepsBound(offers, Wanted(request));
        case HandoffAccepted(accepted, _) =>
          ReceiveKeepsBound(offers, Informed(accepted, e.senderUserId, e.createdAt));
        case _ =>
      }
    }
  }

  /** What is projected can be stored and read back, unless it is an unknown kind with
      a control character in it: only the printing side of the protocol forbids those. */
  lemma ProjectionIsStorable(room: Room, offers: seq<Offer>, e: Envelope, aad: Authenticated, p: Plaintext)
    requires ValidOffers(offers)
    requires Project(room, offers, e, aad, p).0.Some?
    ensures var (event, after) := Project(room, offers, e, aad, p);
            && ValidOffers(after)
            && (ValidHistoryEvent(event.value) <==> (event.value.Unsupported? ==> NoControl(aad.kind)))
            && (event.value.Unsupported? ==> event.value.kind == aad.kind && 0 < |aad.kind| <= 128)
  {
    var event := Parse(aad.kind, p).value;
    match event {
      case HandoffOffered(offer) => ReceiveKeepsValidOffers(offers, Offered(offer));
      case HandoffWanted(request, _) => ReceiveKeepsValidOffers(offers, Wanted(request));
      case HandoffAccepted(accepted, _) =>
        ReceiveKeepsValidOffers(offers, Informed(accepted, e.senderUserId, e.createdAt));
      case Unsupported(kind) => UnsupportedKindFits(kind);
      case _ =>
    }
  }

  lemma {:induction false} LengthAtMostUtf16(s: string)
    ensures |s| <= Utf16Length(s)
    ensures s != "" ==> Utf16Length(s) > 0
  {
    if s != "" {
      LengthAtMostUtf16(s[1..]);
    }
  }

  lemma UnsupportedKindFits(kind: string)
    requires Bounded(kind, 1, 128) || kind in OTHER_KINDS
    ensures 0 < |kind| <= 128
  {
    LengthAtMostUtf16(kind);
  }

  /** A host speaks for the room only while it is the active host: whatever a message
      contains, turns, activities, offers, assistant chat and queue decisions are
      projected only from the active host's device, and everything else only under
      the name of its authenticated sender. */
  lemma ProjectionRespectsAuthority(room: Room, offers: seq<Offer>, e: Envelope, aad: Authenticated, p: Plaintext)
    requires Project(room, offers, e, aad, p).0.Some?
    ensures BoundTo(aad, e)
    ensures match Project(room, offers, e, aad, p).0.value
            case Chat(author, role, _, _) => author == e.senderUserId && (role != Human ==> FromActiveHost(room, e))
            case Proposal(id, _, action, requester, _, _) =>
              id == e.id && if action == Queued then requester == e.senderUserId else FromActiveHost(room, e)
            case Turn(_, _, _) => FromActiveHost(room, e)
            case Activity(_, _, _) => FromActiveHost(room, e)
            case HandoffOffered(o) => FromActiveHost(room, e) && o.fromUserId == e.senderUserId
            case HandoffWanted(r, _) => r.candidate.userId == e.senderUserId && r.candidate.deviceId == e.senderDeviceId
            case HandoffAccepted(a, _) =>
              Lookup(offers, a.offerId).Some? && Lookup(offers, a.offerId).value.fromUserId == e.senderUserId
            case Presence(_, _, _, _) => false
            case Unsupported(kind) => kind == aad.kind
  {
  }

  /** The kind under which `send_codex_turn` queues a turn. */
  const CODEX_TURN_KIND := "codex.turn"

  /** Turns are queued under a kind that the parser does not know: a member that opens
      one projects a marker of an unsupported event, never the turn. */
  lemma QueuedTurnsArriveUnsupported(room: Room, offers: seq<Offer>, e: Envelope, aad: Authenticated, p: Plaintext)
    requires aad.kind == CODEX_TURN_KIND && BoundTo(aad, e) && !p.Malformed?
    ensures Project(room, offers, e, aad, p) == (Some(Unsupported(CODEX_TURN_KIND)), offers)
  {
    hide Project, Parse;
    TurnKindIsUnknown(aad.kind);
    AsciiLength(aad.kind);
    UnknownKindsAreMarked(room, offers, e, aad, p);
  }

  lemma UnknownKindsAreMarked(room: Room, offers: seq<Offer>, e: Envelope, aad: Authenticated, p: Plaintext)
    requires aad.kind !in PROJECTED_KINDS && aad.kind !in OTHER_KINDS && Bounded(aad.kind, 1, 128)
    requires BoundTo(aad, e) && !p.Malformed?
    ensures Project(room, offers, e, aad, p) == (Some(Unsupported(aad.kind)), offers)
  {
    hide Parse, PROJECTED_KINDS, OTHER_KINDS;
    UnknownKindIsUnsupported(aad.kind, p);
  }

  const PROJECTED_KINDS := {
    "chat.message", "codex.queue", "codex.event", "codex.activity", "room.host", "room.host.request",
    "room.host.accepted"}

  lemma UnknownKindIsUnsupported(kind: string, p: Plaintext)
    requires kind !in PROJECTED_KINDS && kind !in OTHER_KINDS && Bounded(kind, 1, 128) && !p.Malformed?
    ensures Parse(kind, p) == Some(Unsupported(kind))
  {
  }

  lemma TurnKindIsUnknown(kind: string)
    requires kind == CODEX_TURN_KIND
    ensures kind !in PROJECTED_KINDS && kind !in OTHER_KINDS
  {
    assert kind[6..] == "turn";
  }

  lemma {:induction false} AsciiLength(s: string)
    requires forall i :: 0 <= i < |s| ==> s[i] as int < 0x80
    ensures Utf16Length(s) == |s|
  {
    if s != "" {
      AsciiLength(s[1..]);
    }
  }
}
