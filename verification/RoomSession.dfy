/** The room session of `chat.rs`: what is in memory, what is on disk, and every
    method that moves an envelope id from one to the other.

    The environment decides each durable write and each call into MLS, and may end
    the process before or after any of them.  `recorded` and `calls` are history
    variables: the log behind the window, and the calls of `process_incoming`. */
module RoomSession {
  import opened Basics
  import opened Text
  import opened Handoff
  import opened ProcessedWindow
  import opened RoomState

  datatype ChatError =
    | InvalidMessage | InvalidEncryptedMessage | Mls | RelayFailed | RecoveryInterrupted | InvalidRecoveryState

  /** What becomes of one durable write. */
  datatype WriteFate = Written | Refused | DiesBefore | DiesAfter

  /** What becomes of one call of `process_incoming`; the ratchet may have moved in
      every case. */
  datatype MlsFate = MlsRefuses | MlsDies | NoApplication | Opened(aad: Authenticated, plaintext: Plaintext)

  datatype GroupSnapshot = GroupSnapshot(epoch: nat, hostLeaf: nat, hostDeviceId: string,
      hostTransferId: Option<string>)

  /** The environment's choices for one delivered envelope. */
  datatype Env = Env(begin: WriteFate, mls: MlsFate, finish: WriteFate, localTransferFound: bool,
                     snapshot: Option<GroupSnapshot>)

  datatype Effect = Done | Failed(error: ChatError) | Died

  datatype Outcome = Projected(event: Option<Event>) | Error(error: ChatError) | Dead

  /** One call of `process_incoming`, and where the log stood. */
  datatype Call = Call(id: string, at: nat)

  datatype Memory = Memory(recovery: Recovery, recorded: seq<string>)

  datatype Disk = Disk(saved: Option<Recovery>, savedRecorded: seq<string>, outbox: set<string>, calls: seq<Call>)

  datatype Node = Node(room: Room, memory: Memory, disk: Disk)

  type Sizer = Recovery -> nat

  // ---- Persisting ----

  /** Oldest history first, as few events as the bound allows (None: nothing fits). */
  function Fitting(size: Sizer, r: Recovery): Option<Recovery>
    decreases |r.history|
  {
    if size(r) <= MAX_RECOVERY_BYTES then Some(r)
    else if r.history == [] then None
    else Fitting(size, r.(history := r.history[1..]))
  }

  function Persist(size: Sizer, n: Node, fate: WriteFate): (Node, Effect) {
    match Fitting(size, n.memory.recovery)
    case None => (n.(memory := n.memory.(recovery := n.memory.recovery.(history := []))), Failed(InvalidRecoveryState))
    case Some(r) =>
      var trimmed := n.(memory := n.memory.(recovery := r));
      var written := trimmed.(disk := n.disk.(saved := Some(r), savedRecorded := n.memory.recorded));
      match fate
      case Written => (written, Done)
      case Refused => (trimmed, Failed(Mls))
      case DiesBefore => (trimmed, Died)
      case DiesAfter => (written, Died)
  }

  function WithoutOldest(r: Recovery, k: nat): Recovery
    requires k <= |r.history|
  {
    r.(history := r.history[k..])
  }

  /** Among the records that keep a suffix of the history and change nothing else,
      the one written is the longest that fits; nothing is written exactly when not
      even the empty history fits. */
  lemma {:induction false} FittingDropsFewest(size: Sizer, r: Recovery) returns (dropped: nat)
    ensures dropped <= |r.history|
    ensures forall k :: 0 <= k < dropped ==> size(WithoutOldest(r, k)) > 786_432
    ensures if size(WithoutOldest(r, dropped)) <= 786_432
            then Fitting(size, r) == Some(WithoutOldest(r, dropped))
            else Fitting(size, r).None? && dropped == |r.history|
    decreases |r.history|
  {
    dropped := 0;
    assert WithoutOldest(r, 0) == r;
    if size(r) > MAX_RECOVERY_BYTES && r.history != [] {
      var shorter := WithoutOldest(r, 1);
      dropped := FittingDropsFewest(size, shorter);
      dropped := dropped + 1;
      forall k | 0 < k <= |r.history|
        ensures WithoutOldest(r, k) == WithoutOldest(shorter, k - 1)
      {
        assert r.history[1..][k - 1..] == r.history[k..];
      }
    }
  }

  // ---- Marking ----

  function Mark(m: Memory, id: string): Memory {
    Memory(m.recovery.(processed := Remember(m.recovery.processed, id)), Record(m.recorded, id))
  }

  function Note(m: Memory, event: Option<Event>): Memory {
    if event.None? then m
    else m.(recovery := m.recovery.(history := RememberHistory(m.recovery.history, event.value)))
  }

  function WithPending(m: Memory, pending: Option<string>): Memory {
    m.(recovery := m.recovery.(pending := pending))
  }

  function WithOffers(m: Memory, offers: seq<Offer>): Memory {
    m.(recovery := m.recovery.(offers := offers))
  }

  function Begin(size: Sizer, n: Node, id: string, fate: WriteFate): (Node, Effect) {
    if n.memory.recovery.pending.Some? then (n, Failed(RecoveryInterrupted))
    else Persist(size, n.(memory := WithPending(n.memory, Some(id))), fate)
  }

  function Finish(size: Sizer, n: Node, id: string, event: Option<Event>, fate: WriteFate): (Node, Effect) {
    if n.memory.recovery.pending != Some(id) then (n, Failed(RecoveryInterrupted))
    else Persist(size, n.(memory := WithPending(Note(Mark(n.memory, id), event), None)), fate)
  }

  function CallMls(n: Node, id: string): Node {
    n.(disk := n.disk.(calls := n.disk.calls + [Call(id, |n.memory.recorded|)]))
  }

  predicate ValidAcceptance(a: Acceptance) {
    Bounded(a.offerId, 1, 160) && ValidCandidate(a.host) && a.committedEpoch <= MAX_SAFE_INTEGER
  }

  function AcceptedEvent(a: Acceptance): Event {
    HandoffAccepted(a, ValidAcceptance(a))
  }

  /** The event of an authoritative handoff commit, when the group state, the
      authorization and the member's own offer all agree with it. */
  function HostTransfer(n: Node, e: Envelope, snapshot: Option<GroupSnapshot>): (Node, Result<Event, ChatError>) {
    if e.authorization.None? then (n, Err(InvalidEncryptedMessage))
    else if snapshot.None? then (n, Err(Mls))
    else
      var auth, state := e.authorization.value, snapshot.value;
      var (offers, ok) := Receive(n.memory.recovery.offers, Committed(e));
      if state.epoch != e.epochHint + 1 || state.hostLeaf != auth.next.leaf
         || state.hostDeviceId != auth.next.deviceId || state.hostTransferId != Some(auth.transferId) || !ok
      then (n, Err(InvalidEncryptedMessage))
      else (n.(memory := WithOffers(n.memory, offers)),
            Ok(AcceptedEvent(Acceptance(auth.transferId, auth.next, state.epoch))))
  }

  function Concluded(step: (Node, Effect), event: Option<Event>): (Node, Outcome) {
    match step.1
    case Done => (step.0, Projected(event))
    case Failed(error) => (step.0, Error(error))
    case Died => (step.0, Dead)
  }

  // ---- Opening one envelope ----

  /** What follows `process_incoming` for a commit and for an application message. */
  function AfterMls(size: Sizer, n: Node, e: Envelope, env: Env): (Node, Outcome) {
    if env.mls.MlsDies? then (n, Dead)
    else if env.mls.MlsRefuses? then (n, Error(Mls))
    else if e.messageType == Commit then
      if e.hostHandoff then
        var (m, transfer) := HostTransfer(n, e, env.snapshot);
        if transfer.Err? then (m, Error(transfer.error))
        else Concluded(Finish(size, m, e.id, Some(transfer.value), env.finish), Some(transfer.value))
      else Concluded(Finish(size, n, e.id, None, env.finish), None)
    else if env.mls.NoApplication? then Concluded(Finish(size, n, e.id, None, env.finish), None)
    else
      var (event, offers) := Project(n.room, n.memory.recovery.offers, e, env.mls.aad, env.mls.plaintext);
      if event.None? then (n, Error(InvalidEncryptedMessage))
      else Concluded(Finish(size, n.(memory := WithOffers(n.memory, offers)), e.id, event, env.finish), event)
  }

  /** The client's own envelope, come back from the relay. */
  function OpenOwn(size: Sizer, n: Node, e: Envelope, env: Env): (Node, Outcome) {
    if e.hostHandoff then
      if !env.localTransferFound then (n, Error(Mls))
      else
        var (m, transfer) := HostTransfer(n, e, env.snapshot);
        if transfer.Err? then (m, Error(transfer.error))
        else Concluded(Persist(size, m.(memory := Note(Mark(m.memory, e.id), Some(transfer.value))), env.finish),
                       Some(transfer.value))
    else Concluded(Persist(size, n.(memory := Mark(n.memory, e.id)), env.finish), None)
  }

  predicate Own(n: Node, e: Envelope) {
    e.senderUserId == n.memory.recovery.scope.userId && e.senderDeviceId == n.memory.recovery.scope.deviceId
  }

  /** `open_room_event`. */
  function Open(size: Sizer, n: Node, e: Envelope, env: Env): (Node, Outcome) {
    var scope := n.memory.recovery.scope;
    if e.teamId != scope.teamId || e.roomId != scope.roomId then (n, Projected(None))
    else if e.id in n.memory.recovery.processed then (n, Projected(None))
    else if !ValidEnvelopeId(e.id) then (n, Error(InvalidEncryptedMessage))
    else if Own(n, e) then OpenOwn(size, n, e, env)
    else if e.ciphertext.None? then (n, Error(InvalidEncryptedMessage))
    else
      var (begun, effect) := Begin(size, n, e.id, env.begin);
      match effect
      case Failed(error) => (begun, Error(error))
      case Died => (begun, Dead)
      case Done => AfterMls(size, CallMls(begun, e.id), e, env)
  }

  // ---- Queueing one local record ----

  /** `queue_projected_event`: the engine stores the ciphertext under the id, then the
      session marks and stores.  `engine` is the fate of the engine's write. */
  function Queue(size: Sizer, n: Node, id: string, event: Event, engine: WriteFate, save: WriteFate): (Node, Outcome) {
    var queued := n.(disk := n.disk.(outbox := n.disk.outbox + {id}));
    if !ValidHistoryEvent(event) then (n, Error(InvalidMessage))
    else if !ValidToken(id) || id in n.disk.outbox || engine.Refused? then (n, Error(Mls))
    else if engine.DiesBefore? then (n, Dead)
    else if engine.DiesAfter? then (queued, Dead)
    else Concluded(Persist(size, queued.(memory := Note(Mark(queued.memory, id), Some(event))), save), Some(event))
  }

  predicate IsActiveHost(n: Node) {
    && n.room.hostUserId == Some(n.memory.recovery.scope.userId)
    && n.room.activeHostDeviceId == Some(n.memory.recovery.scope.deviceId)
    && n.room.hostActive
  }

  /** `publish_handoff_offer`, up to the publication: the offer enters the local state
      before the engine has seen it and before it is validated. */
  function OfferHandoff(
      size: Sizer, n: Node, id: string, offer: Offer, engine: WriteFate, save: WriteFate): (Node, Outcome) {
    if !IsActiveHost(n) || offer.id != id || offer.fromUserId != n.memory.recovery.scope.userId
    then (n, Error(InvalidMessage))
    else
      var clean := FreshOffer(offer);
      var offered := n.(memory := WithOffers(n.memory, Receive(n.memory.recovery.offers, Offered(clean)).0));
      Queue(size, offered, id, HandoffOffered(clean), engine, save)
  }

  function FreshOffer(offer: Offer): Offer {
    offer.(status := Available, candidateUserId := None, candidateDeviceId := None, candidateLeaf := None)
  }

  /** What the group state says of the client's own leaf: it cannot be read, it is not in
      the roster, or it is there under this name. */
  datatype Roster = Unreadable | NotListed | Listed(me: Candidate)

  predicate ListedAs(roster: Roster, scope: Scope): (listed: bool)
    ensures listed ==> roster.Listed?
  {
    roster.Listed? && roster.me.userId == scope.userId && roster.me.deviceId == scope.deviceId
  }

  function WantedEvent(request: Request): Event {
    HandoffWanted(request, Bounded(request.offerId, 1, 160) && ValidCandidate(request.candidate))
  }

  /** `validate_handoff_request`. */
  function RequestRefusal(n: Node, offerId: string, roster: Roster): (error: Option<ChatError>)
    ensures error.None? ==> roster.Listed?
  {
    if IsActiveHost(n) || Lookup(n.memory.recovery.offers, offerId).None? then Some(InvalidMessage)
    else if roster.Unreadable? then Some(Mls)
    else if !ListedAs(roster, n.memory.recovery.scope) then Some(InvalidMessage)
    else None
  }

  /** `request_handoff`, up to the publication. */
  function RequestHandoff(size: Sizer, n: Node, offerId: string, id: string, roster: Roster,
                          engine: WriteFate, save: WriteFate): (Node, Outcome)
  {
    match RequestRefusal(n, offerId, roster)
    case Some(error) => (n, Error(error))
    case None =>
      var request := Request(offerId, roster.me);
      var (offers, ok) := Receive(n.memory.recovery.offers, Wanted(request));
      if !ok then (n, Error(InvalidMessage))
      else Queue(size, n.(memory := WithOffers(n.memory, offers)), id, WantedEvent(request), engine, save)
  }

  /** `save_codex_thread_id`. */
  function SaveThread(size: Sizer, n: Node, threadId: string, fate: WriteFate): (Node, Outcome) {
    if !ValidThreadId(threadId) then (n, Error(InvalidRecoveryState))
    else
      var m := n.memory.(recovery := n.memory.recovery.(codexThreadId := Some(threadId)));
      Concluded(Persist(size, n.(memory := m), fate), None)
  }

  // ---- Server messages ----

  datatype ServerMessage =
    | PresenceChanged(teamId: string, roomId: string, userId: string, deviceId: string, displayName: string,
        online: bool)
    | MlsMessage(envelope: Envelope)
    | RoomUpdated(teamId: string, roomId: string, room: Room)
    | OtherMessage

  function Deliver(size: Sizer, n: Node, m: ServerMessage, env: Env): (Node, Outcome) {
    var scope := n.memory.recovery.scope;
    match m
    case PresenceChanged(team, room, user, device, name, online) =>
      if team == scope.teamId && room == scope.roomId
      then (n, Projected(Some(Presence(name, device, online,
                                       n.room.hostUserId == Some(user) && n.room.activeHostDeviceId == Some(device)))))
      else (n, Projected(None))
    case MlsMessage(e) => Open(size, n, e, env)
    case RoomUpdated(team, room, next) =>
      (if team == scope.teamId && room == scope.roomId then n.(room := next) else n, Projected(None))
    case OtherMessage => (n, Projected(None))
  }

  /** `project_received`: the first error ends it, and the messages behind it are dropped. */
  function DeliverAll(size: Sizer, n: Node, messages: seq<ServerMessage>, envs: seq<Env>, projected: seq<Event>)
    : (Node, Result<seq<Event>, Outcome>)
    requires |envs| == |messages|
    decreases |messages|
  {
    if messages == [] then (n, Ok(projected))
    else
      var (m, outcome) := Deliver(size, n, messages[0], envs[0]);
      if !outcome.Projected? then (m, Err(outcome))
      else DeliverAll(size, m, messages[1..], envs[1..],
                      if outcome.event.Some? then projected + [outcome.event.value] else projected)
  }

  // ---- Loading ----

  /** `ChatRoomSession::new`, on what the disk holds. */
  function Load(size: Sizer, disk: Disk, scope: Scope): Result<Memory, ChatError> {
    match disk.saved
    case None => Ok(Memory(EmptyRecovery(scope), []))
    case Some(r) =>
      if size(r) > MAX_RECOVERY_BYTES || !ValidRecovery(r, scope) then Err(InvalidRecoveryState)
      else if r.pending.Some? then Err(RecoveryInterrupted)
      else Ok(Memory(r, disk.savedRecorded))
  }

  // ---- The objects ----

  /** The durable side: the MLS engine and the store in the same database. */
  class MlsClientService {
    var saved: Option<Recovery>
    var outbox: set<string>
    ghost var savedRecorded: seq<string>
    ghost var calls: seq<Call>

    ghost function DiskState(): Disk reads this {
      Disk(saved, savedRecorded, outbox, calls)
    }

    constructor ()
      ensures DiskState() == Disk(None, [], {}, [])
    {
      saved, outbox, savedRecorded, calls := None, {}, [], [];
    }

    method SaveRoomClientState(r: Recovery, fate: WriteFate, ghost recorded: seq<string>) returns (effect: Effect)
      modifies this
      ensures DiskState() == if fate.Written? || fate.DiesAfter?
                        then old(DiskState()).(saved := Some(r), savedRecorded := recorded)
                        else old(DiskState())
      ensures effect == match fate case Written => Done case Refused => Failed(Mls) case _ => Died
    {
      if fate.Written? || fate.DiesAfter? {
        saved := Some(r);
        savedRecorded := recorded;
      }
      effect := match fate case Written => Done case Refused => Failed(Mls) case _ => Died;
    }

    method ProcessIncoming(id: string, ghost recorded: seq<string>)
      modifies this`calls
      ensures calls == old(calls) + [Call(id, |recorded|)]
    {
      calls := calls + [Call(id, |recorded|)];
    }

    method QueueApplication(id: string, fate: WriteFate) returns (effect: Effect)
      modifies this`outbox
      ensures if !ValidToken(id) || id in old(outbox) || fate.Refused?
              then effect == Failed(Mls) && outbox == old(outbox)
              else if fate.DiesBefore? then effect == Died && outbox == old(outbox)
              else outbox == old(outbox) + {id} && effect == if fate.DiesAfter? then Died else Done
    {
      if !ValidToken(id) || id in outbox || fate.Refused? {
        return Failed(Mls);
      }
      if fate.DiesBefore? {
        return Died;
      }
      outbox := outbox + {id};
      effect := if fate.DiesAfter? then Died else Done;
    }
  }

  class ChatRoomSession {
    const size: Sizer
    const scope: Scope
    const mls: MlsClientService
    const handoffs: HandoffState
    var room: Room
    var processedEnvelopeIds: seq<string>
    var history: seq<Event>
    var pendingEnvelopeId: Option<string>
    var codexThreadId: Option<string>
    ghost var recorded: seq<string>

    function RecoveryRecord(): Recovery reads this, handoffs {
      Recovery(scope, processedEnvelopeIds, history, pendingEnvelopeId, codexThreadId, handoffs.offers)
    }

    ghost function MemoryState(): Memory reads this, handoffs {
      Memory(RecoveryRecord(), recorded)
    }

    ghost function State(): Node reads this, handoffs, mls {
      Node(room, MemoryState(), mls.DiskState())
    }

    /** Starts from a record that `Load` accepted. */
    constructor (size: Sizer, mls: MlsClientService, room: Room, memory: Memory)
      ensures this.size == size && this.mls == mls && fresh(handoffs)
      ensures scope == memory.recovery.scope
      ensures State() == Node(room, memory, mls.DiskState())
    {
      this.size, this.mls, this.room, scope := size, mls, room, memory.recovery.scope;
      processedEnvelopeIds, history := memory.recovery.processed, memory.recovery.history;
      pendingEnvelopeId, codexThreadId := memory.recovery.pending, memory.recovery.codexThreadId;
      recorded := memory.recorded;
      handoffs := new HandoffState.Restored(memory.recovery.offers);
    }

    method RememberProcessed(id: string)
      modifies this`processedEnvelopeIds, this`recorded
      ensures MemoryState() == Mark(old(MemoryState()), id)
    {
      recorded := Record(recorded, id);
      if id in processedEnvelopeIds {
        return;
      }
      processedEnvelopeIds := processedEnvelopeIds + [id];
      if |processedEnvelopeIds| > MAX_PROCESSED {
        processedEnvelopeIds := processedEnvelopeIds[1..];
      }
    }

    method RememberHistory(event: Event)
      modifies this`history
      ensures MemoryState() == Note(old(MemoryState()), Some(event))
    {
      if event.Presence? {
        return;
      }
      history := history + [event];
      if |history| > MAX_HISTORY {
        history := history[1..];
      }
    }

    method PersistRecovery(fate: WriteFate) returns (effect: Effect)
      modifies this`history, mls
      ensures (State(), effect) == Persist(size, old(State()), fate)
    {
      ghost var start := RecoveryRecord();
      while true
        invariant RecoveryRecord() == start.(history := history)
        invariant Fitting(size, RecoveryRecord()) == Fitting(size, start)
        invariant mls.DiskState() == old(mls.DiskState())
        invariant unchanged(handoffs)
        decreases |history|
      {
        if size(RecoveryRecord()) <= MAX_RECOVERY_BYTES {
          effect := mls.SaveRoomClientState(RecoveryRecord(), fate, recorded);
          return;
        }
        if history == [] {
          return Failed(InvalidRecoveryState);
        }
        history := history[1..];
      }
    }

    method BeginIncoming(id: string, fate: WriteFate) returns (effect: Effect)
      modifies this`pendingEnvelopeId, this`history, mls
      ensures (State(), effect) == Begin(size, old(State()), id, fate)
    {
      if pendingEnvelopeId.Some? {
        return Failed(RecoveryInterrupted);
      }
      pendingEnvelopeId := Some(id);
      effect := PersistRecovery(fate);
    }

    method FinishIncoming(id: string, event: Option<Event>, fate: WriteFate) returns (effect: Effect)
      modifies this`processedEnvelopeIds, this`recorded, this`pendingEnvelopeId, this`history, mls
      ensures (State(), effect) == Finish(size, old(State()), id, event, fate)
    {
      if pendingEnvelopeId != Some(id) {
        return Failed(RecoveryInterrupted);
      }
      RememberProcessed(id);
      if event.Some? {
        RememberHistory(event.value);
      }
      pendingEnvelopeId := None;
      effect := PersistRecovery(fate);
    }

    method RecoverHostTransfer(e: Envelope, snapshot: Option<GroupSnapshot>) returns (r: Result<Event, ChatError>)
      modifies handoffs
      ensures (State(), r) == HostTransfer(old(State()), e, snapshot)
    {
      if e.authorization.None? {
        return Err(InvalidEncryptedMessage);
      }
      if snapshot.None? {
        return Err(Mls);
      }
      var auth, state := e.authorization.value, snapshot.value;
      if state.epoch != e.epochHint + 1 || state.hostLeaf != auth.next.leaf
         || state.hostDeviceId != auth.next.deviceId || state.hostTransferId != Some(auth.transferId) {
        return Err(InvalidEncryptedMessage);
      }
      var ok := handoffs.AcceptCommitted(e);
      if !ok {
        RefusedChangesNothing(old(handoffs.offers), Committed(e));
        return Err(InvalidEncryptedMessage);
      }
      r := Ok(AcceptedEvent(Acceptance(auth.transferId, auth.next, state.epoch)));
    }

    method QueueProjectedEvent(id: string, event: Event, engine: WriteFate, save: WriteFate) returns (o: Outcome)
      modifies this, mls
      ensures (State(), o) == Queue(size, old(State()), id, event, engine, save)
    {
      if !ValidHistoryEvent(event) {
        return Error(InvalidMessage);
      }
      var queued := mls.QueueApplication(id, engine);
      if queued.Failed? {
        return Error(queued.error);
      }
      if queued.Died? {
        return Dead;
      }
      RememberProcessed(id);
      RememberHistory(event);
      var effect := PersistRecovery(save);
      o := match effect case Done => Projected(Some(event)) case Failed(error) => Error(error) case Died => Dead;
    }

    method PublishHandoffOffer(id: string, offer: Offer, engine: WriteFate, save: WriteFate) returns (o: Outcome)
      modifies this, handoffs, mls
      ensures (State(), o) == OfferHandoff(size, old(State()), id, offer, engine, save)
    {
      var activeHost := room.hostUserId == Some(scope.userId) && room.activeHostDeviceId == Some(scope.deviceId)
                        && room.hostActive;
      if !activeHost || offer.id != id || offer.fromUserId != scope.userId {
        return Error(InvalidMessage);
      }
      handoffs.RememberOffer(FreshOffer(offer));
      o := QueueProjectedEvent(id, HandoffOffered(FreshOffer(offer)), engine, save);
    }

    method ValidateHandoffRequest(offerId: string, roster: Roster) returns (error: Option<ChatError>)
      ensures error == RequestRefusal(State(), offerId, roster)
    {
      var activeHost := room.hostUserId == Some(scope.userId) && room.activeHostDeviceId == Some(scope.deviceId)
                        && room.hostActive;
      if activeHost || Lookup(handoffs.offers, offerId).None? {
        return Some(InvalidMessage);
      }
      if roster.Unreadable? {
        return Some(Mls);
      }
      if !ListedAs(roster, scope) {
        return Some(InvalidMessage);
      }
      return None;
    }

    method RequestHandoffFor(offerId: string, id: string, roster: Roster, engine: WriteFate, save: WriteFate)
      returns (o: Outcome)
      modifies this, handoffs, mls
      ensures (State(), o) == RequestHandoff(size, old(State()), offerId, id, roster, engine, save)
    {
      hide Queue, WantedEvent, Handoff.Receive, RequestRefusal;
      var error := ValidateHandoffRequest(offerId, roster);
      if error.Some? {
        return Error(error.value);
      }
      var request := Request(offerId, roster.me);
      var ok := handoffs.RequestCandidate(request);
      if !ok {
        RefusedChangesNothing(old(handoffs.offers), Wanted(request));
        return Error(InvalidMessage);
      }
      o := QueueProjectedEvent(id, WantedEvent(request), engine, save);
    }

    method SaveCodexThreadId(threadId: string, fate: WriteFate) returns (o: Outcome)
      modifies this`codexThreadId, this`history, mls
      ensures (State(), o) == SaveThread(size, old(State()), threadId, fate)
    {
      if !ValidThreadId(threadId) {
        return Error(InvalidRecoveryState);
      }
      codexThreadId := Some(threadId);
      var effect := PersistRecovery(fate);
      o := match effect case Done => Projected(None) case Failed(error) => Error(error) case Died => Dead;
    }

    method OpenRoomEvent(e: Envelope, env: Env) returns (o: Outcome)
      modifies this, handoffs, mls
      ensures (State(), o) == Open(size, old(State()), e, env)
    {
      if e.teamId != scope.teamId || e.roomId != scope.roomId {
        return Projected(None);
      }
      if e.id in processedEnvelopeIds {
        return Projected(None);
      }
      if !ValidEnvelopeId(e.id) {
        return Error(InvalidEncryptedMessage);
      }
      if e.senderUserId == scope.userId && e.senderDeviceId == scope.deviceId {
        o := OpenOwnEnvelope(e, env);
        return;
      }
      if e.ciphertext.None? {
        return Error(InvalidEncryptedMessage);
      }
      var begun := BeginIncoming(e.id, env.begin);
      if begun.Failed? {
        return Error(begun.error);
      }
      if begun.Died? {
        return Dead;
      }
      mls.ProcessIncoming(e.id, recorded);
      o := ProjectOpened(e, env);
    }

    method OpenOwnEnvelope(e: Envelope, env: Env) returns (o: Outcome)
      modifies this, handoffs, mls
      ensures (State(), o) == OpenOwn(size, old(State()), e, env)
    {
      var event: Option<Event> := None;
      if e.hostHandoff {
        if !env.localTransferFound {
          return Error(Mls);
        }
        var transfer := RecoverHostTransfer(e, env.snapshot);
        if transfer.Err? {
          return Error(transfer.error);
        }
        event := Some(transfer.value);
      }
      RememberProcessed(e.id);
      if event.Some? {
        RememberHistory(event.value);
      }
      var effect := PersistRecovery(env.finish);
      o := match effect case Done => Projected(event) case Failed(error) => Error(error) case Died => Dead;
    }

    method ProjectOpened(e: Envelope, env: Env) returns (o: Outcome)
      modifies this, handoffs, mls
      ensures (State(), o) == AfterMls(size, old(State()), e, env)
    {
      if env.mls.MlsDies? {
        return Dead;
      }
      if env.mls.MlsRefuses? {
        return Error(Mls);
      }
      var event: Option<Event> := None;
      if e.messageType == Commit {
        if e.hostHandoff {
          var transfer := RecoverHostTransfer(e, env.snapshot);
          if transfer.Err? {
            return Error(transfer.error);
          }
          event := Some(transfer.value);
        }
      } else if env.mls.Opened? {
        event := ProjectApplication(e, env.mls.aad, env.mls.plaintext);
        if event.None? {
          return Error(InvalidEncryptedMessage);
        }
      }
      var effect := FinishIncoming(e.id, event, env.finish);
      o := match effect case Done => Projected(event) case Failed(error) => Error(error) case Died => Dead;
    }

    method ProjectApplication(e: Envelope, aad: Authenticated, p: Plaintext) returns (event: Option<Event>)
      modifies handoffs
      ensures (event, handoffs.offers) == Project(room, old(handoffs.offers), e, aad, p)
    {
      if !BoundTo(aad, e) {
        return None;
      }
      event := Parse(aad.kind, p);
      if event.None? {
        return;
      }
      var authorized := true;
      match event.value {
        case Chat(author, role, _, _) =>
          authorized := author == aad.senderUserId && (role == Human || FromActiveHost(room, e));
        case Proposal(id, _, action, requester, _, _) =>
          authorized := id == aad.messageId
            && ((action == Queued && requester == aad.senderUserId) || (action != Queued && FromActiveHost(room, e)));
        case Turn(_, _, _) => authorized := FromActiveHost(room, e);
        case Activity(_, _, _) => authorized := FromActiveHost(room, e);
        case HandoffOffered(offer) =>
          authorized := FromActiveHost(room, e) && offer.fromUserId == e.senderUserId;
          if authorized {
            handoffs.RememberOffer(offer);
          }
        case HandoffWanted(request, _) =>
          authorized := request.candidate.userId == e.senderUserId && request.candidate.deviceId == e.senderDeviceId;
          if authorized {
            authorized := handoffs.RequestCandidate(request);
          }
          RefusedChangesNothing(old(handoffs.offers), Wanted(request));
        case HandoffAccepted(accepted, _) =>
          authorized := handoffs.AcceptInformational(accepted, e.senderUserId, e.createdAt);
          RefusedChangesNothing(old(handoffs.offers), Informed(accepted, e.senderUserId, e.createdAt));
        case _ =>
      }
      if !authorized {
        event := None;
      }
    }

    method DeliverMessage(m: ServerMessage, env: Env) returns (o: Outcome)
      modifies this, handoffs, mls
      ensures (State(), o) == Deliver(size, old(State()), m, env)
    {
      match m
      case PresenceChanged(team, roomId, user, device, name, online) =>
        o := Projected(None);
        if team == scope.teamId && roomId == scope.roomId {
          var activeHost := room.hostUserId == Some(user) && room.activeHostDeviceId == Some(device);
          o := Projected(Some(Presence(name, device, online, activeHost)));
        }
      case MlsMessage(e) => o := OpenRoomEvent(e, env);
      case RoomUpdated(team, roomId, next) =>
        if team == scope.teamId && roomId == scope.roomId {
          room := next;
        }
        o := Projected(None);
      case OtherMessage => o := Projected(None);
    }

    method ProjectReceived(messages: seq<ServerMessage>, envs: seq<Env>) returns (r: Result<seq<Event>, Outcome>)
      requires |envs| == |messages|
      modifies this, handoffs, mls
      ensures (State(), r) == DeliverAll(size, old(State()), messages, envs, [])
    {
      var projected := [];
      assert messages[0..] == messages && envs[0..] == envs;
      for i := 0 to |messages|
        invariant DeliverAll(size, State(), messages[i..], envs[i..], projected)
                  == DeliverAll(size, old(State()), messages, envs, [])
      {
        assert messages[i..][0] == messages[i] && messages[i..][1..] == messages[i + 1..];
        assert envs[i..][0] == envs[i] && envs[i..][1..] == envs[i + 1..];
        var outcome := DeliverMessage(messages[i], envs[i]);
        if !outcome.Projected? {
          return Err(outcome);
        }
        if outcome.event.Some? {
          projected := projected + [outcome.event.value];
        }
      }
      r := Ok(projected);
    }

    /** `publish_queued_application`: what arrived while waiting for the acknowledgement
        is projected only when the publication succeeded. */
    method PublishQueuedApplication(published: bool, received: seq<ServerMessage>, envs: seq<Env>)
      returns (r: Result<seq<Event>, Outcome>)
      requires |envs| == |received|
      modifies this, handoffs, mls
      ensures (State(), r) == if published then DeliverAll(size, old(State()), received, envs, [])
                              else (old(State()), Err(Error(RelayFailed)))
    {
      if !published {
        return Err(Error(RelayFailed));
      }
      r := ProjectReceived(received, envs);
    }
  }

  lemma RefusedChangesNothing(offers: seq<Offer>, m: Message)
    ensures !Receive(offers, m).1 ==> Receive(offers, m).0 == offers
  {
  }
}
