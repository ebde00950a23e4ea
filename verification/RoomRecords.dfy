/** Which recovery records a run leaves on disk, and which of them the next start loads. */
module RoomRecords {
  import opened Basics
  import opened Text
  import opened Handoff
  import opened ProcessedWindow
  import opened RoomState
  import opened RoomSession
  import opened RoomRuns

  // ---- What is kept ----

  /** What the wire validation and the engine guarantee about the inputs of a step, and
      what the client's own offers and requests must be.  Nothing is asked of the kind of
      an opened message: only its sender looks at the characters in it. */
  predicate Checked(scope: Scope, s: Step) {
    match s
    case Receive(MlsMessage(e), env) =>
      && ValidEnvelope(e)
      && (env.snapshot.Some? ==> env.snapshot.value.epoch <= MAX_SAFE_INTEGER)
    case Offer(_, offer, _, _) => ValidOffer(FreshOffer(offer))
    case Request(_, _, roster, _, _) => roster.Listed? ==> ValidCandidate(roster.me)
    case _ => true
  }

  /** The event can be read back, but perhaps for a control character in an unknown kind. */
  predicate Readable(e: Event) {
    if e.Unsupported? then 0 < |e.kind| <= 128 else ValidHistoryEvent(e)
  }

  predicate CleanKind(e: Event) { e.Unsupported? ==> NoControl(e.kind) }

  predicate ValidHistory(history: seq<Event>) {
    forall i :: 0 <= i < |history| ==> ValidHistoryEvent(history[i])
  }

  /** What every record is, and what it is besides when its inputs were checked. */
  predicate Sound(r: Recovery, scope: Scope, checked: bool) {
    && ValidFrame(r, scope)
    && (checked ==>
          && (forall i :: 0 <= i < |r.offers| ==> ValidOffer(r.offers[i]))
          && (forall i :: 0 <= i < |r.history| ==> Readable(r.history[i])))
  }

  ghost predicate Storable(size: Sizer, scope: Scope, n: Node, running: bool, checked: bool) {
    && (running ==> Sound(n.memory.recovery, scope, checked))
    && (n.disk.saved.Some? ==>
          Sound(n.disk.saved.value, scope, checked) && size(n.disk.saved.value) <= MAX_RECOVERY_BYTES)
  }

  lemma ValidIsSound(r: Recovery, scope: Scope, checked: bool)
    requires ValidRecovery(r, scope)
    ensures Sound(r, scope, checked)
  {
  }

  lemma PersistStores(size: Sizer, scope: Scope, n: Node, fate: WriteFate, checked: bool)
    requires Storable(size, scope, n, true, checked)
    ensures Storable(size, scope, Persist(size, n, fate).0, !Persist(size, n, fate).1.Died?, checked)
  {
    hide Readable, ValidOffer, ValidEnvelopeId, ValidThreadId;
    FittingKeeps(size, n.memory.recovery);
  }

  lemma MarkStores(size: Sizer, scope: Scope, n: Node, id: string, checked: bool)
    requires Storable(size, scope, n, true, checked) && ValidEnvelopeId(id)
    ensures Storable(size, scope, n.(memory := Mark(n.memory, id)), true, checked)
  {
    hide Readable, ValidOffer, ValidEnvelopeId, ValidThreadId;
    var window := n.memory.recovery.processed;
    if id !in window {
      DistinctAppend(window, id);
    }
  }

  lemma NoteStores(size: Sizer, scope: Scope, n: Node, event: Option<Event>, checked: bool)
    requires Storable(size, scope, n, true, checked)
    requires checked && event.Some? ==> Readable(event.value)
    ensures Storable(size, scope, n.(memory := Note(n.memory, event)), true, checked)
  {
    hide Readable, ValidOffer, ValidEnvelopeId, ValidThreadId;
  }

  lemma OffersStore(size: Sizer, scope: Scope, n: Node, offers: seq<Handoff.Offer>, checked: bool)
    requires Storable(size, scope, n, true, checked)
    requires |offers| <= MAX_HANDOFFS && (checked ==> ValidOffers(offers))
    ensures Storable(size, scope, n.(memory := WithOffers(n.memory, offers)), true, checked)
  {
  }

  lemma PendingStores(size: Sizer, scope: Scope, n: Node, pending: Option<string>, checked: bool)
    requires Storable(size, scope, n, true, checked)
    requires pending.Some? ==> ValidEnvelopeId(pending.value)
    ensures Storable(size, scope, n.(memory := WithPending(n.memory, pending)), true, checked)
  {
  }

  lemma StorableDead(size: Sizer, scope: Scope, n: Node, checked: bool)
    ensures Storable(size, scope, n, true, checked) ==> Storable(size, scope, n, false, checked)
  {
  }

  // ---- Every step keeps it ----

  lemma FinishStores(
      size: Sizer, scope: Scope, n: Node, id: string, event: Option<Event>, fate: WriteFate, checked: bool)
    requires Storable(size, scope, n, true, checked) && ValidEnvelopeId(id)
    requires checked && event.Some? ==> Readable(event.value)
    ensures var (m, effect) := Finish(size, n, id, event, fate); Storable(size, scope, m, !effect.Died?, checked)
  {
    hide Readable, Sound, ValidEnvelopeId, Persist, Storable;
    MarkStores(size, scope, n, id, checked);
    var marked := n.(memory := Mark(n.memory, id));
    NoteStores(size, scope, marked, event, checked);
    var noted := marked.(memory := Note(marked.memory, event));
    PendingStores(size, scope, noted, None, checked);
    PersistStores(size, scope, noted.(memory := WithPending(noted.memory, None)), fate, checked);
  }

  lemma TransferStores(size: Sizer, scope: Scope, n: Node, e: Envelope, env: Env, checked: bool)
    requires Storable(size, scope, n, true, checked) && (checked ==> Checked(scope, Receive(MlsMessage(e), env)))
    ensures var (m, transfer) := HostTransfer(n, e, env.snapshot);
            Storable(size, scope, m, true, checked) && (checked && transfer.Ok? ==> Readable(transfer.value))
  {
    hide Handoff.Receive, ValidOffer;
    ReceiveKeepsBound(n.memory.recovery.offers, Committed(e));
    if checked { ReceiveKeepsValidOffers(n.memory.recovery.offers, Committed(e)); }
  }

  lemma ProjectStores(size: Sizer, scope: Scope, n: Node, e: Envelope, aad: Authenticated, p: Plaintext, checked: bool)
    requires Storable(size, scope, n, true, checked)
    ensures var (event, offers) := Project(n.room, n.memory.recovery.offers, e, aad, p);
            event.Some? ==>
              && Storable(size, scope, n.(memory := WithOffers(n.memory, offers)), true, checked)
              && (checked ==> Readable(event.value))
  {
    hide Project, ValidOffer;
    var (event, offers) := Project(n.room, n.memory.recovery.offers, e, aad, p);
    ProjectKeepsBound(n.room, n.memory.recovery.offers, e, aad, p);
    if event.Some? {
      if checked { ProjectionIsStorable(n.room, n.memory.recovery.offers, e, aad, p); }
      OffersStore(size, scope, n, offers, checked);
    }
  }

  lemma AfterMlsStores(size: Sizer, scope: Scope, n: Node, e: Envelope, env: Env, checked: bool)
    requires Storable(size, scope, n, true, checked) && ValidEnvelopeId(e.id)
    requires checked ==> Checked(scope, Receive(MlsMessage(e), env))
    ensures var (m, o) := AfterMls(size, n, e, env); Storable(size, scope, m, !o.Dead?, checked)
  {
    hide HostTransfer, Project, Finish, Sound, Readable, ValidEnvelopeId, Checked;
    FinishStores(size, scope, n, e.id, None, env.finish, checked);
    TransferStores(size, scope, n, e, env, checked);
    var (m, transfer) := HostTransfer(n, e, env.snapshot);
    if transfer.Ok? {
      FinishStores(size, scope, m, e.id, Some(transfer.value), env.finish, checked);
    }
    if env.mls.Opened? {
      ProjectStores(size, scope, n, e, env.mls.aad, env.mls.plaintext, checked);
      var (event, offers) := Project(n.room, n.memory.recovery.offers, e, env.mls.aad, env.mls.plaintext);
      if event.Some? {
        FinishStores(size, scope, n.(memory := WithOffers(n.memory, offers)), e.id, event, env.finish, checked);
      }
    }
  }

  lemma OwnStores(size: Sizer, scope: Scope, n: Node, e: Envelope, env: Env, checked: bool)
    requires Storable(size, scope, n, true, checked) && ValidEnvelopeId(e.id)
    requires checked ==> Checked(scope, Receive(MlsMessage(e), env))
    ensures var (m, o) := OpenOwn(size, n, e, env); Storable(size, scope, m, !o.Dead?, checked)
  {
    hide HostTransfer, Persist, Sound, Readable, ValidEnvelopeId, Storable, Checked;
    MarkStores(size, scope, n, e.id, checked);
    PersistStores(size, scope, n.(memory := Mark(n.memory, e.id)), env.finish, checked);
    TransferStores(size, scope, n, e, env, checked);
    var (h, transfer) := HostTransfer(n, e, env.snapshot);
    if transfer.Ok? {
      MarkStores(size, scope, h, e.id, checked);
      var marked := h.(memory := Mark(h.memory, e.id));
      NoteStores(size, scope, marked, Some(transfer.value), checked);
      PersistStores(size, scope, marked.(memory := Note(marked.memory, Some(transfer.value))), env.finish, checked);
    }
    StorableDead(size, scope, n, checked);
  }

  lemma OpenStores(size: Sizer, scope: Scope, n: Node, e: Envelope, env: Env, checked: bool)
    requires Storable(size, scope, n, true, checked)
    requires checked ==> Checked(scope, Receive(MlsMessage(e), env))
    ensures var (m, o) := Open(size, n, e, env); Storable(size, scope, m, !o.Dead?, checked)
  {
    hide OpenOwn, AfterMls, Persist, Sound, Readable, ValidEnvelopeId, Checked;
    if ValidEnvelopeId(e.id) {
      OwnStores(size, scope, n, e, env, checked);
      PendingStores(size, scope, n, Some(e.id), checked);
      var marked := n.(memory := WithPending(n.memory, Some(e.id)));
      PersistStores(size, scope, marked, env.begin, checked);
      var (begun, effect) := Persist(size, marked, env.begin);
      if effect.Done? {
        AfterMlsStores(size, scope, CallMls(begun, e.id), e, env, checked);
      }
    }
  }

  lemma {:induction false} TokenIsEnvelopeId(id: string)
    requires ValidToken(id)
    ensures ValidEnvelopeId(id)
  {
    AsciiLength(id);
  }

  lemma QueueStores(
      size: Sizer, scope: Scope, n: Node, id: string, event: Event, engine: WriteFate, save: WriteFate, checked: bool)
    requires Storable(size, scope, n, true, checked)
    ensures var (m, o) := Queue(size, n, id, event, engine, save); Storable(size, scope, m, !o.Dead?, checked)
  {
    hide Persist, Sound, ValidToken, ValidEnvelopeId;
    if ValidToken(id) && ValidHistoryEvent(event) {
      TokenIsEnvelopeId(id);
      var queued := n.(disk := n.disk.(outbox := n.disk.outbox + {id}));
      MarkStores(size, scope, queued, id, checked);
      var marked := queued.(memory := Mark(queued.memory, id));
      NoteStores(size, scope, marked, Some(event), checked);
      PersistStores(size, scope, marked.(memory := Note(marked.memory, Some(event))), save, checked);
    }
  }

  lemma OfferStores(size: Sizer, scope: Scope, n: Node, s: Step, checked: bool)
    requires Storable(size, scope, n, true, checked) && s.Offer? && (checked ==> Checked(scope, s))
    ensures var (m, o) := OfferHandoff(size, n, s.id, s.offer, s.engine, s.save);
            Storable(size, scope, m, !o.Dead?, checked)
  {
    hide Queue, Handoff.Receive, ValidOffer, Sound;
    var m := Offered(FreshOffer(s.offer));
    var offers := Handoff.Receive(n.memory.recovery.offers, m).0;
    ReceivedOffers(size, scope, n, m, checked);
    OffersStore(size, scope, n, offers, checked);
    QueueStores(size, scope, n.(memory := WithOffers(n.memory, offers)), s.id, HandoffOffered(FreshOffer(s.offer)),
                s.engine, s.save, checked);
  }

  lemma ReceivedOffers(size: Sizer, scope: Scope, n: Node, m: Message, checked: bool)
    requires Storable(size, scope, n, true, checked)
    requires checked && m.Offered? ==> ValidOffer(m.offer)
    requires checked && m.Wanted? ==> ValidCandidate(m.request.candidate)
    requires m.Offered? || m.Wanted?
    ensures var offers := Handoff.Receive(n.memory.recovery.offers, m).0;
            |offers| <= MAX_HANDOFFS && (checked ==> ValidOffers(offers))
  {
    hide Handoff.Receive, ValidOffer, ValidCandidate;
    ReceiveKeepsBound(n.memory.recovery.offers, m);
    if checked { ReceiveKeepsValidOffers(n.memory.recovery.offers, m); }
  }

  lemma RequestStores(size: Sizer, scope: Scope, n: Node, s: Step, checked: bool)
    requires Storable(size, scope, n, true, checked) && s.Request? && (checked ==> Checked(scope, s))
    ensures var (m, o) := RequestHandoff(size, n, s.offerId, s.id, s.roster, s.engine, s.save);
            Storable(size, scope, m, !o.Dead?, checked)
  {
    hide Queue, Handoff.Receive, ValidOffer, Bounded;
    if s.roster.Listed? {
      var request := Handoff.Request(s.offerId, s.roster.me);
      var offers := Handoff.Receive(n.memory.recovery.offers, Wanted(request)).0;
      ReceivedOffers(size, scope, n, Wanted(request), checked);
      OffersStore(size, scope, n, offers, checked);
      QueueStores(size, scope, n.(memory := WithOffers(n.memory, offers)), s.id,
                  WantedEvent(request), s.engine, s.save, checked);
    }
  }

  lemma ThreadStores(size: Sizer, scope: Scope, n: Node, id: string, fate: WriteFate, checked: bool)
    requires Storable(size, scope, n, true, checked)
    ensures var (m, o) := SaveThread(size, n, id, fate); Storable(size, scope, m, !o.Dead?, checked)
  {
    hide Persist;
    if ValidThreadId(id) {
      var named := n.memory.(recovery := n.memory.recovery.(codexThreadId := Some(id)));
      PersistStores(size, scope, n.(memory := named), fate, checked);
    }
  }

  lemma DeliverStores(size: Sizer, scope: Scope, n: Node, m: ServerMessage, env: Env, checked: bool)
    requires Storable(size, scope, n, true, checked) && (checked ==> Checked(scope, Receive(m, env)))
    ensures var (after, o) := Deliver(size, n, m, env); Storable(size, scope, after, !o.Dead?, checked)
  {
    hide Open, Sound;
    if m.MlsMessage? {
      OpenStores(size, scope, n, m.envelope, env, checked);
    }
  }

  lemma StepStores(size: Sizer, scope: Scope, w: World, s: Step, checked: bool)
    requires scope.version == RECOVERY_VERSION
    requires Storable(size, scope, w.node, w.running, checked) && (checked ==> Checked(scope, s))
    ensures var after := Next(size, scope, w, s); Storable(size, scope, after.node, after.running, checked)
  {
    hide Deliver, Queue, OfferHandoff, RequestHandoff, SaveThread, ValidFrame, Checked;
    if w.running {
      match s {
        case Receive(m, env) => DeliverStores(size, scope, w.node, m, env, checked);
        case QueueLocal(id, event, engine, save) => QueueStores(size, scope, w.node, id, event, engine, save, checked);
        case Offer(_, _, _, _) => OfferStores(size, scope, w.node, s, checked);
        case Request(_, _, _, _, _) => RequestStores(size, scope, w.node, s, checked);
        case Thread(id, fate) => ThreadStores(size, scope, w.node, id, fate, checked);
        case _ =>
      }
    }
    if s.Reopen? && w.node.disk.saved.Some? && ValidRecovery(w.node.disk.saved.value, scope) {
      ValidIsSound(w.node.disk.saved.value, scope, checked);
    }
    if s.Reopen? { EmptyIsSound(scope, checked); }
  }

  lemma EmptyIsSound(scope: Scope, checked: bool)
    requires scope.version == RECOVERY_VERSION
    ensures Sound(EmptyRecovery(scope), scope, checked)
  {
  }

  lemma {:induction false} RunStores(size: Sizer, scope: Scope, room: Room, steps: seq<Step>, checked: bool)
    requires scope.version == RECOVERY_VERSION
    requires checked ==> forall i :: 0 <= i < |steps| ==> Checked(scope, steps[i])
    ensures var w := Run(size, scope, Fresh(scope, room), steps); Storable(size, scope, w.node, w.running, checked)
  {
    hide Next, Checked, Sound;
    if steps != [] {
      var front := steps[..|steps| - 1];
      RunStores(size, scope, room, front, checked);
      StepStores(size, scope, Run(size, scope, Fresh(scope, room), front), steps[|steps| - 1], checked);
    }
  }

  // ---- Main results: which records load ----

  /** What the next start makes of the disk, when only the given defect can spoil it. */
  ghost predicate LoadsUnless(size: Sizer, disk: Disk, scope: Scope, spoiled: bool) {
    Load(size, disk, scope) ==
    match disk.saved
    case None => Ok(Memory(EmptyRecovery(scope), []))
    case Some(r) =>
      if spoiled then Err(InvalidRecoveryState)
      else if r.pending.Some? then Err(RecoveryInterrupted)
      else Ok(Memory(r, disk.savedRecorded))
  }

  /** In every run, whatever comes in: the next start refuses the record on disk exactly
      when it holds an invalid offer or an invalid event, or bears the marker of an
      interrupted opening.  Size, ids, their number and distinctness, marker, thread id and
      scope are never at fault. */
  lemma StoredRecordLoadsIff(size: Sizer, scope: Scope, room: Room, steps: seq<Step>)
    requires scope.version == RECOVERY_VERSION
    ensures var disk := Run(size, scope, Fresh(scope, room), steps).node.disk;
            LoadsUnless(size, disk, scope,
              disk.saved.Some? && (
                || (exists i :: 0 <= i < |disk.saved.value.offers| && !ValidOffer(disk.saved.value.offers[i]))
                || !ValidHistory(disk.saved.value.history)))
  {
    hide ValidFrame, ValidOffer, ValidHistoryEvent, Run;
    RunStores(size, scope, room, steps, false);
  }

  /** When offers, requests and envelopes are what their validation makes them, one defect
      is left: an event of unknown kind with a control character in the kind. */
  lemma EveryStoredRecordLoads(size: Sizer, scope: Scope, room: Room, steps: seq<Step>)
    requires scope.version == RECOVERY_VERSION
    requires forall i :: 0 <= i < |steps| ==> Checked(scope, steps[i])
    ensures var disk := Run(size, scope, Fresh(scope, room), steps).node.disk;
            LoadsUnless(size, disk, scope,
              disk.saved.Some? && exists e :: e in disk.saved.value.history && !CleanKind(e))
  {
    hide ValidFrame, ValidOffer, Run, Checked;
    RunStores(size, scope, room, steps, true);
    var disk := Run(size, scope, Fresh(scope, room), steps).node.disk;
    if disk.saved.Some? {
      var history := disk.saved.value.history;
      forall i | 0 <= i < |history| ensures ValidHistoryEvent(history[i]) <==> CleanKind(history[i]) {
        assert Readable(history[i]);
      }
    }
  }

  // ---- Main results: what spoils a record ----

  /** One message does it.  A member's message of an unknown kind is projected whatever
      characters its kind holds, and written; the next start opens the room exactly when
      there is no control character among them. */
  lemma UnknownKindSpoilsRecordIff(size: Sizer, scope: Scope, n: Node, e: Envelope, env: Env)
    requires ValidRecovery(n.memory.recovery, scope) && n.memory.recovery.pending.None?
    requires e.teamId == scope.teamId && e.roomId == scope.roomId && e.id !in n.memory.recovery.processed
    requires ValidEnvelope(e) && !Own(n, e) && e.messageType == Application
    requires env.begin.Written? && env.mls.Opened? && env.finish.Written?
    requires BoundTo(env.mls.aad, e) && !env.mls.plaintext.Malformed?
    requires var kind := env.mls.aad.kind; kind !in PROJECTED_KINDS && kind !in OTHER_KINDS && Bounded(kind, 1, 128)
    requires size(WithPending(n.memory, Some(e.id)).recovery) <= MAX_RECOVERY_BYTES
    requires size(Note(Mark(n.memory, e.id), Some(Unsupported(env.mls.aad.kind))).recovery) <= MAX_RECOVERY_BYTES
    ensures var (m, o) := Open(size, n, e, env);
            && o == Projected(Some(Unsupported(env.mls.aad.kind)))
            && (Load(size, m.disk, scope).Ok? <==> NoControl(env.mls.aad.kind))
  {
    hide Project, ValidEnvelopeId, ValidThreadId, ValidOffer, Bounded, NoControl, BoundTo, Remember, Record,
        ValidFrame, PROJECTED_KINDS, OTHER_KINDS;
    var kind := env.mls.aad.kind;
    var event := Unsupported(kind);
    FrameBounds(n.memory.recovery, scope);
    UnknownKindsAreMarked(n.room, n.memory.recovery.offers, e, env.mls.aad, env.mls.plaintext);
    UnsupportedKindFits(kind);
    var (m, o) := Open(size, n, e, env);
    var after := Note(Mark(n.memory, e.id), Some(event)).recovery;
    assert m.disk.saved == Some(after) && after.pending.None?;
    assert after.history[|after.history| - 1] == event;
    MarkedIsFramed(n.memory.recovery, scope, e.id, event);
    assert ValidRecovery(after, scope) <==> ValidHistoryEvent(event);
  }

  lemma FrameBounds(r: Recovery, scope: Scope)
    requires ValidFrame(r, scope)
    ensures r.scope == scope && |r.offers| <= MAX_HANDOFFS
  {
  }

  lemma MarkedIsFramed(r: Recovery, scope: Scope, id: string, event: Event)
    requires ValidFrame(r, scope) && ValidEnvelopeId(id)
    ensures ValidFrame(r.(processed := Remember(r.processed, id), history := RememberHistory(r.history, event)), scope)
  {
    hide ValidEnvelopeId, ValidThreadId;
    if id !in r.processed {
      DistinctAppend(r.processed, id);
    }
  }

  /** An active host's new offer enters the local state before it is validated: the memory
      stays one that the next start accepts exactly when the offer is valid, ... */
  lemma OfferSpoilsRecordIff(
      size: Sizer, scope: Scope, n: Node, id: string, offer: Handoff.Offer, engine: WriteFate, save: WriteFate)
    requires ValidRecovery(n.memory.recovery, scope) && IsActiveHost(n)
    requires offer.id == id && offer.fromUserId == scope.userId
    requires IndexOf(n.memory.recovery.offers, id).None?
    requires !OfferHandoff(size, n, id, offer, engine, save).1.Dead?
    ensures ValidRecovery(OfferHandoff(size, n, id, offer, engine, save).0.memory.recovery, scope)
            <==> ValidOffer(FreshOffer(offer))
  {
    hide ValidEnvelopeId, ValidThreadId, ValidOffer, ValidToken, Remember, Record, ValidFrame;
    var clean := FreshOffer(offer);
    var offers := Remembered(n.memory.recovery.offers, clean);
    assert offers[|offers| - 1] == clean;
    var offered := n.(memory := WithOffers(n.memory, offers));
    FrameBounds(n.memory.recovery, scope);
    OffersAreFramed(n.memory.recovery, scope, offers);
    QueueKeepsOffers(size, scope, offered, id, HandoffOffered(clean), engine, save);
  }

  lemma OffersAreFramed(r: Recovery, scope: Scope, offers: seq<Handoff.Offer>)
    requires ValidFrame(r, scope) && |offers| <= MAX_HANDOFFS
    ensures ValidFrame(r.(offers := offers), scope)
  {
  }

  lemma NotedIsValid(history: seq<Event>, event: Event)
    requires ValidHistory(history) && ValidHistoryEvent(event)
    ensures ValidHistory(RememberHistory(history, event))
    ensures forall k | 0 <= k <= |RememberHistory(history, event)| :: ValidHistory(RememberHistory(history, event)[k..])
  {
    hide ValidHistoryEvent;
  }

  lemma QueueKeepsOffers(
      size: Sizer, scope: Scope, n: Node, id: string, event: Event, engine: WriteFate, save: WriteFate)
    requires ValidFrame(n.memory.recovery, scope) && ValidHistory(n.memory.recovery.history)
    ensures var r := Queue(size, n, id, event, engine, save).0.memory.recovery;
            r.offers == n.memory.recovery.offers && ValidFrame(r, scope) && ValidHistory(r.history)
  {
    hide ValidEnvelopeId, ValidThreadId, ValidHistory, ValidToken, Remember, Record, ValidFrame, RememberHistory;
    if ValidToken(id) && ValidHistoryEvent(event) {
      TokenIsEnvelopeId(id);
      MarkedIsFramed(n.memory.recovery, scope, id, event);
      var marked := Note(Mark(n.memory, id), Some(event)).recovery;
      NotedIsValid(n.memory.recovery.history, event);
      FittingKeeps(size, marked);
      ShorterIsFramed(marked, scope);
    }
    NoHistoryIsValid();
  }

  lemma NoHistoryIsValid()
    ensures ValidHistory([])
  {
  }

  lemma ShorterIsFramed(r: Recovery, scope: Scope)
    requires ValidFrame(r, scope)
    ensures forall history: seq<Event> :: |history| <= |r.history| ==> ValidFrame(r.(history := history), scope)
  {
  }

  /** ... and once such a memory is written, the room no longer opens. */
  lemma SpoiledRecordDoesNotLoad(size: Sizer, scope: Scope, n: Node, fate: WriteFate)
    requires exists i :: 0 <= i < |n.memory.recovery.offers| && !ValidOffer(n.memory.recovery.offers[i])
    requires Persist(size, n, fate).1.Done?
    ensures Load(size, Persist(size, n, fate).0.disk, scope) == Err(InvalidRecoveryState)
  {
    hide ValidOffer, ValidHistoryEvent, ValidFrame;
    FittingKeeps(size, n.memory.recovery);
  }
}
