/** Every run of a room session: deliveries and redeliveries, local records, failed
    writes, crashes between any two durable writes, and reopenings. */
module RoomRuns {
  import opened Basics
  import opened Text
  import opened Handoff
  import opened ProcessedWindow
  import opened RoomState
  import opened RoomSession

  /** One projection handed to the reader: the id it belongs to, where the log records
      that id, and whether the record was the client's own. */
  datatype Projection = Projection(id: string, at: nat, local: bool)

  /** `running` says whether the memory of `node` is that of a live process. */
  datatype World = World(running: bool, node: Node, projections: seq<Projection>)

  datatype Step =
    | Receive(message: ServerMessage, env: Env)
    | QueueLocal(id: string, event: Event, engine: WriteFate, save: WriteFate)
    | Offer(id: string, offer: Handoff.Offer, engine: WriteFate, save: WriteFate)
    | Request(offerId: string, id: string, roster: Roster, engine: WriteFate, save: WriteFate)
    | Thread(threadId: string, fate: WriteFate)
    | Settle(id: string)
    | Crash
    | Reopen

  function Fresh(scope: Scope, room: Room): World {
    World(false, Node(room, Memory(EmptyRecovery(scope), []), Disk(None, [], {}, [])), [])
  }

  function PlaceOf(log: seq<string>, id: string): nat {
    if log == [] then 0
    else if log[|log| - 1] == id then |log| - 1
    else PlaceOf(log[..|log| - 1], id)
  }

  function After(w: World, result: (Node, Outcome), id: string, local: bool): World {
    var (n, o) := result;
    match o
    case Dead => World(false, n, w.projections)
    case Error(_) => World(true, n, w.projections)
    case Projected(event) =>
      World(true, n, if event.None? || event.value.Presence? then w.projections
                     else w.projections + [Projection(id, PlaceOf(n.memory.recorded, id), local)])
  }

  function MessageId(m: ServerMessage): string {
    if m.MlsMessage? then m.envelope.id else ""
  }

  function Next(size: Sizer, scope: Scope, w: World, s: Step): World {
    if s.Crash? then w.(running := false)
    else if s.Reopen? then
      match Load(size, w.node.disk, scope)
      case Ok(memory) => w.(running := true, node := w.node.(memory := memory))
      case Err(_) => w.(running := false)
    else if !w.running then w
    else
      match s
      case Receive(m, env) => After(w, Deliver(size, w.node, m, env), MessageId(m), false)
      case QueueLocal(id, event, engine, save) => After(w, Queue(size, w.node, id, event, engine, save), id, true)
      case Offer(id, offer, engine, save) => After(w, OfferHandoff(size, w.node, id, offer, engine, save), id, true)
      case Request(offerId, id, roster, engine, save) =>
        After(w, RequestHandoff(size, w.node, offerId, id, roster, engine, save), id, true)
      case Thread(id, fate) => After(w, SaveThread(size, w.node, id, fate), "", true)
      case Settle(id) => w.(node := w.node.(disk := w.node.disk.(outbox := w.node.disk.outbox - {id})))
      case _ => w
  }

  function Run(size: Sizer, scope: Scope, w: World, steps: seq<Step>): World {
    if steps == [] then w
    else Next(size, scope, Run(size, scope, w, steps[..|steps| - 1]), steps[|steps| - 1])
  }

  // ---- The invariant ----

  predicate Holds(log: seq<string>, c: Call) { c.at < |log| && log[c.at] == c.id }

  ghost predicate Logged(n: Node, running: bool) {
    && Spaced(n.disk.savedRecorded)
    && (n.disk.saved.None? ==> n.disk.savedRecorded == [])
    && (n.disk.saved.Some? ==> n.disk.saved.value.processed == Last(MAX_PROCESSED, n.disk.savedRecorded))
    && (running ==>
          && Spaced(n.memory.recorded)
          && n.memory.recovery.processed == Last(MAX_PROCESSED, n.memory.recorded)
          && n.disk.savedRecorded <= n.memory.recorded)
  }

  /** A call of `process_incoming` is either recorded on disk, or the disk bears the
      marker and the live process, if any, has recorded the call or is stuck on it. */
  ghost predicate Accounted(n: Node, running: bool, c: Call) {
    || Holds(n.disk.savedRecorded, c)
    || (n.disk.saved.Some? && n.disk.saved.value.pending.Some?
        && (running ==> n.memory.recovery.pending == Some(c.id) || Holds(n.memory.recorded, c)))
  }

  /** Later calls for the same id come after at least 1,024 other ids were recorded. */
  ghost predicate CallsApart(calls: seq<Call>) {
    forall i, j :: 0 <= i < j < |calls| && calls[i].id == calls[j].id ==> calls[i].at + MAX_PROCESSED < calls[j].at
  }

  ghost predicate NodeInv(n: Node, running: bool) {
    && Logged(n, running)
    && CallsApart(n.disk.calls)
    && (forall i :: 0 <= i < |n.disk.calls| ==> Accounted(n, running, n.disk.calls[i]))
    && (forall i :: 0 <= i < |n.disk.calls| ==> n.disk.calls[i].at <= |n.disk.savedRecorded|)
    && (forall i :: 0 <= i < |n.disk.calls| - 1 ==> Holds(n.disk.savedRecorded, n.disk.calls[i]))
  }

  /** No step but `Mark` touches the log and its window. */
  ghost predicate SameLog(a: Node, b: Node) {
    b.memory.recorded == a.memory.recorded && b.memory.recovery.processed == a.memory.recovery.processed
  }

  /** What a write leaves: the memory but for its oldest history, and the disk as it
      was or as the memory now is. */
  ghost predicate Persisted(n: Node, m: Node, effect: Effect) {
    && SameLog(n, m)
    && m.disk.calls == n.disk.calls
    && m.memory.recovery.pending == n.memory.recovery.pending
    && m.memory.recovery.scope == n.memory.recovery.scope
    && ((m.disk.saved == n.disk.saved && m.disk.savedRecorded == n.disk.savedRecorded && !effect.Done?)
        || (m.disk.saved == Some(m.memory.recovery) && m.disk.savedRecorded == m.memory.recorded && !effect.Failed?))
  }

  lemma PersistWrites(size: Sizer, n: Node, fate: WriteFate)
    ensures Persisted(n, Persist(size, n, fate).0, Persist(size, n, fate).1)
  {
    FittingKeeps(size, n.memory.recovery);
  }

  lemma {:induction false} FittingKeeps(size: Sizer, r: Recovery)
    ensures Fitting(size, r).Some? ==>
              var f := Fitting(size, r).value;
              && f == r.(history := f.history) && size(f) <= MAX_RECOVERY_BYTES
              && |f.history| <= |r.history| && f.history == r.history[|r.history| - |f.history|..]
    decreases |r.history|
  {
    if size(r) > MAX_RECOVERY_BYTES && r.history != [] {
      FittingKeeps(size, r.(history := r.history[1..]));
    }
  }

  lemma PersistKeeps(n: Node, m: Node, effect: Effect)
    requires NodeInv(n, true) && Persisted(n, m, effect)
    ensures NodeInv(m, !effect.Died?)
  {
    forall i | 0 <= i < |n.disk.calls|
      ensures Accounted(m, !effect.Died?, m.disk.calls[i])
    {
      assert Accounted(n, true, n.disk.calls[i]);
    }
  }

  /** Marking keeps the invariant, except that it also records the marked id. */
  lemma MarkKeeps(n: Node, id: string)
    requires NodeInv(n, true)
    ensures var m := n.(memory := Mark(n.memory, id));
            && NodeInv(m, true) && id in m.memory.recovery.processed
            && n.disk.savedRecorded <= m.memory.recorded
            && (id !in n.memory.recovery.processed ==> m.memory.recorded == n.memory.recorded + [id])
  {
    RememberRefinesRecord(n.memory.recorded, id);
    RememberedIsHeld(n.memory.recovery.processed, id);
    var m := n.(memory := Mark(n.memory, id));
    forall i | 0 <= i < |n.disk.calls|
      ensures Accounted(m, true, m.disk.calls[i])
    {
      assert Accounted(n, true, n.disk.calls[i]);
    }
  }

  // ---- Opening ----

  lemma BeginKeeps(n: Node, id: string)
    requires NodeInv(n, true) && n.memory.recovery.pending.None?
    ensures NodeInv(n.(memory := WithPending(n.memory, Some(id))), true)
  {
    var m := n.(memory := WithPending(n.memory, Some(id)));
    forall i | 0 <= i < |n.disk.calls|
      ensures Accounted(m, true, m.disk.calls[i])
    {
      assert Accounted(n, true, n.disk.calls[i]);
    }
  }

  /** The call of `process_incoming` itself: its id is not in the window, so any earlier
      call for it was recorded and has since been pushed out. */
  lemma CallKeeps(n: Node, id: string)
    requires NodeInv(n, true) && id !in n.memory.recovery.processed
    requires n.memory.recovery.pending == Some(id)
    requires n.disk.saved.Some? && n.disk.saved.value.pending.Some? && n.disk.savedRecorded == n.memory.recorded
    requires forall i :: 0 <= i < |n.disk.calls| ==> Holds(n.memory.recorded, n.disk.calls[i])
    ensures NodeInv(CallMls(n, id), true)
  {
    var m := CallMls(n, id);
    var calls, log := n.disk.calls, n.memory.recorded;
    forall i, j | 0 <= i < j < |m.disk.calls| && m.disk.calls[i].id == m.disk.calls[j].id
      ensures m.disk.calls[i].at + MAX_PROCESSED < m.disk.calls[j].at
    {
      if j == |calls| {
        assert Holds(log, calls[i]);
        ForgottenIdWasPushedOut(log, calls[i].at);
      }
    }
    forall i | 0 <= i < |m.disk.calls|
      ensures Accounted(m, true, m.disk.calls[i])
    {
      if i < |calls| {
        assert Accounted(n, true, calls[i]);
      }
    }
  }

  /** Clearing the marker once the id is recorded: what was stuck on it is now held. */
  lemma FinishKeeps(n: Node, id: string)
    requires NodeInv(n, true) && n.memory.recovery.pending == Some(id)
    requires forall i :: 0 <= i < |n.disk.calls| && n.disk.calls[i].id == id ==>
               Holds(n.memory.recorded, n.disk.calls[i])
    ensures NodeInv(n.(memory := WithPending(n.memory, None)), true)
  {
    var m := n.(memory := WithPending(n.memory, None));
    forall i | 0 <= i < |n.disk.calls|
      ensures Accounted(m, true, m.disk.calls[i])
    {
      assert Accounted(n, true, n.disk.calls[i]);
    }
  }

  /** The invariant does not read histories, offers, threads, the room or the outbox. */
  ghost predicate SameMarks(n: Node, m: Node) {
    && SameLog(n, m) && m.memory.recovery.pending == n.memory.recovery.pending
    && m.memory.recovery.scope == n.memory.recovery.scope
    && m.disk.saved == n.disk.saved && m.disk.savedRecorded == n.disk.savedRecorded && m.disk.calls == n.disk.calls
  }

  lemma ContentsKeep(n: Node, m: Node)
    requires NodeInv(n, true) && SameMarks(n, m)
    ensures NodeInv(m, true)
  {
    forall i | 0 <= i < |n.disk.calls|
      ensures Accounted(m, true, m.disk.calls[i])
    {
      assert Accounted(n, true, n.disk.calls[i]);
    }
  }

  /** A step that projects under `id` has recorded it durably, as the newest entry. */
  ghost predicate ProjectsNewest(n: Node, result: (Node, Outcome), id: string) {
    result.1.Projected? && result.1.event.Some? && !result.1.event.value.Presence? ==>
      && id !in n.memory.recovery.processed
      && result.0.memory.recorded == n.memory.recorded + [id]
      && result.0.disk.savedRecorded == result.0.memory.recorded
  }

  ghost predicate StepKeeps(n: Node, result: (Node, Outcome), id: string) {
    && NodeInv(result.0, !result.1.Dead?)
    && ProjectsNewest(n, result, id)
    && result.0.memory.recovery.scope == n.memory.recovery.scope
    && n.disk.savedRecorded <= result.0.disk.savedRecorded
  }

  lemma HostTransferKeepsMarks(n: Node, e: Envelope, snapshot: Option<GroupSnapshot>)
    ensures SameMarks(n, HostTransfer(n, e, snapshot).0)
  {
  }

  /** Right after `process_incoming` was called for `id`, under the marker. */
  ghost predicate UnderMarker(n: Node, id: string) {
    && NodeInv(n, true)
    && n.memory.recovery.pending == Some(id) && id !in n.memory.recovery.processed
    && |n.disk.calls| > 0 && n.disk.calls[|n.disk.calls| - 1] == Call(id, |n.memory.recorded|)
    && (forall i :: 0 <= i < |n.disk.calls| - 1 ==> Holds(n.memory.recorded, n.disk.calls[i]))
    && n.disk.savedRecorded == n.memory.recorded
  }

  lemma FinishUnderMarker(size: Sizer, n: Node, id: string, event: Option<Event>, fate: WriteFate)
    requires UnderMarker(n, id)
    ensures StepKeeps(n, Concluded(Finish(size, n, id, event, fate), event), id)
  {
    var marked := n.(memory := Mark(n.memory, id));
    MarkKeeps(n, id);
    forall i | 0 <= i < |n.disk.calls| ensures Holds(marked.memory.recorded, n.disk.calls[i]) {}
    FinishKeeps(marked, id);
    var cleared := marked.(memory := WithPending(marked.memory, None));
    var noted := n.(memory := WithPending(Note(Mark(n.memory, id), event), None));
    ContentsKeep(cleared, noted);
    PersistWrites(size, noted, fate);
    var (m, effect) := Persist(size, noted, fate);
    PersistKeeps(noted, m, effect);
  }

  lemma AfterMlsKeeps(size: Sizer, n: Node, e: Envelope, env: Env)
    requires UnderMarker(n, e.id)
    ensures StepKeeps(n, AfterMls(size, n, e, env), e.id)
  {
    hide Finish, HostTransfer, Project, NodeInv;
    if env.mls.MlsDies? {
      DeadKeeps(n);
    } else if env.mls.MlsRefuses? {
    } else if e.messageType == Commit && e.hostHandoff {
      HostTransferKeepsMarks(n, e, env.snapshot);
      var (m, transfer) := HostTransfer(n, e, env.snapshot);
      ContentsKeep(n, m);
      if transfer.Ok? {
        FinishUnderMarker(size, m, e.id, Some(transfer.value), env.finish);
      }
    } else if e.messageType == Commit || env.mls.NoApplication? {
      FinishUnderMarker(size, n, e.id, None, env.finish);
    } else {
      var (event, offers) := Project(n.room, n.memory.recovery.offers, e, env.mls.aad, env.mls.plaintext);
      var m := n.(memory := WithOffers(n.memory, offers));
      ContentsKeep(n, m);
      FinishUnderMarker(size, m, e.id, event, env.finish);
    }
  }

  lemma DeadKeeps(n: Node)
    requires NodeInv(n, true)
    ensures NodeInv(n, false)
  {
    forall i | 0 <= i < |n.disk.calls|
      ensures Accounted(n, false, n.disk.calls[i])
    {
      assert Accounted(n, true, n.disk.calls[i]);
    }
  }

  lemma OpenOwnKeeps(size: Sizer, n: Node, e: Envelope, env: Env)
    requires NodeInv(n, true) && e.id !in n.memory.recovery.processed
    ensures StepKeeps(n, OpenOwn(size, n, e, env), e.id)
  {
    hide HostTransfer, NodeInv, Remember, Record;
    var m, event := n, None;
    if e.hostHandoff {
      if !env.localTransferFound { return; }
      HostTransferKeepsMarks(n, e, env.snapshot);
      var (n', transfer) := HostTransfer(n, e, env.snapshot);
      ContentsKeep(n, n');
      if transfer.Err? { return; }
      m, event := n', Some(transfer.value);
    }
    MarkKeeps(m, e.id);
    var marked := m.(memory := Mark(m.memory, e.id));
    var noted := m.(memory := Note(Mark(m.memory, e.id), event));
    ContentsKeep(marked, noted);
    PersistWrites(size, noted, env.finish);
    var (last, effect) := Persist(size, noted, env.finish);
    PersistKeeps(noted, last, effect);
  }

  lemma OpenKeeps(size: Sizer, n: Node, e: Envelope, env: Env)
    requires NodeInv(n, true)
    ensures StepKeeps(n, Open(size, n, e, env), e.id)
  {
    hide OpenOwn, AfterMls, Persist;
    var scope := n.memory.recovery.scope;
    if e.teamId != scope.teamId || e.roomId != scope.roomId || e.id in n.memory.recovery.processed
       || !ValidEnvelopeId(e.id) {
    } else if Own(n, e) {
      OpenOwnKeeps(size, n, e, env);
    } else if e.ciphertext.Some? && n.memory.recovery.pending.None? {
      var marked := n.(memory := WithPending(n.memory, Some(e.id)));
      BeginKeeps(n, e.id);
      PersistWrites(size, marked, env.begin);
      var (begun, effect) := Persist(size, marked, env.begin);
      PersistKeeps(marked, begun, effect);
      if effect.Done? {
        AllHeldAfterBegin(n, begun, e.id);
        CallKeeps(begun, e.id);
        AfterMlsKeeps(size, CallMls(begun, e.id), e, env);
      }
    }
  }

  lemma AllHeldAfterBegin(n: Node, begun: Node, id: string)
    requires NodeInv(n, true) && n.memory.recovery.pending.None?
    requires SameLog(n, begun) && begun.disk.calls == n.disk.calls
    ensures forall i :: 0 <= i < |begun.disk.calls| ==> Holds(begun.memory.recorded, begun.disk.calls[i])
  {
    forall i | 0 <= i < |n.disk.calls|
      ensures Holds(n.memory.recorded, n.disk.calls[i])
    {
      assert Accounted(n, true, n.disk.calls[i]);
    }
  }

  // ---- Local records ----

  /** A local record that is handed back is on disk and in the durable window. */
  ghost predicate LocalKeeps(n: Node, result: (Node, Outcome), id: string) {
    && NodeInv(result.0, !result.1.Dead?)
    && result.0.memory.recovery.scope == n.memory.recovery.scope
    && n.disk.savedRecorded <= result.0.disk.savedRecorded
    && result.0.disk.calls == n.disk.calls
    && (result.1.Projected? && result.1.event.Some? ==>
          && id in result.0.memory.recovery.processed && id in result.0.disk.outbox
          && result.0.disk.saved == Some(result.0.memory.recovery)
          && result.0.disk.savedRecorded == result.0.memory.recorded)
  }

  lemma QueueKeeps(size: Sizer, n: Node, id: string, event: Event, engine: WriteFate, save: WriteFate)
    requires NodeInv(n, true)
    ensures LocalKeeps(n, Queue(size, n, id, event, engine, save), id)
  {
    hide ValidHistoryEvent, ValidToken, NodeInv, Remember, Record;
    var queued := n.(disk := n.disk.(outbox := n.disk.outbox + {id}));
    ContentsKeep(n, queued);
    DeadKeeps(n);
    DeadKeeps(queued);
    MarkKeeps(queued, id);
    var marked := queued.(memory := Mark(queued.memory, id));
    var noted := queued.(memory := Note(Mark(queued.memory, id), Some(event)));
    ContentsKeep(marked, noted);
    PersistWrites(size, noted, save);
    var (last, effect) := Persist(size, noted, save);
    PersistKeeps(noted, last, effect);
    PersistKeepsOutbox(size, noted, save);
  }

  lemma PersistKeepsOutbox(size: Sizer, n: Node, fate: WriteFate)
    ensures Persist(size, n, fate).0.disk.outbox == n.disk.outbox
    ensures Persist(size, n, fate).0.room == n.room
  {
  }

  lemma OfferKeeps(size: Sizer, n: Node, id: string, offer: Handoff.Offer, engine: WriteFate, save: WriteFate)
    requires NodeInv(n, true)
    ensures LocalKeeps(n, OfferHandoff(size, n, id, offer, engine, save), id)
  {
    hide Queue, Handoff.Receive;
    var clean := FreshOffer(offer);
    var offered := n.(memory := WithOffers(n.memory, Handoff.Receive(n.memory.recovery.offers, Offered(clean)).0));
    ContentsKeep(n, offered);
    QueueKeeps(size, offered, id, HandoffOffered(clean), engine, save);
  }

  lemma RequestKeeps(
      size: Sizer, n: Node, offerId: string, id: string, roster: Roster, engine: WriteFate, save: WriteFate)
    requires NodeInv(n, true)
    ensures LocalKeeps(n, RequestHandoff(size, n, offerId, id, roster, engine, save), id)
  {
    hide Queue, Handoff.Receive, ValidCandidate, Bounded;
    if roster.Listed? {
      var request := Handoff.Request(offerId, roster.me);
      var offered := n.(memory := WithOffers(n.memory, Handoff.Receive(n.memory.recovery.offers, Wanted(request)).0));
      ContentsKeep(n, offered);
      QueueKeeps(size, offered, id, WantedEvent(request), engine, save);
    }
  }

  lemma ThreadKeeps(size: Sizer, n: Node, threadId: string, fate: WriteFate)
    requires NodeInv(n, true)
    ensures LocalKeeps(n, SaveThread(size, n, threadId, fate), "")
  {
    hide ValidThreadId;
    var named := n.(memory := n.memory.(recovery := n.memory.recovery.(codexThreadId := Some(threadId))));
    ContentsKeep(n, named);
    PersistWrites(size, named, fate);
    var (last, effect) := Persist(size, named, fate);
    PersistKeeps(named, last, effect);
  }

  // ---- Runs ----

  ghost predicate ProjectionsApart(ps: seq<Projection>) {
    forall i, j :: 0 <= i < j < |ps| && ps[i].id == ps[j].id && !ps[j].local ==> ps[i].at + MAX_PROCESSED < ps[j].at
  }

  ghost predicate WorldInv(w: World) {
    && NodeInv(w.node, w.running)
    && (forall i :: 0 <= i < |w.projections| ==>
          w.projections[i].at < |w.node.disk.savedRecorded|
          && w.node.disk.savedRecorded[w.projections[i].at] == w.projections[i].id)
    && ProjectionsApart(w.projections)
  }

  lemma {:induction false} PlaceOfHolds(log: seq<string>, id: string)
    requires id in log
    ensures PlaceOf(log, id) < |log| && log[PlaceOf(log, id)] == id
  {
    if log[|log| - 1] != id {
      assert log == log[..|log| - 1] + [log[|log| - 1]];
      PlaceOfHolds(log[..|log| - 1], id);
    }
  }

  lemma DeliveryKeepsWorld(w: World, result: (Node, Outcome), id: string)
    requires WorldInv(w) && w.running && StepKeeps(w.node, result, id)
    ensures WorldInv(After(w, result, id, false))
  {
    hide NodeInv;
    var (n, o) := result;
    if o.Projected? && o.event.Some? && !o.event.value.Presence? {
      EarlierProjectionsWerePushedOut(w, id);
    }
  }

  lemma EarlierProjectionsWerePushedOut(w: World, id: string)
    requires WorldInv(w) && w.running && id !in w.node.memory.recovery.processed
    ensures forall i :: 0 <= i < |w.projections| && w.projections[i].id == id ==>
              w.projections[i].at + MAX_PROCESSED < |w.node.memory.recorded|
  {
    var log := w.node.memory.recorded;
    forall i | 0 <= i < |w.projections| && w.projections[i].id == id
      ensures w.projections[i].at + MAX_PROCESSED < |log|
    {
      assert log[w.projections[i].at] == id;
      ForgottenIdWasPushedOut(log, w.projections[i].at);
    }
  }

  lemma LocalKeepsWorld(w: World, result: (Node, Outcome), id: string)
    requires WorldInv(w) && w.running && LocalKeeps(w.node, result, id)
    ensures WorldInv(After(w, result, id, true))
  {
    var (n, o) := result;
    if o.Projected? && o.event.Some? {
      PlaceOfHolds(n.memory.recorded, id);
    }
  }

  lemma ReopenKeeps(size: Sizer, scope: Scope, w: World)
    requires WorldInv(w)
    ensures WorldInv(Next(size, scope, w, Reopen))
  {
    DiskKeeps(w.node, w.running);
    var loaded := Load(size, w.node.disk, scope);
    if loaded.Ok? {
      var n := w.node.(memory := loaded.value);
      forall i | 0 <= i < |n.disk.calls|
        ensures Accounted(n, true, n.disk.calls[i])
      {
        assert Accounted(w.node, false, n.disk.calls[i]);
      }
    }
  }

  lemma DiskKeeps(n: Node, running: bool)
    requires NodeInv(n, running)
    ensures NodeInv(n, false)
  {
    if running {
      DeadKeeps(n);
    }
  }

  lemma NextKeeps(size: Sizer, scope: Scope, w: World, s: Step)
    requires WorldInv(w)
    ensures WorldInv(Next(size, scope, w, s))
  {
    hide Deliver, Queue, OfferHandoff, RequestHandoff, SaveThread, Load, StepKeeps, LocalKeeps;
    var n := w.node;
    if s.Crash? {
      DiskKeeps(n, w.running);
    } else if s.Reopen? {
      ReopenKeeps(size, scope, w);
    } else if w.running {
      match s {
        case Receive(m, env) =>
          DeliverKeeps(size, n, m, env);
          DeliveryKeepsWorld(w, Deliver(size, n, m, env), MessageId(m));
        case QueueLocal(id, event, engine, save) =>
          QueueKeeps(size, n, id, event, engine, save);
          LocalKeepsWorld(w, Queue(size, n, id, event, engine, save), id);
        case Offer(id, offer, engine, save) =>
          OfferKeeps(size, n, id, offer, engine, save);
          LocalKeepsWorld(w, OfferHandoff(size, n, id, offer, engine, save), id);
        case Request(offerId, id, roster, engine, save) =>
          RequestKeeps(size, n, offerId, id, roster, engine, save);
          LocalKeepsWorld(w, RequestHandoff(size, n, offerId, id, roster, engine, save), id);
        case Thread(id, fate) =>
          ThreadKeeps(size, n, id, fate);
          LocalKeepsWorld(w, SaveThread(size, n, id, fate), "");
        case Settle(id) =>
          ContentsKeep(n, n.(disk := n.disk.(outbox := n.disk.outbox - {id})));
        case _ =>
      }
    }
  }

  lemma DeliverKeeps(size: Sizer, n: Node, m: ServerMessage, env: Env)
    requires NodeInv(n, true)
    ensures StepKeeps(n, Deliver(size, n, m, env), MessageId(m))
  {
    match m {
      case MlsMessage(e) =>
        hide Open;
        OpenKeeps(size, n, e, env);
      case RoomUpdated(_, _, next) => ContentsKeep(n, n.(room := next));
      case _ =>
    }
  }

  lemma {:induction false} RunKeeps(size: Sizer, scope: Scope, w: World, steps: seq<Step>)
    requires WorldInv(w)
    ensures WorldInv(Run(size, scope, w, steps))
  {
    if steps != [] {
      RunKeeps(size, scope, w, steps[..|steps| - 1]);
      NextKeeps(size, scope, Run(size, scope, w, steps[..|steps| - 1]), steps[|steps| - 1]);
    }
  }

  lemma FreshKeeps(scope: Scope, room: Room)
    ensures WorldInv(Fresh(scope, room))
  {
  }

  // ---- Main result: at most once ----

  /** Between the entries of a log lie 1,024 ids, different from the first and from
      each other. */
  ghost predicate PushedOutBetween(log: seq<string>, id: string, from: nat, to: nat) {
    && from + MAX_PROCESSED < to <= |log| && log[from] == id
    && Distinct(log[from..from + MAX_PROCESSED + 1])
  }

  /** In every run from an empty disk, `process_incoming` is called a second time for an
      envelope id only after 1,024 other ids were durably recorded since the first. */
  lemma OpenedAtMostOnce(size: Sizer, scope: Scope, room: Room, steps: seq<Step>, i: nat, j: nat)
    requires var calls := Run(size, scope, Fresh(scope, room), steps).node.disk.calls;
             i < j < |calls| && calls[i].id == calls[j].id
    ensures var disk := Run(size, scope, Fresh(scope, room), steps).node.disk;
            PushedOutBetween(disk.savedRecorded, disk.calls[i].id, disk.calls[i].at, disk.calls[j].at)
  {
    FreshKeeps(scope, room);
    RunKeeps(size, scope, Fresh(scope, room), steps);
  }

  /** In every run no delivered envelope is projected a second time, and no local record
      is projected again when it comes back, short of 1,024 other ids in between. */
  lemma ProjectedAtMostOnce(size: Sizer, scope: Scope, room: Room, steps: seq<Step>, i: nat, j: nat)
    requires var ps := Run(size, scope, Fresh(scope, room), steps).projections;
             i < j < |ps| && ps[i].id == ps[j].id && !ps[j].local
    ensures var w := Run(size, scope, Fresh(scope, room), steps);
            PushedOutBetween(w.node.disk.savedRecorded, w.projections[i].id, w.projections[i].at, w.projections[j].at)
  {
    FreshKeeps(scope, room);
    RunKeeps(size, scope, Fresh(scope, room), steps);
  }

  // ---- Main result: the marker blocks ----

  /** The disk bears the marker, and a live process has not cleared its own. */
  predicate Stuck(w: World) {
    && w.node.disk.saved.Some? && w.node.disk.saved.value.pending.Some?
    && (w.running ==> w.node.memory.recovery.pending.Some?)
  }

  predicate StuckNode(n: Node) {
    n.memory.recovery.pending.Some? && n.disk.saved.Some? && n.disk.saved.value.pending.Some?
  }

  predicate StaysStuck(n: Node, m: Node) {
    StuckNode(m) && m.disk.calls == n.disk.calls
  }

  lemma PersistStaysStuck(size: Sizer, n: Node, fate: WriteFate)
    requires StuckNode(n)
    ensures StaysStuck(n, Persist(size, n, fate).0)
  {
    hide Persist;
    PersistWrites(size, n, fate);
  }

  lemma DeliverStaysStuck(size: Sizer, n: Node, m: ServerMessage, env: Env)
    requires StuckNode(n)
    ensures StaysStuck(n, Deliver(size, n, m, env).0)
  {
    hide HostTransfer, Persist, AfterMls;
    if m.MlsMessage? {
      var e := m.envelope;
      var h := HostTransfer(n, e, env.snapshot);
      HostTransferKeepsMarks(n, e, env.snapshot);
      PersistStaysStuck(size, n.(memory := Mark(n.memory, e.id)), env.finish);
      if h.1.Ok? {
        PersistStaysStuck(size, h.0.(memory := Note(Mark(h.0.memory, e.id), Some(h.1.value))), env.finish);
      }
    }
  }

  lemma QueueStaysStuck(size: Sizer, n: Node, id: string, event: Event, engine: WriteFate, save: WriteFate)
    requires StuckNode(n)
    ensures StaysStuck(n, Queue(size, n, id, event, engine, save).0)
  {
    hide Persist, ValidHistoryEvent, ValidToken;
    var queued := n.(disk := n.disk.(outbox := n.disk.outbox + {id}));
    PersistStaysStuck(size, queued.(memory := Note(Mark(queued.memory, id), Some(event))), save);
  }

  lemma LocalStaysStuck(size: Sizer, n: Node, s: Step)
    requires StuckNode(n)
    ensures s.Offer? ==> StaysStuck(n, OfferHandoff(size, n, s.id, s.offer, s.engine, s.save).0)
    ensures s.Request? ==> StaysStuck(n, RequestHandoff(size, n, s.offerId, s.id, s.roster, s.engine, s.save).0)
    ensures s.Thread? ==> StaysStuck(n, SaveThread(size, n, s.threadId, s.fate).0)
  {
    hide Persist, Queue, Handoff.Receive, ValidCandidate, Bounded, ValidThreadId;
    match s {
      case Offer(id, offer, engine, save) =>
        var clean := FreshOffer(offer);
        var offers := Handoff.Receive(n.memory.recovery.offers, Offered(clean)).0;
        QueueStaysStuck(size, n.(memory := WithOffers(n.memory, offers)), id, HandoffOffered(clean), engine, save);
      case Request(offerId, id, Listed(me), engine, save) =>
        var request := Handoff.Request(offerId, me);
        var offers := Handoff.Receive(n.memory.recovery.offers, Wanted(request)).0;
        QueueStaysStuck(size, n.(memory := WithOffers(n.memory, offers)), id,
                        WantedEvent(request), engine, save);
      case Thread(id, fate) =>
        var named := n.memory.(recovery := n.memory.recovery.(codexThreadId := Some(id)));
        PersistStaysStuck(size, n.(memory := named), fate);
      case _ =>
    }
  }

  /** From a crash or an error behind the marker nothing leads back: whatever follows,
      reopenings included, `process_incoming` is never called again. */
  lemma {:induction false} StuckForever(size: Sizer, scope: Scope, w: World, steps: seq<Step>)
    requires Stuck(w)
    ensures Stuck(Run(size, scope, w, steps))
    ensures Run(size, scope, w, steps).node.disk.calls == w.node.disk.calls
  {
    if steps != [] {
      StuckForever(size, scope, w, steps[..|steps| - 1]);
      StuckStep(size, scope, Run(size, scope, w, steps[..|steps| - 1]), steps[|steps| - 1]);
    }
  }

  lemma StuckStep(size: Sizer, scope: Scope, w: World, s: Step)
    requires Stuck(w)
    ensures Stuck(Next(size, scope, w, s))
    ensures Next(size, scope, w, s).node.disk.calls == w.node.disk.calls
  {
    hide Deliver, Queue, OfferHandoff, RequestHandoff, SaveThread, ValidRecovery;
    if w.running {
      match s {
        case Receive(m, env) => DeliverStaysStuck(size, w.node, m, env);
        case QueueLocal(id, event, engine, save) => QueueStaysStuck(size, w.node, id, event, engine, save);
        case _ => LocalStaysStuck(size, w.node, s);
      }
    }
  }
}
