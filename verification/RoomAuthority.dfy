/** Where every event of a stored history comes from. */
module RoomAuthority {
  import opened Basics
  import opened Handoff
  import opened RoomState
  import opened RoomSession
  import opened RoomRuns

  /** Every event that a session remembers or has on disk. */
  ghost predicate Has(n: Node, e: Event) {
    e in n.memory.recovery.history || (n.disk.saved.Some? && e in n.disk.saved.value.history)
  }

  /** At most one event is new. */
  ghost predicate Adds(n: Node, m: Node, event: Option<Event>) {
    forall e :: Has(m, e) ==> Has(n, e) || event == Some(e)
  }

  lemma AddsInTurn(n: Node, m: Node, k: Node, event: Option<Event>)
    requires (Adds(n, m, None) && Adds(m, k, event)) || (Adds(n, m, event) && Adds(m, k, None))
    ensures Adds(n, k, event)
  {
  }

  lemma PersistAdds(size: Sizer, n: Node, fate: WriteFate)
    ensures Adds(n, Persist(size, n, fate).0, None)
  {
    var r := n.memory.recovery;
    FittingKeeps(size, r);
    if Fitting(size, r).Some? {
      var kept := Fitting(size, r).value.history;
      assert forall e :: e in kept ==> e in r.history;
    }
  }

  lemma NoteAdds(n: Node, event: Option<Event>)
    ensures Adds(n, n.(memory := Note(n.memory, event)), event)
  {
  }

  lemma SameHistoryAdds(n: Node, m: Node)
    requires m.memory.recovery.history == n.memory.recovery.history && m.disk.saved == n.disk.saved
    ensures Adds(n, m, None)
  {
  }

  /** Marking, noting and writing in any of the orders that the session uses. */
  lemma NotedAndWritten(size: Sizer, n: Node, marked: Node, m: Node, event: Option<Event>, fate: WriteFate)
    requires marked.memory.recovery.history == n.memory.recovery.history && marked.disk.saved == n.disk.saved
    requires m.memory.recovery.history == Note(marked.memory, event).recovery.history && m.disk.saved == n.disk.saved
    ensures Adds(n, Persist(size, m, fate).0, event)
  {
    hide Persist, Adds;
    var noted := marked.(memory := Note(marked.memory, event));
    SameHistoryAdds(n, marked);
    NoteAdds(marked, event);
    AddsInTurn(n, marked, noted, event);
    SameHistoryAdds(noted, m);
    AddsInTurn(n, noted, m, event);
    PersistAdds(size, m, fate);
    AddsInTurn(n, m, Persist(size, m, fate).0, event);
  }

  lemma FinishAdds(size: Sizer, n: Node, id: string, event: Option<Event>, fate: WriteFate)
    ensures Adds(n, Finish(size, n, id, event, fate).0, event)
  {
    hide Persist;
    var marked := n.(memory := Mark(n.memory, id));
    NotedAndWritten(size, n, marked, n.(memory := WithPending(Note(marked.memory, event), None)), event, fate);
  }

  /** The event that opening an envelope may add. */
  function Opening(n: Node, e: Envelope, env: Env): Option<Event> {
    if e.hostHandoff && (Own(n, e) || e.messageType == Commit) then
      var transfer := HostTransfer(n, e, env.snapshot).1;
      if transfer.Ok? then Some(transfer.value) else None
    else if !Own(n, e) && e.messageType == Application && env.mls.Opened? then
      Project(n.room, n.memory.recovery.offers, e, env.mls.aad, env.mls.plaintext).0
    else None
  }

  lemma TransferKeepsHistory(n: Node, e: Envelope, snapshot: Option<GroupSnapshot>)
    ensures var m := HostTransfer(n, e, snapshot).0;
            m.memory.recovery.history == n.memory.recovery.history && m.disk.saved == n.disk.saved
  {
  }

  lemma AfterMlsAdds(size: Sizer, n: Node, e: Envelope, env: Env)
    requires !Own(n, e)
    ensures Adds(n, AfterMls(size, n, e, env).0, Opening(n, e, env))
  {
    hide HostTransfer, Project, Finish, Adds, Own;
    var (h, transfer) := HostTransfer(n, e, env.snapshot);
    TransferKeepsHistory(n, e, env.snapshot);
    SameHistoryAdds(n, n);
    SameHistoryAdds(n, h);
    AddsNothing(n, n, Opening(n, e, env));
    AddsNothing(n, h, Opening(n, e, env));
    if e.messageType == Commit && e.hostHandoff {
      if transfer.Ok? {
        FinishAdds(size, h, e.id, Some(transfer.value), env.finish);
        AddsInTurn(n, h, Finish(size, h, e.id, Some(transfer.value), env.finish).0, Some(transfer.value));
      }
    } else if e.messageType == Application && env.mls.Opened? {
      var (event, offers) := Project(n.room, n.memory.recovery.offers, e, env.mls.aad, env.mls.plaintext);
      var m := n.(memory := WithOffers(n.memory, offers));
      SameHistoryAdds(n, m);
      FinishAdds(size, m, e.id, event, env.finish);
      AddsInTurn(n, m, Finish(size, m, e.id, event, env.finish).0, event);
      FinishAdds(size, n, e.id, None, env.finish);
    } else {
      FinishAdds(size, n, e.id, None, env.finish);
    }
  }

  lemma AddsNothing(n: Node, m: Node, event: Option<Event>)
    requires Adds(n, m, None)
    ensures Adds(n, m, event)
  {
  }

  lemma OwnAdds(size: Sizer, n: Node, e: Envelope, env: Env)
    requires Own(n, e)
    ensures Adds(n, OpenOwn(size, n, e, env).0, Opening(n, e, env))
  {
    hide HostTransfer, Persist, Adds;
    var (h, transfer) := HostTransfer(n, e, env.snapshot);
    TransferKeepsHistory(n, e, env.snapshot);
    SameHistoryAdds(n, n);
    SameHistoryAdds(n, h);
    AddsNothing(n, n, Opening(n, e, env));
    AddsNothing(n, h, Opening(n, e, env));
    var marked := n.(memory := Mark(n.memory, e.id));
    NotedAndWritten(size, n, marked, marked, None, env.finish);
    if e.hostHandoff && transfer.Ok? {
      var event := Some(transfer.value);
      var hMarked := h.(memory := Mark(h.memory, e.id));
      NotedAndWritten(size, h, hMarked, h.(memory := Note(hMarked.memory, event)), event, env.finish);
      AddsInTurn(n, h, Persist(size, h.(memory := Note(hMarked.memory, event)), env.finish).0, event);
    }
  }

  /** The marker changes nothing that an opening depends on. */
  lemma SameOpening(n: Node, m: Node, e: Envelope, env: Env)
    requires m.room == n.room && m.memory.recovery.offers == n.memory.recovery.offers
    requires m.memory.recovery.scope == n.memory.recovery.scope
    ensures Opening(m, e, env) == Opening(n, e, env)
  {
    hide Handoff.Receive, Project;
  }

  lemma PersistKeepsRest(size: Sizer, n: Node, fate: WriteFate)
    ensures var m := Persist(size, n, fate).0;
            m.room == n.room && m.memory.recovery.offers == n.memory.recovery.offers
            && m.memory.recovery.scope == n.memory.recovery.scope
  {
    FittingKeeps(size, n.memory.recovery);
  }

  lemma OpenAdds(size: Sizer, n: Node, e: Envelope, env: Env)
    ensures Adds(n, Open(size, n, e, env).0, Opening(n, e, env))
  {
    hide AfterMls, OpenOwn, Persist, Adds, Opening;
    SameHistoryAdds(n, n);
    AddsNothing(n, n, Opening(n, e, env));
    if Own(n, e) {
      OwnAdds(size, n, e, env);
    } else if n.memory.recovery.pending.None? {
      var pending := n.(memory := WithPending(n.memory, Some(e.id)));
      var (begun, effect) := Persist(size, pending, env.begin);
      SameHistoryAdds(n, pending);
      PersistAdds(size, pending, env.begin);
      PersistKeepsRest(size, pending, env.begin);
      AddsInTurn(n, pending, begun, None);
      AddsNothing(n, begun, Opening(n, e, env));
      var called := CallMls(begun, e.id);
      SameHistoryAdds(begun, called);
      AddsInTurn(n, begun, called, None);
      SameOpening(n, called, e, env);
      AfterMlsAdds(size, called, e, env);
      AddsInTurn(n, called, AfterMls(size, called, e, env).0, Opening(n, e, env));
    }
  }

  lemma QueueAdds(size: Sizer, n: Node, id: string, event: Event, engine: WriteFate, save: WriteFate)
    ensures Adds(n, Queue(size, n, id, event, engine, save).0, Some(event))
  {
    hide Persist, ValidHistoryEvent;
    var queued := n.(disk := n.disk.(outbox := n.disk.outbox + {id}));
    var marked := queued.(memory := Mark(queued.memory, id));
    NotedAndWritten(size, n, marked, marked.(memory := Note(marked.memory, Some(event))), Some(event), save);
  }

  // ---- Runs ----

  /** The event that a step may add to the history. */
  function Addition(n: Node, s: Step): Option<Event> {
    match s
    case Receive(MlsMessage(e), env) => Opening(n, e, env)
    case QueueLocal(_, event, _, _) => Some(event)
    case Offer(_, offer, _, _) => Some(HandoffOffered(FreshOffer(offer)))
    case Request(offerId, _, Listed(me), _, _) => Some(WantedEvent(Handoff.Request(offerId, me)))
    case _ => None
  }

  lemma LocalAdds(size: Sizer, n: Node, s: Step)
    ensures s.Offer? ==> Adds(n, OfferHandoff(size, n, s.id, s.offer, s.engine, s.save).0, Addition(n, s))
    ensures s.Request? ==> Adds(n, RequestHandoff(size, n, s.offerId, s.id, s.roster, s.engine, s.save).0,
              Addition(n, s))
    ensures s.Thread? ==> Adds(n, SaveThread(size, n, s.threadId, s.fate).0, Addition(n, s))
  {
    hide Persist, Queue, Handoff.Receive, RequestRefusal, ValidThreadId, Adds, WantedEvent;
    SameHistoryAdds(n, n);
    AddsNothing(n, n, Addition(n, s));
    match s {
      case Offer(id, offer, engine, save) =>
        var clean := FreshOffer(offer);
        var m := n.(memory := WithOffers(n.memory, Handoff.Receive(n.memory.recovery.offers, Offered(clean)).0));
        SameHistoryAdds(n, m);
        QueueAdds(size, m, id, HandoffOffered(clean), engine, save);
        AddsInTurn(n, m, Queue(size, m, id, HandoffOffered(clean), engine, save).0, Addition(n, s));
      case Request(offerId, id, Listed(me), engine, save) =>
        var request := Handoff.Request(offerId, me);
        var m := n.(memory := WithOffers(n.memory, Handoff.Receive(n.memory.recovery.offers, Wanted(request)).0));
        SameHistoryAdds(n, m);
        QueueAdds(size, m, id, WantedEvent(request), engine, save);
        AddsInTurn(n, m, Queue(size, m, id, WantedEvent(request), engine, save).0, Addition(n, s));
      case Thread(id, fate) =>
        var named := n.(memory := n.memory.(recovery := n.memory.recovery.(codexThreadId := Some(id))));
        SameHistoryAdds(n, named);
        PersistAdds(size, named, fate);
        AddsInTurn(n, named, Persist(size, named, fate).0, None);
      case _ =>
    }
  }

  lemma StepAdds(size: Sizer, scope: Scope, w: World, s: Step)
    ensures Adds(w.node, Next(size, scope, w, s).node, if w.running then Addition(w.node, s) else None)
  {
    hide Open, Queue, OfferHandoff, RequestHandoff, SaveThread, ValidRecovery, Opening;
    if w.running {
      match s {
        case Receive(m, env) => if m.MlsMessage? { OpenAdds(size, w.node, m.envelope, env); }
        case QueueLocal(id, event, engine, save) => QueueAdds(size, w.node, id, event, engine, save);
        case _ => LocalAdds(size, w.node, s);
      }
    }
  }

  /** Only the host's own device may speak these. */
  predicate HostOnly(e: Event) {
    || (e.Chat? && e.role != Human)
    || (e.Proposal? && e.action != Queued)
    || e.Turn? || e.Activity? || e.HandoffOffered?
  }

  /** The event appeared with step `k`: as a record of the client's own, or in an envelope that MLS
      opened, and then the speaker had the authority that the event needs. */
  ghost predicate BroughtAt(size: Sizer, scope: Scope, room: Room, steps: seq<Step>, k: nat, e: Event)
    requires k < |steps|
  {
    var w := Run(size, scope, Fresh(scope, room), steps[..k]);
    && !Has(w.node, e) && Has(Run(size, scope, Fresh(scope, room), steps[..k + 1]).node, e)
    && w.running && Addition(w.node, steps[k]) == Some(e)
    && (!Local(steps[k]) ==>
          && steps[k].Receive? && steps[k].message.MlsMessage?
          && (HostOnly(e) ==> FromActiveHost(w.node.room, steps[k].message.envelope)))
  }

  predicate Local(s: Step) { s.QueueLocal? || s.Offer? || s.Request? }

  lemma OpeningHasAuthority(n: Node, e: Envelope, env: Env)
    requires Opening(n, e, env).Some? && HostOnly(Opening(n, e, env).value)
    ensures FromActiveHost(n.room, e)
  {
    hide Project, Handoff.Receive;
    if !(e.hostHandoff && (Own(n, e) || e.messageType == Commit)) {
      ProjectionRespectsAuthority(n.room, n.memory.recovery.offers, e, env.mls.aad, env.mls.plaintext);
    }
  }

  /** In every run each event that a client remembers or has on disk was queued by the client
      itself or came in an envelope; and turns, activities, handoff offers, assistant chat and
      queue decisions came from the device that was the active host's when it was opened. */
  lemma {:induction false} HistoryHasAuthority(
      size: Sizer, scope: Scope, room: Room, steps: seq<Step>, e: Event) returns (k: nat)
    requires Has(Run(size, scope, Fresh(scope, room), steps).node, e)
    ensures k < |steps| && BroughtAt(size, scope, room, steps, k, e)
  {
    hide Next, Adds, Opening, HostOnly, FromActiveHost, Has;
    NothingAtFirst(scope, room, e);
    var last := |steps| - 1;
    var front := steps[..last];
    var w := Run(size, scope, Fresh(scope, room), front);
    StepAdds(size, scope, w, steps[last]);
    if Has(w.node, e) {
      k := HistoryHasAuthority(size, scope, room, front, e);
      assert front[..k] == steps[..k] && front[..k + 1] == steps[..k + 1];
    } else {
      k := last;
      assert steps[..k + 1] == steps;
      AddedIs(w.node, Next(size, scope, w, steps[last]).node,
          if w.running then Addition(w.node, steps[last]) else None, e);
      if steps[last].Receive? && steps[last].message.MlsMessage? && HostOnly(e) {
        OpeningHasAuthority(w.node, steps[last].message.envelope, steps[last].env);
      }
    }
  }

  lemma NothingAtFirst(scope: Scope, room: Room, e: Event)
    ensures !Has(Fresh(scope, room).node, e)
  {
  }

  lemma AddedIs(n: Node, m: Node, event: Option<Event>, e: Event)
    requires Adds(n, m, event) && Has(m, e) && !Has(n, e)
    ensures event == Some(e)
  {
  }
}
