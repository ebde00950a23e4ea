/** What the runs of a room session guarantee to the user: the disk explains every
    call of MLS, and dropped messages are opened later. */
module RoomGuarantees {
  import opened Basics
  import opened Text
  import opened Handoff
  import opened ProcessedWindow
  import opened RoomState
  import opened RoomSession
  import opened RoomRuns

  // ---- Interrupted openings ----

  /** A disk that loads has recorded every call of `process_incoming` ever made; any
      other disk is refused, so an interrupted opening is never forgotten. */
  lemma LoadedDiskRecordsEveryCall(size: Sizer, scope: Scope, room: Room, steps: seq<Step>)
    ensures var disk := Run(size, scope, Fresh(scope, room), steps).node.disk;
            Load(size, disk, scope).Ok? ==>
              forall i :: 0 <= i < |disk.calls| ==> Holds(disk.savedRecorded, disk.calls[i])
  {
    var w := Run(size, scope, Fresh(scope, room), steps);
    FreshKeeps(scope, room);
    RunKeeps(size, scope, Fresh(scope, room), steps);
    DiskKeeps(w.node, w.running);
    if Load(size, w.node.disk, scope).Ok? {
      forall i | 0 <= i < |w.node.disk.calls| ensures Holds(w.node.disk.savedRecorded, w.node.disk.calls[i]) {
        assert Accounted(w.node, false, w.node.disk.calls[i]);
      }
    }
  }

  /** A foreign envelope of this room that MLS could open. */
  predicate Openable(n: Node, e: Envelope) {
    && e.teamId == n.memory.recovery.scope.teamId && e.roomId == n.memory.recovery.scope.roomId
    && ValidEnvelopeId(e.id) && e.ciphertext.Some? && !Own(n, e)
  }

  /** What follows the call of MLS is refused before the envelope is recorded: by MLS, by
      the checks of a handoff commit, or by the projection of an application message. */
  predicate Refuses(n: Node, e: Envelope, env: Env) {
    || env.mls.MlsRefuses?
    || (e.messageType == Commit && e.hostHandoff && !env.mls.MlsDies? && HostTransfer(n, e, env.snapshot).1.Err?)
    || (e.messageType == Application && env.mls.Opened?
        && Project(n.room, n.memory.recovery.offers, e, env.mls.aad, env.mls.plaintext).0.None?)
  }

  /** A foreign envelope of this room that MLS is about to be called for. */
  ghost predicate Called(size: Sizer, n: Node, e: Envelope, env: Env) {
    && Openable(n, e) && e.id !in n.memory.recovery.processed && n.memory.recovery.pending.None?
    && Fitting(size, WithPending(n.memory, Some(e.id)).recovery).Some? && env.begin.Written?
  }

  /** After a call of MLS that ends in an error the disk bears the marker.  The live session
      is stuck on it too exactly when the envelope was refused; when the final write
      failed instead, memory has recorded the envelope and goes on. */
  lemma FailureBehindMarkerIsStuckIff(size: Sizer, n: Node, e: Envelope, env: Env)
    requires Called(size, n, e, env)
    ensures var (m, o) := Open(size, n, e, env);
            && (o.Error? ==> m.disk.saved.Some? && m.disk.saved.value.pending == Some(e.id))
            && (o.Error? && StuckNode(m) <==> Refuses(n, e, env))
            && (o.Error? && !Refuses(n, e, env) ==>
                  m.memory.recovery.pending.None? && e.id in m.memory.recovery.processed)
  {
    hide HostTransfer, Project, Persist, Fitting;
    var marked := n.(memory := WithPending(n.memory, Some(e.id)));
    FittingKeeps(size, marked.memory.recovery);
    MarkerIsWritten(size, marked, env.begin);
    var begun := CallMls(Begin(size, n, e.id, env.begin).0, e.id);
    SameOffersRefuse(n, begun, e, env);
    FailureAfterMls(size, begun, e, env);
  }

  lemma MarkerIsWritten(size: Sizer, n: Node, fate: WriteFate)
    requires Fitting(size, n.memory.recovery).Some? && fate.Written?
    ensures var (m, effect) := Persist(size, n, fate);
            && effect.Done? && m.disk.saved == Some(m.memory.recovery) && m.room == n.room
            && m.memory.recovery == n.memory.recovery.(history := m.memory.recovery.history)
  {
    FittingKeeps(size, n.memory.recovery);
  }

  /** The marker changes nothing that a refusal depends on. */
  lemma SameOffersRefuse(n: Node, m: Node, e: Envelope, env: Env)
    requires m.room == n.room && m.memory.recovery.offers == n.memory.recovery.offers
    ensures Refuses(m, e, env) <==> Refuses(n, e, env)
  {
    hide Handoff.Receive, Project;
  }

  lemma FinishFails(size: Sizer, n: Node, id: string, event: Option<Event>, fate: WriteFate)
    requires n.memory.recovery.pending == Some(id)
    ensures var (m, effect) := Finish(size, n, id, event, fate);
            && id in m.memory.recovery.processed && m.memory.recovery.pending.None?
            && (effect.Failed? ==> m.disk.saved == n.disk.saved)
  {
    hide Persist;
    RememberedIsHeld(n.memory.recovery.processed, id);
    PersistWrites(size, n.(memory := WithPending(Note(Mark(n.memory, id), event), None)), fate);
  }

  lemma FailureAfterMls(size: Sizer, n: Node, e: Envelope, env: Env)
    requires n.memory.recovery.pending == Some(e.id)
    requires n.disk.saved.Some? && n.disk.saved.value.pending == Some(e.id)
    ensures var (m, o) := AfterMls(size, n, e, env);
            && (o.Error? ==> m.disk.saved == n.disk.saved)
            && (o.Error? && StuckNode(m) <==> Refuses(n, e, env))
            && (o.Error? && !Refuses(n, e, env) ==>
                  m.memory.recovery.pending.None? && e.id in m.memory.recovery.processed)
  {
    hide HostTransfer, Project, Finish;
    var (m, transfer) := HostTransfer(n, e, env.snapshot);
    HostTransferKeepsMarks(n, e, env.snapshot);
    FinishFails(size, n, e.id, None, env.finish);
    if transfer.Ok? {
      FinishFails(size, m, e.id, Some(transfer.value), env.finish);
    }
    if env.mls.Opened? {
      var (event, offers) := Project(n.room, n.memory.recovery.offers, e, env.mls.aad, env.mls.plaintext);
      FinishFails(size, n.(memory := WithOffers(n.memory, offers)), e.id, event, env.finish);
    }
  }

  // ---- Dropped messages ----

  /** How many messages a batch handles: all of them, or those up to the first failure. */
  function Handled(size: Sizer, n: Node, messages: seq<ServerMessage>, envs: seq<Env>): (k: nat)
    requires |envs| == |messages|
    ensures k <= |messages|
    decreases |messages|
  {
    if messages == [] then 0
    else
      var (m, outcome) := Deliver(size, n, messages[0], envs[0]);
      if outcome.Projected? then 1 + Handled(size, m, messages[1..], envs[1..]) else 1
  }

  lemma RememberAddsOnly(window: seq<string>, id: string, other: string)
    requires other !in window && other != id
    ensures other !in Remember(window, id)
  {
  }

  /** Delivering a message records no id but its own. */
  lemma DeliverRecordsOnlyItsId(size: Sizer, n: Node, m: ServerMessage, env: Env, other: string)
    requires other !in n.memory.recovery.processed && other != MessageId(m)
    ensures other !in Deliver(size, n, m, env).0.memory.recovery.processed
  {
    hide HostTransfer, Project, Persist;
    if m.MlsMessage? {
      var e := m.envelope;
      RememberAddsOnly(n.memory.recovery.processed, e.id, other);
      HostTransferKeepsMarks(n, e, env.snapshot);
      var (h, transfer) := HostTransfer(n, e, env.snapshot);
      PersistWrites(size, n.(memory := Mark(n.memory, e.id)), env.finish);
      if transfer.Ok? {
        PersistWrites(size, h.(memory := Note(Mark(h.memory, e.id), Some(transfer.value))), env.finish);
      }
      if n.memory.recovery.pending.None? {
        PersistWrites(size, n.(memory := WithPending(n.memory, Some(e.id))), env.begin);
        var begun := CallMls(Begin(size, n, e.id, env.begin).0, e.id);
        if begun.memory.recovery.pending == Some(e.id) {
          AfterMlsRecordsOnlyItsId(size, begun, e, env, other);
        }
      }
    }
  }

  lemma FinishRecordsOnlyItsId(size: Sizer, n: Node, id: string, event: Option<Event>, fate: WriteFate, other: string)
    requires other !in n.memory.recovery.processed && other != id
    ensures other !in Finish(size, n, id, event, fate).0.memory.recovery.processed
  {
    hide Persist;
    RememberAddsOnly(n.memory.recovery.processed, id, other);
    PersistWrites(size, n.(memory := WithPending(Note(Mark(n.memory, id), event), None)), fate);
  }

  lemma AfterMlsRecordsOnlyItsId(size: Sizer, n: Node, e: Envelope, env: Env, other: string)
    requires other !in n.memory.recovery.processed && other != e.id
    ensures other !in AfterMls(size, n, e, env).0.memory.recovery.processed
  {
    hide HostTransfer, Project, Finish;
    var (m, transfer) := HostTransfer(n, e, env.snapshot);
    HostTransferKeepsMarks(n, e, env.snapshot);
    FinishRecordsOnlyItsId(size, n, e.id, None, env.finish, other);
    if transfer.Ok? {
      FinishRecordsOnlyItsId(size, m, e.id, Some(transfer.value), env.finish, other);
    }
    if env.mls.Opened? {
      var (event, offers) := Project(n.room, n.memory.recovery.offers, e, env.mls.aad, env.mls.plaintext);
      FinishRecordsOnlyItsId(size, n.(memory := WithOffers(n.memory, offers)), e.id, event, env.finish, other);
    }
  }

  /** Messages behind a failure are dropped unrecorded. */
  lemma {:induction false} DroppedMessagesAreUnrecorded(
      size: Sizer, n: Node, messages: seq<ServerMessage>, envs: seq<Env>, projected: seq<Event>, id: string)
    requires |envs| == |messages| && id !in n.memory.recovery.processed
    requires forall k :: 0 <= k < Handled(size, n, messages, envs) ==> MessageId(messages[k]) != id
    ensures id !in DeliverAll(size, n, messages, envs, projected).0.memory.recovery.processed
    decreases |messages|
  {
    if messages != [] {
      var (m, outcome) := Deliver(size, n, messages[0], envs[0]);
      DeliverRecordsOnlyItsId(size, n, messages[0], envs[0], id);
      if outcome.Projected? {
        var more := if outcome.event.Some? then projected + [outcome.event.value] else projected;
        forall k | 0 <= k < Handled(size, m, messages[1..], envs[1..]) ensures MessageId(messages[1..][k]) != id {
          assert messages[1..][k] == messages[k + 1];
        }
        DroppedMessagesAreUnrecorded(size, m, messages[1..], envs[1..], more, id);
      }
    }
  }

  /** ... and so their redelivery is opened: MLS is called for a foreign envelope exactly
      when the window does not hold it, no marker stands, and the marker can be written. */
  lemma UnrecordedEnvelopeIsOpened(size: Sizer, n: Node, e: Envelope, env: Env)
    requires Openable(n, e)
    ensures Open(size, n, e, env).0.disk.calls == n.disk.calls + [Call(e.id, |n.memory.recorded|)] <==>
              && e.id !in n.memory.recovery.processed
              && n.memory.recovery.pending.None?
              && Fitting(size, WithPending(n.memory, Some(e.id)).recovery).Some?
              && env.begin.Written?
  {
    hide HostTransfer, Project, Fitting;
    if e.id !in n.memory.recovery.processed && n.memory.recovery.pending.None? {
      var (begun, effect) := Begin(size, n, e.id, env.begin);
      FittingKeeps(size, WithPending(n.memory, Some(e.id)).recovery);
      AfterMlsCallsNothing(size, CallMls(begun, e.id), e, env);
    }
  }

  lemma AfterMlsCallsNothing(size: Sizer, n: Node, e: Envelope, env: Env)
    ensures AfterMls(size, n, e, env).0.disk.calls == n.disk.calls
  {
    hide HostTransfer, Project, Persist;
    var (m, transfer) := HostTransfer(n, e, env.snapshot);
    HostTransferKeepsMarks(n, e, env.snapshot);
    FinishCallsNothing(size, n, e.id, None, env.finish);
    if transfer.Ok? {
      FinishCallsNothing(size, m, e.id, Some(transfer.value), env.finish);
    }
    if env.mls.Opened? {
      var (event, offers) := Project(n.room, n.memory.recovery.offers, e, env.mls.aad, env.mls.plaintext);
      FinishCallsNothing(size, n.(memory := WithOffers(n.memory, offers)), e.id, event, env.finish);
    }
  }

  lemma FinishCallsNothing(size: Sizer, n: Node, id: string, event: Option<Event>, fate: WriteFate)
    ensures Finish(size, n, id, event, fate).0.disk.calls == n.disk.calls
  {
    hide Persist;
    PersistWrites(size, n.(memory := WithPending(Note(Mark(n.memory, id), event), None)), fate);
  }

  // ---- The client's own records ----

  /** A local record that was queued is in the window, in memory and on disk, before its
      publication is attempted. */
  lemma QueuedRecordIsMarked(size: Sizer, n: Node, id: string, event: Event, engine: WriteFate, save: WriteFate)
    requires NodeInv(n, true)
    ensures var (m, o) := Queue(size, n, id, event, engine, save);
            o.Projected? ==>
              && id in m.memory.recovery.processed && m.disk.saved == Some(m.memory.recovery)
              && m.disk.outbox == n.disk.outbox + {id}
  {
    hide Persist, ValidHistoryEvent, ValidToken, NodeInv, Remember, Record;
    var queued := n.(disk := n.disk.(outbox := n.disk.outbox + {id}));
    RememberedIsHeld(n.memory.recovery.processed, id);
    var noted := queued.(memory := Note(Mark(queued.memory, id), Some(event)));
    PersistWrites(size, noted, save);
    PersistKeepsOutbox(size, noted, save);
  }

  /** Nothing that the client sent itself is handed to MLS again, a handoff commit included. */
  lemma OwnEnvelopeCallsNothing(size: Sizer, n: Node, e: Envelope, env: Env)
    requires Own(n, e)
    ensures Open(size, n, e, env).0.disk.calls == n.disk.calls
  {
    hide HostTransfer, Persist;
    HostTransferKeepsMarks(n, e, env.snapshot);
    var m := HostTransfer(n, e, env.snapshot);
    PersistWrites(size, n.(memory := Mark(n.memory, e.id)), env.finish);
    if m.1.Ok? {
      PersistWrites(size, m.0.(memory := Note(Mark(m.0.memory, e.id), Some(m.1.value))), env.finish);
    }
  }

  /** The echo of the client's own application is never handed to MLS, never projected
      and never added to the history, even when a crash lost the mark. */
  lemma OwnEchoIsNeverOpened(size: Sizer, n: Node, echo: Envelope, env: Env)
    requires Own(n, echo) && !echo.hostHandoff
    ensures var (m, o) := Open(size, n, echo, env);
            && m.disk.calls == n.disk.calls
            && (o.Projected? ==> o.event.None?)
            && |m.memory.recovery.history| <= |n.memory.recovery.history|
            && m.memory.recovery.history
               == n.memory.recovery.history[|n.memory.recovery.history| - |m.memory.recovery.history|..]
  {
    var marked := n.(memory := Mark(n.memory, echo.id));
    FittingKeeps(size, marked.memory.recovery);
  }
}
