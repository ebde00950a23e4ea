/** What the engine does with one record of the outbox, what message a record becomes, and what
    a message of the relay says to one who waits. */
module OutboxAnswers {
  import opened Basics
  import opened RelayAck
  import opened RoomState
  import opened Outbox
  import opened OutboxConservation
  import H = Handoff

  // ---- What the engine does with one record ----

  /** The record that an id names, if the room has it and it is of one of these kinds. */
  ghost predicate Names(s: Store, room: string, id: string, kinds: set<string>, x: Entry) {
    x in s.entries && x.item.id == id && x.item.roomId == room && x.item.kind in kinds
  }

  /** A record enters under a new id, as the latest; under one that is held it is refused. */
  lemma EnqueueIff(s: Store, item: Item)
    ensures Enqueue(s, item) ==
              if exists x :: x in s.entries && x.item.id == item.id then Err(EngineRefused)
              else Ok(Store(s.entries + [Entry(item, s.issued)], s.issued + 1, s.published, s.expired, s.cleared))
  {
    hide Find;
    var found := Find(s.entries, item.id);
    if found.Some? { assert found.value in s.entries; }
  }

  lemma FoundIff(s: Store, room: string, id: string, kinds: set<string>)
    requires Unique(s.entries)
    ensures (exists x :: Names(s, room, id, kinds, x)) <==>
              && Find(s.entries, id).Some? && Find(s.entries, id).value.item.roomId == room
              && Find(s.entries, id).value.item.kind in kinds
  {
    var found := Find(s.entries, id);
    if x :| Names(s, room, id, kinds, x) { OneOfItsId(s.entries, x, found.value); }
    if found.Some? && found.value.item.roomId == room && found.value.item.kind in kinds {
      assert Names(s, room, id, kinds, found.value);
    }
  }

  /** A record leaves as published when the room has it, it is an application, a welcome, a
      denial or a commit, and the engine does not refuse; the call succeeds if nothing fails
      after that. */
  lemma PublishedIff(s: Store, room: string, id: string, engine: Settlement)
    requires Unique(s.entries)
    ensures var (after, error) := PublishSucceeded(s, room, id, engine);
            var kinds := {"application", "welcome", "invite-denial", "add", "remove", "handoff"};
            && after == (if (exists x :: Names(s, room, id, kinds, x)) && !engine.Refuses?
                         then Leave(s, ByAcknowledgement, {id}) else s)
            && error == if (exists x :: Names(s, room, id, kinds, x)) && engine.Settles? then None
                        else Some(EngineRefused)
  {
    hide Find, Without, TicketsOf, Names, Unique;
    FoundIff(s, room, id, {"application", "welcome", "invite-denial", "add", "remove", "handoff"});
  }

  /** Only an application can be retired. */
  lemma RetiredIff(s: Store, room: string, id: string, engine: Settlement)
    requires Unique(s.entries)
    ensures var (after, error) := RetireExpiredApplication(s, room, id, engine);
            && after == (if (exists x :: Names(s, room, id, {"application"}, x)) && !engine.Refuses?
                         then Leave(s, ByExpiry, {id}) else s)
            && error == if (exists x :: Names(s, room, id, {"application"}, x)) && engine.Settles? then None
                        else Some(EngineRefused)
  {
    hide Find, Without, TicketsOf, Names, Unique;
    FoundIff(s, room, id, {"application"});
  }

  /** Only a commit can be cleared, and with an added member's commit go the welcomes of its
      own room and epoch, and nothing else. */
  lemma ClearedIff(s: Store, room: string, id: string, ok: bool)
    requires Unique(s.entries)
    ensures var r := ClearStaleCommit(s, room, id, ok);
            && (r.Ok? <==> ok && exists c :: Names(s, room, id, {"add", "remove", "handoff"}, c))
            && (r.Err? ==> r.error == EngineRefused)
            && (r.Ok? ==> forall c, x :: Names(s, room, id, {"add", "remove", "handoff"}, c) && x in s.entries ==>
                  (x !in r.value.entries <==>
                     || x == c
                     || (c.item.kind == "add" && x.item.kind == "welcome" && x.item.roomId == room
                         && x.item.epoch == c.item.epoch)))
  {
    hide Without, TicketsOf, Unique;
    FoundIff(s, room, id, {"add", "remove", "handoff"});
    var r := ClearStaleCommit(s, room, id, ok);
    if r.Ok? {
      forall c, x | Names(s, room, id, {"add", "remove", "handoff"}, c) && x in s.entries
        ensures x !in r.value.entries <==>
                  || x == c
                  || (c.item.kind == "add" && x.item.kind == "welcome" && x.item.roomId == room
                      && x.item.epoch == c.item.epoch)
      {
        OneOfItsId(s.entries, c, Find(s.entries, id).value);
        assert r.value.entries == Without(s.entries, LeavesWith(s.entries, c.item));
        SharedId(s.entries, c.item, x);
        if x.item.id == c.item.id { OneOfItsId(s.entries, x, c); }
      }
    }
  }

  lemma SharedId(entries: seq<Entry>, commit: Item, x: Entry)
    requires Unique(entries) && x in entries && exists c :: c in entries && c.item == commit
    ensures x.item.id in LeavesWith(entries, commit) <==>
              || x.item.id == commit.id
              || (commit.kind == "add" && x.item.kind == "welcome" && x.item.roomId == commit.roomId
                  && x.item.epoch == commit.epoch)
    ensures x.item.id == commit.id ==> x.item == commit
  {
    var c :| c in entries && c.item == commit;
    if x.item.id == commit.id { OneOfItsId(entries, x, c); }
    forall y | y in entries && y.item.id == x.item.id ensures y == x { OneOfItsId(entries, y, x); }
  }

  /** A record becomes a message exactly when it is an application whose authenticated data name
      the record, the room's route and the sender, or an added or removed member's commit; when
      the record is of the routed room; and when the message passes the wire validation. */
  lemma MessageIff(item: Item, route: Route, userId: string, deviceId: string)
    ensures var r := RelayMessageFor(item, route, userId, deviceId);
            && (r.Ok? <==>
                 && item.roomId == route.roomId && item.metadata.Some?
                 && match item.metadata.value
                    case ApplicationData(aad) =>
                      && item.kind == "application"
                      && ValidEnvelope(MessageOf(item, userId, deviceId, route, aad.createdAt))
                      && aad == Authenticated(aad.version, item.epoch, item.id, route.teamId, route.roomId, aad.kind,
                                              userId, deviceId, aad.createdAt)
                    case CommitData(parent) =>
                      && (item.kind == "add" || item.kind == "remove")
                      && ValidEnvelope(MessageOf(item, userId, deviceId, route, route.createdAt))
                    case _ => false)
            && (r.Ok? && item.metadata.value.ApplicationData? ==>
                  r.value == MessageOf(item, userId, deviceId, route, item.metadata.value.aad.createdAt))
            && (r.Ok? && item.metadata.value.CommitData? ==>
                  r.value == MessageOf(item, userId, deviceId, route, route.createdAt))
            && (r.Err? ==> r.error == InvalidOutbox)
  {
    hide ValidEnvelope;
  }

  /** An application under its own epoch, a commit under the epoch that it leaves. */
  function MessageOf(item: Item, userId: string, deviceId: string, route: Route, createdAt: string): H.Envelope {
    var commit := item.metadata.Some? && item.metadata.value.CommitData?;
    H.Envelope(item.id, route.teamId, route.roomId, userId, deviceId, createdAt,
               if commit then H.Commit else H.Application,
               if commit then item.metadata.value.parentEpoch else item.epoch,
               Some(item.payload), false, None, None, None)
  }

  /** What each message of the relay says to one who waits. */
  lemma OutcomeTells(t: Target, m: ServerMessage)
    ensures OutcomeOf(t, m) ==
              match t
              case ForPublish(id) =>
                if m == Published(id) then Accepted
                else if m.ErrorMessage? && m.errorFor in {None, Some(id)} then AckOutcome.Rejected(m.code) else Continue
              case ForJoin(team, room) =>
                if m == Joined(team, room) then Accepted
                else if m.ErrorMessage? && m.errorFor.None? then AckOutcome.Rejected(m.code) else Continue
  {
  }
}
