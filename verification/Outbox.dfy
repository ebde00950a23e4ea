/** The durable outbox and its drains (`mls.rs`, over the engine's outbox lifecycle).

    Every record that enters the outbox takes a ticket; `published`, `expired` and
    `cleared` are history variables that keep the tickets of the records that left. */
module Outbox {
  import opened Basics
  import opened RelayAck
  import opened RoomState
  import H = Handoff

  datatype Metadata = ApplicationData(aad: Authenticated) | CommitData(parentEpoch: nat) | OtherData | Unreadable

  datatype Item = Item(id: string, roomId: string, epoch: nat, kind: string, payload: string,
      metadata: Option<Metadata>)

  datatype Entry = Entry(item: Item, ticket: nat)

  datatype Route = Route(teamId: string, roomId: string, createdAt: string)

  datatype MlsError = InvalidOutbox | RequiresRejoin | EngineRefused | Relay(error: TransportError)

  datatype Store = Store(entries: seq<Entry>, issued: nat, published: set<nat>, expired: set<nat>, cleared: set<nat>)

  // ---- The store ----

  function Find(entries: seq<Entry>, id: string): (e: Option<Entry>)
    ensures e.Some? ==> e.value in entries && e.value.item.id == id
    ensures e.None? ==> forall x :: x in entries ==> x.item.id != id
  {
    if entries == [] then None
    else if entries[0].item.id == id then Some(entries[0])
    else Find(entries[1..], id)
  }

  function Without(entries: seq<Entry>, ids: set<string>): (r: seq<Entry>)
    ensures forall x :: x in r <==> x in entries && x.item.id !in ids
    ensures Unique(entries) ==> Unique(r)
  {
    if entries == [] then []
    else
      var rest := Without(entries[1..], ids);
      if entries[0].item.id in ids then rest else [entries[0]] + rest
  }

  function Tickets(entries: seq<Entry>): set<nat> { set x | x in entries :: x.ticket }

  function TicketsOf(entries: seq<Entry>, ids: set<string>): set<nat> {
    set x | x in entries && x.item.id in ids :: x.ticket
  }

  predicate Unique(entries: seq<Entry>) {
    forall i, j :: 0 <= i < j < |entries| ==>
      entries[i].item.id != entries[j].item.id && entries[i].ticket != entries[j].ticket
  }

  const COMMIT_KINDS := {"add", "remove", "handoff"}

  const MESSAGE_KINDS := {"application", "welcome", "invite-denial"}

  /** A record enters under an id that the outbox does not hold. */
  function Enqueue(s: Store, item: Item): Result<Store, MlsError> {
    if Find(s.entries, item.id).Some? then Err(EngineRefused)
    else Ok(s.(entries := s.entries + [Entry(item, s.issued)], issued := s.issued + 1))
  }

  /** What becomes of a record that is to be settled: it leaves; it stays, with an error; or
      it leaves and an error follows, because the engine deletes it before it looks up the
      epoch to answer. */
  datatype Settlement = Settles | Refuses | SettlesAndFails

  function Failure(engine: Settlement): Option<MlsError> {
    if engine.Settles? then None else Some(EngineRefused)
  }

  /** `publish_succeeded`. */
  function PublishSucceeded(s: Store, room: string, id: string, engine: Settlement): (Store, Option<MlsError>) {
    match Find(s.entries, id)
    case None => (s, Some(EngineRefused))
    case Some(e) =>
      if e.item.roomId != room || (e.item.kind !in MESSAGE_KINDS && e.item.kind !in COMMIT_KINDS) || engine.Refuses?
      then (s, Some(EngineRefused))
      else (s.(entries := Without(s.entries, {id}), published := s.published + TicketsOf(s.entries, {id})),
            Failure(engine))
  }

  /** What leaves with a stale commit: the commit, and the welcomes of its epoch when it
      added a member. */
  function LeavesWith(entries: seq<Entry>, commit: Item): set<string> {
    {commit.id} + if commit.kind == "add" then
                    set x | x in entries && x.item.roomId == commit.roomId && x.item.epoch == commit.epoch
                            && x.item.kind == "welcome" :: x.item.id
                  else {}
  }

  /** `clear_pending_commit`. */
  function ClearStaleCommit(s: Store, room: string, id: string, ok: bool): Result<Store, MlsError> {
    match Find(s.entries, id)
    case None => Err(EngineRefused)
    case Some(e) =>
      if e.item.roomId != room || e.item.kind !in COMMIT_KINDS || !ok then Err(EngineRefused)
      else
        var ids := LeavesWith(s.entries, e.item);
        Ok(s.(entries := Without(s.entries, ids), cleared := s.cleared + TicketsOf(s.entries, ids)))
  }

  /** `retire_stale_application`. */
  function RetireExpiredApplication(s: Store, room: string, id: string, engine: Settlement)
    : (Store, Option<MlsError>)
  {
    match Find(s.entries, id)
    case None => (s, Some(EngineRefused))
    case Some(e) =>
      if e.item.roomId != room || e.item.kind != "application" || engine.Refuses? then (s, Some(EngineRefused))
      else (s.(entries := Without(s.entries, {id}), expired := s.expired + TicketsOf(s.entries, {id})),
            Failure(engine))
  }

  // ---- The message of a record ----

  function RelayMessageFor(item: Item, route: Route, userId: string, deviceId: string): Result<H.Envelope, MlsError> {
    if item.roomId != route.roomId then Err(InvalidOutbox)
    else
      match item.metadata
      case Some(ApplicationData(aad)) =>
        if item.kind != "application" || aad.messageId != item.id || aad.roomId != route.roomId
           || aad.teamId != route.teamId || aad.senderUserId != userId || aad.senderDeviceId != deviceId
           || aad.epoch != item.epoch
        then Err(InvalidOutbox)
        else Validated(H.Envelope(item.id, aad.teamId, aad.roomId, aad.senderUserId, aad.senderDeviceId, aad.createdAt,
                                  H.Application, aad.epoch, Some(item.payload), false, None, None, None))
      case Some(CommitData(parentEpoch)) =>
        if item.kind !in {"add", "remove"} then Err(InvalidOutbox)
        else Validated(H.Envelope(item.id, route.teamId, route.roomId, userId, deviceId, route.createdAt,
                                  H.Commit, parentEpoch, Some(item.payload), false, None, None, None))
      case _ => Err(InvalidOutbox)
  }

  function Validated(e: H.Envelope): Result<H.Envelope, MlsError> {
    if ValidEnvelope(e) then Ok(e) else Err(InvalidOutbox)
  }

  // ---- One drain ----

  /** Whether the socket takes the message, and what the engine does when it is to settle
      the record. */
  datatype Fate = Fate(sent: bool, engine: Settlement)

  datatype Report = Report(published: seq<string>, expired: seq<string>)

  /** `settled` counts the records of the work list that were published or retired. */
  datatype Drained = Drained(
    store: Store, incoming: seq<SocketEvent>, seen: seq<ServerMessage>, report: Report, settled: nat,
    error: Option<MlsError>)

  function Publish(id: string, incoming: seq<SocketEvent>, sent: bool): Waited {
    if sent then Await(ForPublish(id), incoming) else Waited(Err(ConnectionFailed), incoming, [])
  }

  function DrainOne(d: Drained, item: Item, route: Route, userId: string, deviceId: string, fate: Fate): Drained {
    match RelayMessageFor(item, route, userId, deviceId)
    case Err(error) => d.(error := Some(error))
    case Ok(message) =>
      var w := Publish(item.id, d.incoming, fate.sent);
      var next := d.(incoming := w.rest, seen := d.seen + w.seen);
      match w.result
      case Ok(_) =>
        (match PublishSucceeded(d.store, route.roomId, item.id, fate.engine)
         case (store, None) => next.(store := store, settled := d.settled + 1,
                                     report := d.report.(published := d.report.published + [item.id]))
         case (store, error) => next.(store := store, error := error))
      case Err(AckRejected(Some(ApplicationEpochExpired))) =>
        if message.messageType != H.Application then next.(error := Some(Relay(w.result.error)))
        else
          (match RetireExpiredApplication(d.store, route.roomId, item.id, fate.engine)
           case (store, None) => next.(store := store, settled := d.settled + 1,
                                       report := d.report.(expired := d.report.expired + [item.id]))
           case (store, error) => next.(store := store, error := error))
      case Err(AckRejected(Some(StaleEpoch))) =>
        if message.messageType != H.Commit then next.(error := Some(Relay(w.result.error)))
        else
          (match ClearStaleCommit(d.store, route.roomId, item.id, fate.engine.Settles?)
           case Ok(store) => next.(store := store, error := Some(RequiresRejoin))
           case Err(error) => next.(error := Some(error)))
      case Err(error) => next.(error := Some(Relay(error)))
  }

  /** `drain_items`: in order, until the first error. */
  function Drain(
      d: Drained, items: seq<Item>, route: Route, userId: string, deviceId: string, fates: seq<Fate>): Drained
    requires |fates| == |items|
    decreases |items|
  {
    if items == [] || d.error.Some? then d
    else Drain(DrainOne(d, items[0], route, userId, deviceId, fates[0]), items[1..], route, userId, deviceId,
        fates[1..])
  }

  function Begun(store: Store, incoming: seq<SocketEvent>): Drained {
    Drained(store, incoming, [], Report([], []), 0, None)
  }

  // ---- The work list of a room ----

  function Priority(kind: string): nat {
    if kind == "application" then 0 else if kind in {"welcome", "invite-denial"} then 2 else 1
  }

  predicate Before(a: Item, b: Item) {
    || a.epoch < b.epoch
    || (a.epoch == b.epoch
        && (Priority(a.kind) < Priority(b.kind) || (Priority(a.kind) == Priority(b.kind) && Less(a.id, b.id))))
  }

  function Insert(item: Item, sorted: seq<Item>): seq<Item> {
    if sorted == [] || !Before(sorted[0], item) then [item] + sorted
    else [sorted[0]] + Insert(item, sorted[1..])
  }

  predicate Selected(item: Item, room: string, applicationsOnly: bool) {
    item.roomId == room && (applicationsOnly ==> item.kind == "application")
  }

  /** The pending records of a room by epoch, priority of their kind, and id. */
  function WorkList(entries: seq<Entry>, room: string, applicationsOnly: bool): seq<Item> {
    if entries == [] then []
    else
      var rest := WorkList(entries[1..], room, applicationsOnly);
      if Selected(entries[0].item, room, applicationsOnly) then Insert(entries[0].item, rest) else rest
  }

  // ---- The service ----

  class OutboxService {
    var entries: seq<Entry>
    var requiresRejoin: set<string>
    const userId: string
    const deviceId: string
    const connection: RelayConnection
    ghost var issued: nat
    ghost var published: set<nat>
    ghost var expired: set<nat>
    ghost var cleared: set<nat>

    ghost function State(): Store reads this {
      Store(entries, issued, published, expired, cleared)
    }

    constructor (userId: string, deviceId: string, connection: RelayConnection)
      ensures State() == Store([], 0, {}, {}, {}) && requiresRejoin == {}
      ensures this.userId == userId && this.deviceId == deviceId && this.connection == connection
    {
      this.userId, this.deviceId, this.connection := userId, deviceId, connection;
      entries, requiresRejoin, issued, published, expired, cleared := [], {}, 0, {}, {}, {};
    }

    method MarkPublished(room: string, id: string, engine: Settlement) returns (error: Option<MlsError>)
      modifies this`entries, this`published
      ensures (State(), error) == PublishSucceeded(old(State()), room, id, engine)
    {
      var found := Find(entries, id);
      if found.None? || found.value.item.roomId != room
         || (found.value.item.kind !in MESSAGE_KINDS && found.value.item.kind !in COMMIT_KINDS) || engine.Refuses? {
        return Some(EngineRefused);
      }
      published := published + TicketsOf(entries, {id});
      entries := Without(entries, {id});
      error := Failure(engine);
    }

    method ClearCommit(room: string, id: string, ok: bool) returns (error: Option<MlsError>)
      modifies this`entries, this`cleared
      ensures var next := ClearStaleCommit(old(State()), room, id, ok);
              if next.Ok? then error.None? && State() == next.value
              else error == Some(next.error) && State() == old(State())
    {
      var found := Find(entries, id);
      if found.None? || found.value.item.roomId != room || found.value.item.kind !in COMMIT_KINDS || !ok {
        return Some(EngineRefused);
      }
      var ids := LeavesWith(entries, found.value.item);
      cleared := cleared + TicketsOf(entries, ids);
      entries := Without(entries, ids);
      error := None;
    }

    method RetireApplication(room: string, id: string, engine: Settlement) returns (error: Option<MlsError>)
      modifies this`entries, this`expired
      ensures (State(), error) == RetireExpiredApplication(old(State()), room, id, engine)
    {
      var found := Find(entries, id);
      if found.None? || found.value.item.roomId != room || found.value.item.kind != "application" || engine.Refuses? {
        return Some(EngineRefused);
      }
      expired := expired + TicketsOf(entries, {id});
      entries := Without(entries, {id});
      error := Failure(engine);
    }

    /** One round of the loop of `drain_items`. */
    method DrainItem(
        item: Item, route: Route, fate: Fate, before: Report, ghost seen: seq<ServerMessage>, ghost settled: nat)
      returns (report: Report, error: Option<MlsError>, ghost newlySeen: seq<ServerMessage>, ghost done: nat)
      requires connection.pendingPublish.None?
      modifies this`entries, this`published, this`expired, this`cleared, connection
      ensures connection.pendingPublish.None? && connection.received == old(connection.received) + newlySeen
      ensures DrainOne(Drained(old(State()), old(connection.incoming), seen, before, settled, None), item, route,
                userId, deviceId, fate)
              == Drained(State(), connection.incoming, seen + newlySeen, report, done, error)
    {
      hide RelayMessageFor, Await, Without, TicketsOf, LeavesWith;
      report, newlySeen, done := before, [], settled;
      var message := RelayMessageFor(item, route, userId, deviceId);
      if message.Err? {
        error := Some(message.error);
        return;
      }
      var ack := connection.PublishAndWaitForAck(item.id, fate.sent);
      newlySeen := Publish(item.id, old(connection.incoming), fate.sent).seen;
      if ack.Ok? {
        error := MarkPublished(route.roomId, item.id, fate.engine);
        if error.None? {
          report := report.(published := report.published + [item.id]);
          done := done + 1;
        }
      } else if ack.error == AckRejected(Some(ApplicationEpochExpired)) && message.value.messageType == H.Application {
        error := RetireApplication(route.roomId, item.id, fate.engine);
        if error.None? {
          report := report.(expired := report.expired + [item.id]);
          done := done + 1;
        }
      } else if ack.error == AckRejected(Some(StaleEpoch)) && message.value.messageType == H.Commit {
        error := ClearCommit(route.roomId, item.id, fate.engine.Settles?);
        if error.None? {
          error := Some(RequiresRejoin);
        }
      } else {
        error := Some(Relay(ack.error));
      }
    }

    method DrainItems(items: seq<Item>, route: Route, fates: seq<Fate>)
      returns (report: Report, error: Option<MlsError>, ghost seen: seq<ServerMessage>, ghost done: nat)
      requires |fates| == |items| && connection.pendingPublish.None?
      modifies this`entries, this`published, this`expired, this`cleared, connection
      ensures connection.pendingPublish.None? && connection.received == old(connection.received) + seen
      ensures Drain(Begun(old(State()), old(connection.incoming)), items, route, userId, deviceId, fates)
              == Drained(State(), connection.incoming, seen, report, done, error)
    {
      hide DrainOne;
      report, error, seen, done := Report([], []), None, [], 0;
      ghost var all := Drain(Begun(State(), connection.incoming), items, route, userId, deviceId, fates);
      assert items[0..] == items && fates[0..] == fates;
      for i := 0 to |items|
        invariant connection.pendingPublish.None? && error.None?
        invariant connection.received == old(connection.received) + seen
        invariant all == Drain(Drained(State(), connection.incoming, seen, report, done, None), items[i..],
                    route, userId, deviceId, fates[i..])
      {
        assert items[i..][1..] == items[i + 1..] && fates[i..][1..] == fates[i + 1..];
        ghost var newlySeen;
        report, error, newlySeen, done := DrainItem(items[i], route, fates[i], report, seen, done);
        assert old(connection.received) + (seen + newlySeen) == connection.received;
        seen := seen + newlySeen;
        if error.Some? {
          return;
        }
      }
    }

    /** `drain_room_outbox` (every record of the room) and `drain_room_application_outbox`
        (its application records only), on the list the store returns. */
    method DrainRoom(route: Route, applicationsOnly: bool, fates: seq<Fate>)
      returns (report: Report, error: Option<MlsError>)
      requires |fates| == |WorkList(entries, route.roomId, applicationsOnly)| && connection.pendingPublish.None?
      modifies this`entries, this`published, this`expired, this`cleared, this`requiresRejoin, connection
      ensures connection.pendingPublish.None?
      ensures route.roomId == "" ==>
                error == Some(InvalidOutbox) && State() == old(State()) && requiresRejoin == old(requiresRejoin)
      ensures route.roomId != "" ==>
                var items := WorkList(old(entries), route.roomId, applicationsOnly);
                var d := Drain(Begun(old(State()), old(connection.incoming)), items, route, userId, deviceId, fates);
                && d.store == State() && d.error == error && d.report == report && d.incoming == connection.incoming
                && connection.received == old(connection.received) + d.seen
                && requiresRejoin == if error == Some(RequiresRejoin) && !applicationsOnly
                                     then old(requiresRejoin) + {route.roomId} else old(requiresRejoin)
    {
      if route.roomId == "" {
        return Report([], []), Some(InvalidOutbox);
      }
      ghost var seen, done;
      report, error, seen, done := DrainItems(WorkList(entries, route.roomId, applicationsOnly), route, fates);
      if error == Some(RequiresRejoin) && !applicationsOnly {
        requiresRejoin := requiresRejoin + {route.roomId};
      }
    }
  }
}
