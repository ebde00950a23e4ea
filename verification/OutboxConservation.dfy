/** No record is lost or settled twice, whatever fails, and a retry takes up exactly
    where a failed drain stopped. */
module OutboxConservation {
  import opened Basics
  import opened RelayAck
  import opened Outbox
  import H = Handoff

  // ---- Conservation ----

  function Places(s: Store): set<nat> {
    Tickets(s.entries) + s.published + s.expired + s.cleared
  }

  /** Every ticket ever issued is in exactly one place. */
  ghost predicate Conserved(s: Store) {
    && Unique(s.entries)
    && Tickets(s.entries) !! s.published !! s.expired !! s.cleared
    && forall t: nat :: t in Places(s) <==> t < s.issued
  }

  lemma LeavingConserves(s: Store, ids: set<string>)
    requires Unique(s.entries)
    ensures Tickets(Without(s.entries, ids)) == Tickets(s.entries) - TicketsOf(s.entries, ids)
    ensures TicketsOf(s.entries, ids) <= Tickets(s.entries)
  {
    forall x, y | x in s.entries && y in s.entries && x.ticket == y.ticket ensures x == y {
      var i :| 0 <= i < |s.entries| && s.entries[i] == x;
      var j :| 0 <= j < |s.entries| && s.entries[j] == y;
    }
  }

  lemma EnqueueConserves(s: Store, item: Item)
    requires Conserved(s) && Enqueue(s, item).Ok?
    ensures Conserved(Enqueue(s, item).value)
  {
    var added := Entry(item, s.issued);
    var after := s.entries + [added];
    forall i | 0 <= i < |s.entries|
      ensures s.entries[i].ticket < s.issued && s.entries[i].item.id != item.id
    {
      assert s.entries[i] in s.entries && s.entries[i].ticket in Tickets(s.entries);
      assert s.entries[i].ticket in Places(s);
    }
    assert forall x :: x in after <==> x in s.entries || x == added;
    assert Tickets(after) == Tickets(s.entries) + {s.issued};
    assert s.issued !in Places(s);
    assert Places(Enqueue(s, item).value) == Places(s) + {s.issued};
  }

  lemma PublishingConserves(s: Store, ids: set<string>)
    requires Conserved(s)
    ensures Conserved(s.(entries := Without(s.entries, ids), published := s.published + TicketsOf(s.entries, ids)))
  {
    hide Without, TicketsOf;
    LeavingConserves(s, ids);
    var after := s.(entries := Without(s.entries, ids), published := s.published + TicketsOf(s.entries, ids));
    assert Places(after) == Places(s);
  }

  lemma RetiringConserves(s: Store, ids: set<string>)
    requires Conserved(s)
    ensures Conserved(s.(entries := Without(s.entries, ids), expired := s.expired + TicketsOf(s.entries, ids)))
  {
    hide Without, TicketsOf;
    LeavingConserves(s, ids);
    var after := s.(entries := Without(s.entries, ids), expired := s.expired + TicketsOf(s.entries, ids));
    assert Places(after) == Places(s);
  }

  lemma ClearingConserves(s: Store, ids: set<string>)
    requires Conserved(s)
    ensures Conserved(s.(entries := Without(s.entries, ids), cleared := s.cleared + TicketsOf(s.entries, ids)))
  {
    hide Without, TicketsOf;
    LeavingConserves(s, ids);
    var after := s.(entries := Without(s.entries, ids), cleared := s.cleared + TicketsOf(s.entries, ids));
    assert Places(after) == Places(s);
  }

  lemma DrainOneConserves(d: Drained, item: Item, route: Route, userId: string, deviceId: string, fate: Fate)
    requires Conserved(d.store)
    ensures Conserved(DrainOne(d, item, route, userId, deviceId, fate).store)
  {
    hide RelayMessageFor, Publish, Conserved, Without, TicketsOf, LeavesWith, Find;
    PublishingConserves(d.store, {item.id});
    RetiringConserves(d.store, {item.id});
    if Find(d.store.entries, item.id).Some? {
      ClearingConserves(d.store, LeavesWith(d.store.entries, Find(d.store.entries, item.id).value.item));
    }
  }

  lemma {:induction false} DrainConserves(
      d: Drained, items: seq<Item>, route: Route, userId: string, deviceId: string, fates: seq<Fate>)
    requires |fates| == |items| && Conserved(d.store)
    ensures Conserved(Drain(d, items, route, userId, deviceId, fates).store)
    decreases |items|
  {
    if items != [] && d.error.None? {
      DrainOneConserves(d, items[0], route, userId, deviceId, fates[0]);
      DrainConserves(DrainOne(d, items[0], route, userId, deviceId, fates[0]), items[1..], route, userId,
          deviceId, fates[1..]);
    }
  }

  datatype Step =
    | Queue(item: Item)
    | DrainAll(items: seq<Item>, route: Route, incoming: seq<SocketEvent>, fates: seq<Fate>)

  function Next(s: Store, step: Step, userId: string, deviceId: string): Store {
    match step
    case Queue(item) => (match Enqueue(s, item) case Ok(after) => after case Err(_) => s)
    case DrainAll(items, route, incoming, fates) =>
      if |fates| == |items| then Drain(Begun(s, incoming), items, route, userId, deviceId, fates).store else s
  }

  function Run(steps: seq<Step>, userId: string, deviceId: string): Store {
    if steps == [] then Store([], 0, {}, {}, {})
    else Next(Run(steps[..|steps| - 1], userId, deviceId), steps[|steps| - 1], userId, deviceId)
  }

  /** Over every sequence of queueings and drains, with whatever work lists, answers of
      the relay and failures: every record that ever entered is still pending, or was
      published, or expired, or left with a stale commit, and never two of these. */
  lemma {:induction false} EveryRunConserves(steps: seq<Step>, userId: string, deviceId: string)
    ensures Conserved(Run(steps, userId, deviceId))
  {
    if steps != [] {
      var front, step := steps[..|steps| - 1], steps[|steps| - 1];
      EveryRunConserves(front, userId, deviceId);
      var s := Run(front, userId, deviceId);
      match step {
        case Queue(item) => if Enqueue(s, item).Ok? { EnqueueConserves(s, item); }
        case DrainAll(items, route, incoming, fates) =>
          if |fates| == |items| { DrainConserves(Begun(s, incoming), items, route, userId, deviceId, fates); }
      }
    }
  }

  // ---- What decides about one record ----

  /** The first event after the publication that is not an undecided message. */
  ghost predicate Decided(id: string, incoming: seq<SocketEvent>, event: SocketEvent) {
    var k := Decider(ForPublish(id), incoming);
    k < |incoming| && incoming[k] == event
  }

  /** An error with this code decides, for this id or for none. */
  ghost predicate Rejected(id: string, incoming: seq<SocketEvent>, code: RelayErrorCode) {
    || Decided(id, incoming, Text(ErrorMessage(Some(id), Some(code))))
    || Decided(id, incoming, Text(ErrorMessage(None, Some(code))))
  }

  lemma DeciderDecides(id: string, incoming: seq<SocketEvent>)
    ensures var w := Await(ForPublish(id), incoming);
            && (w.result.Ok? <==> Decided(id, incoming, Text(Published(id))))
            && (forall code :: w.result == Err(AckRejected(Some(code))) <==> Rejected(id, incoming, code))
  {
    hide Await;
    var t := ForPublish(id);
    var k := Decider(t, incoming);
    if k == |incoming| {
      AwaitTimesOut(t, incoming);
    } else {
      AwaitStopsAtFirst(t, incoming, k);
      VerdictOf(id, incoming[k]);
    }
  }

  lemma VerdictOf(id: string, event: SocketEvent)
    requires !Undecided(ForPublish(id), event)
    ensures Verdict(ForPublish(id), event).Ok? <==> event == Text(Published(id))
    ensures forall code :: Verdict(ForPublish(id), event) == Err(AckRejected(Some(code))) <==>
              event in {Text(ErrorMessage(Some(id), Some(code))), Text(ErrorMessage(None, Some(code)))}
  {
  }

  /** The record that is drained: its message can be made and the store holds it. */
  predicate Drainable(d: Drained, item: Item, route: Route, userId: string, deviceId: string) {
    && d.error.None? && Unique(d.store.entries)
    && RelayMessageFor(item, route, userId, deviceId).Ok?
    && Find(d.store.entries, item.id).Some? && Find(d.store.entries, item.id).value.item == item
  }

  lemma KindsOfMessages(item: Item, route: Route, userId: string, deviceId: string)
    requires RelayMessageFor(item, route, userId, deviceId).Ok?
    ensures var message := RelayMessageFor(item, route, userId, deviceId).value;
            && item.roomId == route.roomId && item.kind in {"application", "add", "remove"}
            && (message.messageType == H.Application <==> item.kind == "application")
            && (message.messageType == H.Commit <==> item.kind in {"add", "remove"})
  {
  }

  datatype Way = ByAcknowledgement | ByExpiry | ByStaleCommit

  /** The records `ids` leave that way. */
  function Leave(s: Store, way: Way, ids: set<string>): Store {
    var rest := s.(entries := Without(s.entries, ids));
    var tickets := TicketsOf(s.entries, ids);
    match way
    case ByAcknowledgement => rest.(published := s.published + tickets)
    case ByExpiry => rest.(expired := s.expired + tickets)
    case ByStaleCommit => rest.(cleared := s.cleared + tickets)
  }

  /** What one record of a drain leaves, told from the event that decides.  An error without
      an id decides like one with the record's own: it retires an application when its code
      is `ApplicationEpochExpired`, clears a commit when it is `StaleEpoch`, and otherwise
      only ends the drain. */
  lemma DecidingEventSettles(d: Drained, item: Item, route: Route, userId: string, deviceId: string, fate: Fate)
    requires Drainable(d, item, route, userId, deviceId)
    ensures var after := DrainOne(d, item, route, userId, deviceId, fate);
            var leaves := !fate.engine.Refuses?;
            && after.store == (
                 if fate.sent && leaves && Decided(item.id, d.incoming, Text(Published(item.id)))
                 then Leave(d.store, ByAcknowledgement, {item.id})
                 else if fate.sent && leaves && item.kind == "application"
                         && Rejected(item.id, d.incoming, ApplicationEpochExpired)
                 then Leave(d.store, ByExpiry, {item.id})
                 else if fate.sent && fate.engine.Settles? && item.kind != "application"
                         && Rejected(item.id, d.incoming, StaleEpoch)
                 then Leave(d.store, ByStaleCommit, LeavesWith(d.store.entries, item))
                 else d.store)
            && (after.error.None? <==>
                 && fate.sent && fate.engine.Settles?
                 && (|| Decided(item.id, d.incoming, Text(Published(item.id)))
                     || (item.kind == "application" && Rejected(item.id, d.incoming, ApplicationEpochExpired))))
  {
    hide RelayMessageFor, Decided, Await, Without, TicketsOf, LeavesWith, Unique;
    DeciderDecides(item.id, d.incoming);
    KindsOfMessages(item, route, userId, deviceId);
  }

  /** A record is reported as expired exactly when it is an application, the relay's first
      deciding event is the error that says so, for it or for no id, and the engine settles. */
  lemma ExpiresIff(d: Drained, item: Item, route: Route, userId: string, deviceId: string, fate: Fate)
    requires Drainable(d, item, route, userId, deviceId)
    ensures var after := DrainOne(d, item, route, userId, deviceId, fate);
            && (after.report.expired != d.report.expired <==>
                 && item.kind == "application" && fate.sent && fate.engine.Settles?
                 && Rejected(item.id, d.incoming, ApplicationEpochExpired))
            && (after.report.expired != d.report.expired ==> after.report.expired == d.report.expired + [item.id])
  {
    hide RelayMessageFor, Decided, Await, Without, TicketsOf, LeavesWith, Unique;
    DeciderDecides(item.id, d.incoming);
    KindsOfMessages(item, route, userId, deviceId);
  }

  /** A drain asks for a rejoin exactly when the record is a commit, the deciding event is the
      error that calls its epoch stale, for it or for no id, and the engine clears it. */
  lemma RejoinIff(d: Drained, item: Item, route: Route, userId: string, deviceId: string, fate: Fate)
    requires Drainable(d, item, route, userId, deviceId)
    ensures DrainOne(d, item, route, userId, deviceId, fate).error == Some(RequiresRejoin) <==>
              item.kind != "application" && fate.sent && fate.engine.Settles?
                  && Rejected(item.id, d.incoming, StaleEpoch)
  {
    hide RelayMessageFor, Decided, Await, Without, TicketsOf, LeavesWith, Unique;
    DeciderDecides(item.id, d.incoming);
    KindsOfMessages(item, route, userId, deviceId);
  }

  // ---- Every settlement has its reason ----

  function SettledBy(s: Store, way: Way): set<nat> {
    match way
    case ByAcknowledgement => s.published
    case ByExpiry => s.expired
    case ByStaleCommit => s.cleared
  }

  /** For each record that a drain published, what was still to be read then. */
  datatype Publication = Publication(id: string, incoming: seq<SocketEvent>)

  function PublicationOf(d: Drained, item: Item, route: Route, userId: string, deviceId: string, fate: Fate)
    : seq<Publication>
  {
    if RelayMessageFor(item, route, userId, deviceId).Ok? && fate.sent then [Publication(item.id, d.incoming)] else []
  }

  function Publications(d: Drained, items: seq<Item>, route: Route, userId: string, deviceId: string, fates: seq<Fate>)
    : seq<Publication>
    requires |fates| == |items|
    decreases |items|
  {
    if items == [] || d.error.Some? then []
    else
      PublicationOf(d, items[0], route, userId, deviceId, fates[0])
      + Publications(DrainOne(d, items[0], route, userId, deviceId, fates[0]), items[1..], route, userId, deviceId,
                     fates[1..])
  }

  /** Why a record may leave, by the event that decided about a publication of its own: its
      `Published`; for an application, the error that calls it expired; for a commit, and for
      the welcomes that it brought, the error that calls the commit stale. */
  ghost predicate Reason(way: Way, entries: seq<Entry>, x: Entry, ps: seq<Publication>) {
    match way
    case ByAcknowledgement => exists p :: p in ps && Acknowledges(p, x.item.id)
    case ByExpiry =>
      x.item.kind == "application" && exists p :: p in ps && Rejects(p, x.item.id, ApplicationEpochExpired)
    case ByStaleCommit =>
      exists c, p ::
        c in entries && TakesAlong(entries, c.item, x.item.id) && p in ps && Rejects(p, c.item.id, StaleEpoch)
  }

  ghost predicate Acknowledges(p: Publication, id: string) {
    p.id == id && Decided(id, p.incoming, Text(Published(id)))
  }

  ghost predicate Rejects(p: Publication, id: string, code: RelayErrorCode) {
    p.id == id && Rejected(id, p.incoming, code)
  }

  predicate TakesAlong(entries: seq<Entry>, commit: Item, id: string) {
    commit.kind in COMMIT_KINDS && id in LeavesWith(entries, commit)
  }

  /** The record with this ticket was in the store and had a reason to leave that way. */
  ghost predicate Justified(before: Store, way: Way, t: nat, ps: seq<Publication>) {
    exists x :: x in before.entries && x.ticket == t && Reason(way, before.entries, x, ps)
  }

  ghost predicate Explained(before: Store, after: Store, ps: seq<Publication>) {
    forall way, t :: t in SettledBy(after, way) && t !in SettledBy(before, way) ==> Justified(before, way, t, ps)
  }

  lemma LeaveIsExplained(s: Store, way: Way, ids: set<string>, ps: seq<Publication>)
    requires forall x :: x in s.entries && x.item.id in ids ==> Reason(way, s.entries, x, ps)
    ensures Explained(s, Leave(s, way, ids), ps)
  {
    hide Without, Reason;
  }

  lemma OneOfItsId(entries: seq<Entry>, x: Entry, y: Entry)
    requires Unique(entries) && x in entries && y in entries && x.item.id == y.item.id
    ensures x == y
  {
    var i :| 0 <= i < |entries| && entries[i] == x;
    var j :| 0 <= j < |entries| && entries[j] == y;
  }

  lemma WithoutIsLess(entries: seq<Entry>)
    ensures forall ids, x :: x in Without(entries, ids) ==> x in entries
  {
  }

  lemma NothingToExplain(s: Store, ps: seq<Publication>)
    ensures Explained(s, s, ps)
  {
  }

  lemma DrainOneExplains(d: Drained, item: Item, route: Route, userId: string, deviceId: string, fate: Fate)
    requires Unique(d.store.entries)
    ensures var after := DrainOne(d, item, route, userId, deviceId, fate);
            && Explained(d.store, after.store, PublicationOf(d, item, route, userId, deviceId, fate))
            && (forall x :: x in after.store.entries ==> x in d.store.entries)
  {
    hide Decided, Await, LeavesWith, Explained, Without, RelayMessageFor, Unique, TicketsOf;
    var s, found := d.store, Find(d.store.entries, item.id);
    var ps := PublicationOf(d, item, route, userId, deviceId, fate);
    NothingToExplain(s, ps);
    WithoutIsLess(s.entries);
    if ps != [] && found.Some? {
      var p := Publication(item.id, d.incoming);
      assert p in ps;
      DeciderDecides(item.id, d.incoming);
      if Acknowledges(p, item.id) {
        LeaveIsExplained(s, ByAcknowledgement, {item.id}, ps);
      } else if Rejects(p, item.id, ApplicationEpochExpired) && found.value.item.kind == "application" {
        forall x | x in s.entries && x.item.id in {item.id} ensures Reason(ByExpiry, s.entries, x, ps) {
          OneOfItsId(s.entries, x, found.value);
        }
        LeaveIsExplained(s, ByExpiry, {item.id}, ps);
      } else if Rejects(p, item.id, StaleEpoch) && found.value.item.kind in COMMIT_KINDS {
        var ids := LeavesWith(s.entries, found.value.item);
        forall x | x in s.entries && x.item.id in ids ensures Reason(ByStaleCommit, s.entries, x, ps) {
          assert TakesAlong(s.entries, found.value.item, x.item.id);
        }
        LeaveIsExplained(s, ByStaleCommit, ids, ps);
      }
    }
  }

  lemma FewerTakeAlongLess(entries: seq<Entry>, fewer: seq<Entry>, commit: Item, id: string)
    requires (forall x :: x in fewer ==> x in entries) && TakesAlong(fewer, commit, id)
    ensures TakesAlong(entries, commit, id)
  {
  }

  /** A reason in a store with fewer records, and among fewer publications, is one before. */
  lemma ReasonHeldBefore(
      way: Way, entries: seq<Entry>, fewer: seq<Entry>, x: Entry, ps: seq<Publication>, more: seq<Publication>)
    requires (forall y :: y in fewer ==> y in entries) && Reason(way, fewer, x, ps)
    requires forall p :: p in ps ==> p in more
    ensures Reason(way, entries, x, more)
  {
    hide TakesAlong, Acknowledges, Rejects;
    if way == ByStaleCommit {
      var c, p :| c in fewer && TakesAlong(fewer, c.item, x.item.id) && p in ps && Rejects(p, c.item.id, StaleEpoch);
      FewerTakeAlongLess(entries, fewer, c.item, x.item.id);
    }
  }

  lemma ExplainedInTurn(before: Store, mid: Store, after: Store, ps: seq<Publication>, qs: seq<Publication>)
    requires Explained(before, mid, ps) && Explained(mid, after, qs)
    requires forall x :: x in mid.entries ==> x in before.entries
    ensures Explained(before, after, ps + qs)
  {
    hide Reason;
    forall way, t | t in SettledBy(after, way) && t !in SettledBy(before, way)
      ensures Justified(before, way, t, ps + qs)
    {
      if t in SettledBy(mid, way) {
        assert Justified(before, way, t, ps);
        var x :| x in before.entries && x.ticket == t && Reason(way, before.entries, x, ps);
        ReasonHeldBefore(way, before.entries, before.entries, x, ps, ps + qs);
      } else {
        assert Justified(mid, way, t, qs);
        var x :| x in mid.entries && x.ticket == t && Reason(way, mid.entries, x, qs);
        ReasonHeldBefore(way, before.entries, mid.entries, x, qs, ps + qs);
      }
    }
  }

  /** Whatever leaves the outbox during a drain has its reason in the event that decided about
      a publication made in this drain. */
  lemma {:induction false} DrainExplains(
      d: Drained, items: seq<Item>, route: Route, userId: string, deviceId: string, fates: seq<Fate>)
    requires |fates| == |items| && Conserved(d.store)
    ensures Explained(d.store, Drain(d, items, route, userId, deviceId, fates).store,
                      Publications(d, items, route, userId, deviceId, fates))
    decreases |items|
  {
    hide DrainOne, Explained, Unique, PublicationOf;
    if items != [] && d.error.None? {
      var next := DrainOne(d, items[0], route, userId, deviceId, fates[0]);
      DrainOneExplains(d, items[0], route, userId, deviceId, fates[0]);
      DrainOneConserves(d, items[0], route, userId, deviceId, fates[0]);
      DrainExplains(next, items[1..], route, userId, deviceId, fates[1..]);
      ExplainedInTurn(d.store, next.store, Drain(next, items[1..], route, userId, deviceId, fates[1..]).store,
                      PublicationOf(d, items[0], route, userId, deviceId, fates[0]),
                      Publications(next, items[1..], route, userId, deviceId, fates[1..]));
    } else {
      NothingToExplain(d.store, []);
    }
  }

  /** The publications of the drain that is step `k` of a run. */
  function PublicationsAt(steps: seq<Step>, k: nat, userId: string, deviceId: string): seq<Publication>
    requires k < |steps| && steps[k].DrainAll? && |steps[k].fates| == |steps[k].items|
  {
    var s := steps[k];
    Publications(Begun(Run(steps[..k], userId, deviceId), s.incoming), s.items, s.route, userId, deviceId, s.fates)
  }

  /** Step `k` is a drain in which the record with this ticket had a reason to leave. */
  ghost predicate LeftAt(steps: seq<Step>, k: nat, way: Way, t: nat, userId: string, deviceId: string)
    requires k < |steps|
  {
    && steps[k].DrainAll? && |steps[k].fates| == |steps[k].items|
    && Justified(Run(steps[..k], userId, deviceId), way, t, PublicationsAt(steps, k, userId, deviceId))
  }

  /** Over every run a record is published only if the event that decided about its publication
      was its own `Published`; it expires only if it is an application and that event called
      its epoch expired; it is cleared only with a commit about whose publication that event
      said that its epoch is stale; and all this in the drain that settled it. */
  lemma {:induction false} EverySettlementHasItsReason(
      steps: seq<Step>, way: Way, t: nat, userId: string, deviceId: string) returns (k: nat)
    requires t in SettledBy(Run(steps, userId, deviceId), way)
    ensures k < |steps| && LeftAt(steps, k, way, t, userId, deviceId)
  {
    hide Justified, Drain, Enqueue, Publications;
    assert steps != [];
    var last := |steps| - 1;
    var front, s := steps[..last], Run(steps[..last], userId, deviceId);
    if t in SettledBy(s, way) {
      k := EverySettlementHasItsReason(front, way, t, userId, deviceId);
      assert front[..k] == steps[..k];
    } else {
      k := last;
      var step := steps[last];
      EveryRunConserves(front, userId, deviceId);
      QueueSettlesNothing(s, step, userId, deviceId);
      DrainExplains(Begun(s, step.incoming), step.items, step.route, userId, deviceId, step.fates);
    }
  }

  lemma QueueSettlesNothing(s: Store, step: Step, userId: string, deviceId: string)
    ensures (step.DrainAll? && |step.fates| == |step.items|)
            || forall way :: SettledBy(Next(s, step, userId, deviceId), way) == SettledBy(s, way)
  {
    hide Drain;
  }

  // ---- A failed drain settles a prefix ----

  function Ids(items: seq<Item>): set<string> { set x | x in items :: x.id }

  predicate DistinctIds(items: seq<Item>) {
    forall i, j :: 0 <= i < j < |items| ==> items[i].id != items[j].id
  }

  /** What is left of `before` when the records `ids` left. */
  ghost predicate Left(before: Store, after: Store, ids: set<string>) {
    forall x :: x in after.entries <==> x in before.entries && x.item.id !in ids
  }

  /** The records that leave the store during a drain are exactly the first `settled` ones of
      the work list; after a stale commit also the commit that comes next, with the welcomes
      of its epoch; and after another error also the record that comes next if the engine had
      deleted it before it failed, and only then. */
  ghost predicate SettlesPrefix(d: Drained, after: Drained, items: seq<Item>, fates: seq<Fate>)
    requires |fates| == |items|
  {
    && d.settled <= after.settled <= d.settled + |items|
    && var k := after.settled - d.settled;
    && (after.error.None? <==> k == |items|)
    && (after.error.None? ==> Left(d.store, after.store, Ids(items)))
    && (after.error == Some(RequiresRejoin) ==>
          Left(d.store, after.store, Ids(items[..k]) + LeavesWith(d.store.entries, items[k])))
    && (after.error.Some? && after.error != Some(RequiresRejoin) ==>
          || Left(d.store, after.store, Ids(items[..k]))
          || (fates[k].engine.SettlesAndFails? && Left(d.store, after.store, Ids(items[..k + 1]))))
  }

  ghost predicate InStore(entries: seq<Entry>, item: Item) {
    exists x :: x in entries && x.item == item
  }

  /** The work list consists of different records of the store. */
  ghost predicate FromStore(s: Store, items: seq<Item>) {
    && Unique(s.entries) && DistinctIds(items)
    && forall i :: 0 <= i < |items| ==> InStore(s.entries, items[i])
  }

  lemma StoreIsUnique(s: Store, items: seq<Item>)
    requires FromStore(s, items)
    ensures Unique(s.entries)
  {
  }

  lemma FoundInStore(s: Store, items: seq<Item>)
    requires FromStore(s, items) && items != []
    ensures Find(s.entries, items[0].id).Some? && Find(s.entries, items[0].id).value.item == items[0]
  {
    assert InStore(s.entries, items[0]);
    var x :| x in s.entries && x.item == items[0];
    var y := Find(s.entries, items[0].id).value;
    var i :| 0 <= i < |s.entries| && s.entries[i] == x;
    var j :| 0 <= j < |s.entries| && s.entries[j] == y;
  }

  lemma RestInStore(before: Store, after: Store, items: seq<Item>)
    requires FromStore(before, items) && items != []
    requires Unique(after.entries) && Left(before, after, {items[0].id})
    ensures FromStore(after, items[1..])
  {
    forall i | 0 <= i < |items[1..]| ensures InStore(after.entries, items[1..][i]) {
      assert InStore(before.entries, items[i + 1]);
      var x :| x in before.entries && x.item == items[i + 1];
      assert x in after.entries;
    }
  }

  lemma {:induction false} DrainSettlesPrefix(
      d: Drained, items: seq<Item>, route: Route, userId: string, deviceId: string, fates: seq<Fate>)
    requires |fates| == |items| && d.error.None? && FromStore(d.store, items)
    ensures SettlesPrefix(d, Drain(d, items, route, userId, deviceId, fates), items, fates)
    decreases |items|
  {
    hide DrainOne, FromStore, SettlesPrefix, LeavesWith, Find, Unique, Left;
    if items == [] {
      NothingSettled(d, d, items, fates);
    } else {
      StoreIsUnique(d.store, items);
      FoundInStore(d.store, items);
      var next := DrainOne(d, items[0], route, userId, deviceId, fates[0]);
      DrainOneSettles(d, items[0], route, userId, deviceId, fates[0]);
      if next.error.None? {
        RestInStore(d.store, next.store, items);
        DrainSettlesPrefix(next, items[1..], route, userId, deviceId, fates[1..]);
        var after := Drain(next, items[1..], route, userId, deviceId, fates[1..]);
        PrefixExtends(d, next, after, items, fates);
      } else {
        assert Drain(next, items[1..], route, userId, deviceId, fates[1..]) == next;
        NothingSettled(d, next, items, fates);
      }
    }
  }

  /** A drain that stops at its first record. */
  ghost predicate Stops(d: Drained, after: Drained, item: Item, fate: Fate) {
    && after.settled == d.settled && after.error.Some?
    && (after.error == Some(RequiresRejoin) ==> Left(d.store, after.store, LeavesWith(d.store.entries, item)))
    && (after.error != Some(RequiresRejoin) ==>
          after.store == d.store || (fate.engine.SettlesAndFails? && Left(d.store, after.store, {item.id})))
  }

  lemma NothingSettled(d: Drained, after: Drained, items: seq<Item>, fates: seq<Fate>)
    requires |fates| == |items|
    requires if items == [] then after == d && d.error.None? else Stops(d, after, items[0], fates[0])
    ensures SettlesPrefix(d, after, items, fates)
  {
    hide LeavesWith;
    assert Ids(items[..0]) == {};
    if items != [] { assert Ids(items[..1]) == {items[0].id}; }
  }

  lemma PrefixExtends(d: Drained, next: Drained, after: Drained, items: seq<Item>, fates: seq<Fate>)
    requires items != [] && |fates| == |items| && SettlesPrefix(next, after, items[1..], fates[1..])
    requires next.settled == d.settled + 1 && Left(d.store, next.store, {items[0].id})
    ensures SettlesPrefix(d, after, items, fates)
  {
    hide Ids, LeavesWith;
    var k := after.settled - next.settled;
    PrefixIds(items, k);
    PrefixIds(items, |items| - 1);
    assert items[..|items|] == items && items[1..][..|items| - 1] == items[1..];
    if after.error == Some(RequiresRejoin) {
      assert items[1..][k] == items[k + 1];
      StillLeavesWith(d.store, next.store, items, k);
    } else if after.error.Some? {
      PrefixIds(items, k + 1);
    }
  }

  lemma StillLeavesWith(before: Store, next: Store, items: seq<Item>, k: nat)
    requires k + 1 < |items| && Left(before, next, {items[0].id})
    ensures forall x :: x in before.entries && x.item.id !in Ids(items[..k + 1]) ==>
              (x.item.id in LeavesWith(before.entries, items[k + 1]) <==>
                  x.item.id in LeavesWith(next.entries, items[k + 1]))
  {
    assert items[0] in items[..k + 1];
  }

  lemma PrefixIds(items: seq<Item>, k: nat)
    requires items != [] && k <= |items[1..]|
    ensures Ids(items[..k + 1]) == {items[0].id} + Ids(items[1..][..k])
  {
    assert items[..k + 1] == [items[0]] + items[1..][..k];
  }

  lemma DrainOneSettles(d: Drained, item: Item, route: Route, userId: string, deviceId: string, fate: Fate)
    requires d.error.None? && Unique(d.store.entries)
    requires Find(d.store.entries, item.id).Some? && Find(d.store.entries, item.id).value.item == item
    ensures var next := DrainOne(d, item, route, userId, deviceId, fate);
            && Unique(next.store.entries)
            && (next.error.None? ==> next.settled == d.settled + 1 && Left(d.store, next.store, {item.id}))
            && (next.error.Some? ==> Stops(d, next, item, fate))
  {
    hide Publish, LeavesWith, RelayMessageFor, TicketsOf, Unique;
    assert forall ids :: Unique(Without(d.store.entries, ids));
    NoMessageIsInvalid(item, route, userId, deviceId);
  }

  lemma NoMessageIsInvalid(item: Item, route: Route, userId: string, deviceId: string)
    ensures var message := RelayMessageFor(item, route, userId, deviceId);
            message.Err? ==> message.error == InvalidOutbox
  {
  }

  // ---- The order of the work list ----

  lemma BeforeIsTotal(a: Item, b: Item, c: Item)
    requires a.id != b.id
    ensures Before(a, b) <==> !Before(b, a)
    ensures Before(a, b) && Before(b, c) ==> Before(a, c)
  {
    LessIsTotal(a.id, b.id);
    if Less(a.id, b.id) { LessIsAsymmetric(a.id, b.id); }
    if Less(b.id, a.id) { LessIsAsymmetric(b.id, a.id); }
    if Less(a.id, b.id) && Less(b.id, c.id) { LessIsTransitive(a.id, b.id, c.id); }
  }

  predicate Ascending(items: seq<Item>) {
    forall i, j :: 0 <= i < j < |items| ==> Before(items[i], items[j])
  }

  lemma {:induction false} InsertAscends(item: Item, sorted: seq<Item>)
    requires Ascending(sorted) && item.id !in Ids(sorted)
    ensures Ascending(Insert(item, sorted))
    ensures forall x :: x in Insert(item, sorted) <==> x == item || x in sorted
  {
    if sorted != [] {
      var first, rest := sorted[0], sorted[1..];
      assert first.id in Ids(sorted);
      BeforeIsTotal(first, item, item);
      if Before(first, item) {
        assert forall x :: x in rest ==> x in sorted;
        InsertAscends(item, rest);
        var inserted := Insert(item, rest);
        forall i | 0 <= i < |inserted| ensures Before(first, inserted[i]) {
          assert inserted[i] in inserted;
          if inserted[i] in rest {
            var j :| 0 <= j < |rest| && rest[j] == inserted[i];
            assert sorted[j + 1] == rest[j];
          }
        }
      } else {
        forall j | 0 <= j < |sorted| ensures Before(item, sorted[j]) {
          if j > 0 { BeforeIsTotal(item, first, sorted[j]); }
        }
      }
    }
  }

  lemma {:induction false} WorkListIsSorted(entries: seq<Entry>, room: string, applicationsOnly: bool)
    requires Unique(entries)
    ensures Ascending(WorkList(entries, room, applicationsOnly))
    ensures forall item :: item in WorkList(entries, room, applicationsOnly) <==>
              InStore(entries, item) && Selected(item, room, applicationsOnly)
  {
    if entries != [] {
      var first, rest := entries[0], entries[1..];
      WorkListIsSorted(rest, room, applicationsOnly);
      var sorted := WorkList(rest, room, applicationsOnly);
      if Selected(first.item, room, applicationsOnly) {
        forall item | item in sorted ensures item.id != first.item.id {
          var x :| x in rest && x.item == item;
          var j :| 0 <= j < |rest| && rest[j] == x;
          assert entries[j + 1] == x;
        }
        InsertAscends(first.item, sorted);
      }
      forall item | InStore(entries, item) && Selected(item, room, applicationsOnly)
        ensures item in WorkList(entries, room, applicationsOnly)
      {
        var x :| x in entries && x.item == item;
        assert x == first || x in rest;
      }
    }
  }

  /** The order of a drain: by epoch; within an epoch applications first, then commits, then
      welcomes and denials; and by id among those. */
  predicate InPublishingOrder(a: Item, b: Item) {
    || a.epoch < b.epoch
    || (a.epoch == b.epoch
        && (|| (a.kind == "application" && b.kind != "application")
            || (a.kind !in {"welcome", "invite-denial"} && b.kind in {"welcome", "invite-denial"})
            || (SameClass(a.kind, b.kind) && Less(a.id, b.id))))
  }

  predicate SameClass(k: string, l: string) {
    && (k == "application" <==> l == "application")
    && (k in {"welcome", "invite-denial"} <==> l in {"welcome", "invite-denial"})
  }

  /** A drain takes up every record of its room, or every application of it, and no other, in
      that order. */
  lemma WorkListIsInPublishingOrder(entries: seq<Entry>, room: string, applicationsOnly: bool)
    requires Unique(entries)
    ensures var items := WorkList(entries, room, applicationsOnly);
            && (forall i, j :: 0 <= i < j < |items| ==> InPublishingOrder(items[i], items[j]))
            && (forall item :: item in items <==>
                  && (exists x :: x in entries && x.item == item)
                  && item.roomId == room && (item.kind == "application" || !applicationsOnly))
  {
    hide WorkList;
    WorkListIsSorted(entries, room, applicationsOnly);
    var items := WorkList(entries, room, applicationsOnly);
    forall item ensures InStore(entries, item) <==> exists x :: x in entries && x.item == item {}
    forall i, j | 0 <= i < j < |items| ensures InPublishingOrder(items[i], items[j]) {
      assert Before(items[i], items[j]);
    }
  }

  lemma AscendingIsDistinct(items: seq<Item>)
    requires Ascending(items)
    ensures Distinct(items)
  {
    forall i, j | 0 <= i < j < |items| ensures items[i] != items[j] {
      if items[i] == items[j] {
        BeforeIsIrreflexive(items[i]);
      }
    }
  }

  lemma BeforeIsIrreflexive(a: Item)
    ensures !Before(a, a)
  {
    if Less(a.id, a.id) {
      LessIsAsymmetric(a.id, a.id);
    }
  }

  /** A sorted list is determined by its elements. */
  lemma {:induction false} AscendingIsUnique(a: seq<Item>, b: seq<Item>)
    requires Ascending(a) && Ascending(b)
    requires forall x :: x in a <==> x in b
    ensures a == b
    decreases |a|
  {
    assert a != [] ==> a[0] in a;
    assert b != [] ==> b[0] in b;
    if a != [] {
      SameFirst(a, b);
      assert a[1..] == b[1..] by {
        AscendingIsDistinct(a);
        AscendingIsDistinct(b);
        forall x | x in a[1..] ensures x in b[1..] { TailHolds(a, b, x); }
        forall x | x in b[1..] ensures x in a[1..] { TailHolds(b, a, x); }
        AscendingIsUnique(a[1..], b[1..]);
      }
      assert a == [a[0]] + a[1..] && b == [b[0]] + b[1..];
    }
  }

  lemma TailHolds(a: seq<Item>, b: seq<Item>, x: Item)
    requires a != [] && b != [] && a[0] == b[0] && Distinct(a) && x in a[1..] && x in b
    ensures x in b[1..]
  {
    var i :| 0 <= i < |a[1..]| && a[1..][i] == x;
    assert a[i + 1] == x;
    var j :| 0 <= j < |b| && b[j] == x;
    assert b[1..][j - 1] == x;
  }

  lemma SameFirst(a: seq<Item>, b: seq<Item>)
    requires a != [] && b != [] && Ascending(a) && Ascending(b)
    requires a[0] in b && b[0] in a
    ensures a[0] == b[0]
  {
    var i :| 0 <= i < |a| && a[i] == b[0];
    var j :| 0 <= j < |b| && b[j] == a[0];
    if i > 0 && j > 0 {
      BeforeIsIrreflexive(a[0]);
      LessThanEachOther(a[0], b[0]);
    }
  }

  lemma LessThanEachOther(a: Item, b: Item)
    ensures !(Before(a, b) && Before(b, a))
  {
    if Less(a.id, b.id) { LessIsAsymmetric(a.id, b.id); }
  }

  // ---- Main result: retrying loses nothing ----

  /** After a drain of a room's work list failed, other than by a stale commit, the work
      list of the retry is the old one without the settled prefix, in the same order; the
      record that failed is missing only if the engine had deleted it before it failed. */
  lemma RetryTakesUpWhereDrainStopped(s: Store, route: Route, applicationsOnly: bool, userId: string, deviceId: string,
                                      incoming: seq<SocketEvent>, fates: seq<Fate>)
    requires Conserved(s)
    requires |fates| == |WorkList(s.entries, route.roomId, applicationsOnly)|
    ensures var items := WorkList(s.entries, route.roomId, applicationsOnly);
            var d := Drain(Begun(s, incoming), items, route, userId, deviceId, fates);
            var retry := WorkList(d.store.entries, route.roomId, applicationsOnly);
            && d.settled <= |items|
            && (d.error.None? ==> retry == [])
            && (d.error.Some? && d.error != Some(RequiresRejoin) ==>
                  && d.settled < |items|
                  && (retry == items[d.settled..]
                      || (fates[d.settled].engine.SettlesAndFails? && retry == items[d.settled + 1..])))
  {
    hide Drain, Left, Ids;
    var items := WorkList(s.entries, route.roomId, applicationsOnly);
    var d := Drain(Begun(s, incoming), items, route, userId, deviceId, fates);
    var k := d.settled;
    WorkListIsFromStore(s, route.roomId, applicationsOnly);
    DrainSettlesPrefix(Begun(s, incoming), items, route, userId, deviceId, fates);
    DrainConserves(Begun(s, incoming), items, route, userId, deviceId, fates);
    assert items[..|items|] == items && items[|items|..] == [];
    if Left(s, d.store, Ids(items[..k])) {
      RetryIsSuffix(s, d.store, route.roomId, applicationsOnly, k);
    } else if k < |items| && Left(s, d.store, Ids(items[..k + 1])) {
      RetryIsSuffix(s, d.store, route.roomId, applicationsOnly, k + 1);
    }
  }

  lemma RetryIsSuffix(s: Store, next: Store, room: string, applicationsOnly: bool, k: nat)
    requires Unique(s.entries) && Unique(next.entries) && k <= |WorkList(s.entries, room, applicationsOnly)|
    requires Left(s, next, Ids(WorkList(s.entries, room, applicationsOnly)[..k]))
    ensures WorkList(next.entries, room, applicationsOnly) == WorkList(s.entries, room, applicationsOnly)[k..]
  {
    var before, after := s.entries, next.entries;
    var items := WorkList(before, room, applicationsOnly);
    var retry := WorkList(after, room, applicationsOnly);
    WorkListIsSorted(before, room, applicationsOnly);
    WorkListIsSorted(after, room, applicationsOnly);
    WorkListIdsAreDistinct(before, room, applicationsOnly);
    forall item | item in retry ensures item in items[k..] {
      var x :| x in after && x.item == item;
      assert item in items;
      InSuffix(items, k, item);
    }
    forall item | item in items[k..] ensures item in retry {
      assert item in items && InStore(before, item);
      var x :| x in before && x.item == item;
      InSuffix(items, k, item);
      assert x in after;
    }
    AscendingIsUnique(retry, items[k..]);
  }

  lemma InSuffix(items: seq<Item>, k: nat, item: Item)
    requires DistinctIds(items) && k <= |items| && item in items
    ensures item in items[k..] <==> item.id !in Ids(items[..k])
  {
    var i :| 0 <= i < |items| && items[i] == item;
    if i < k {
      assert items[..k][i] == item;
    } else {
      assert items[k..][i - k] == item;
    }
  }

  lemma WorkListIdsAreDistinct(entries: seq<Entry>, room: string, applicationsOnly: bool)
    requires Unique(entries)
    ensures DistinctIds(WorkList(entries, room, applicationsOnly))
  {
    var items := WorkList(entries, room, applicationsOnly);
    WorkListIsSorted(entries, room, applicationsOnly);
    AscendingIsDistinct(items);
    forall i, j | 0 <= i < j < |items| ensures items[i].id != items[j].id {
      assert items[i] in items && items[j] in items;
      var x :| x in entries && x.item == items[i];
      var y :| y in entries && y.item == items[j];
      var p :| 0 <= p < |entries| && entries[p] == x;
      var q :| 0 <= q < |entries| && entries[q] == y;
      assert p != q;
    }
  }

  lemma WorkListIsFromStore(s: Store, room: string, applicationsOnly: bool)
    requires Unique(s.entries)
    ensures FromStore(s, WorkList(s.entries, room, applicationsOnly))
  {
    var items := WorkList(s.entries, room, applicationsOnly);
    WorkListIsSorted(s.entries, room, applicationsOnly);
    WorkListIdsAreDistinct(s.entries, room, applicationsOnly);
    forall i | 0 <= i < |items| ensures InStore(s.entries, items[i]) {
      assert items[i] in items;
    }
  }
}
