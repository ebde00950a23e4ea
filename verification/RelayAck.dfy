/** Waiting for the relay's acknowledgement of one exact id (`relay.rs`). */
module RelayAck {
  import opened Basics

  datatype RelayErrorCode =
    | InvalidMessageCode | MessageTooLarge | NotJoined | NotActiveHost | StaleEpoch | ApplicationEpochExpired
    | MembershipRemoved | KeyPackageInvalid | KeyPackageUnavailable | CapacityExceeded

  datatype ServerMessage =
    | Published(messageId: string)
    | ErrorMessage(errorFor: Option<string>, code: Option<RelayErrorCode>)
    | Joined(teamId: string, roomId: string)
    | Delivery(content: string)

  /** What the socket delivers next; the end of the script is silence until the deadline. */
  datatype SocketEvent = Text(message: ServerMessage) | InvalidData | Closed | SocketFailed

  datatype Target = ForPublish(id: string) | ForJoin(teamId: string, roomId: string)

  datatype AckOutcome = Continue | Accepted | Rejected(code: Option<RelayErrorCode>)

  datatype TransportError =
    | ConnectionFailed | ConnectionClosed | InvalidServerMessage | AckTimeout | DuplicateAck
    | AckRejected(code: Option<RelayErrorCode>)

  /** `AckTarget::outcome`. */
  function OutcomeOf(t: Target, m: ServerMessage): AckOutcome {
    match (t, m)
    case (ForPublish(id), Published(messageId)) => if id == messageId then Accepted else Continue
    case (ForPublish(id), ErrorMessage(Some(messageId), code)) => if id == messageId then Rejected(code) else Continue
    case (ForPublish(_), ErrorMessage(None, code)) => Rejected(code)
    case (ForJoin(team, room), Joined(joinedTeam, joinedRoom)) =>
      if team == joinedTeam && room == joinedRoom then Accepted else Continue
    case (ForJoin(_, _), ErrorMessage(None, code)) => Rejected(code)
    case _ => Continue
  }

  /** The result of waiting, what is left of the script, and what the handler saw. */
  datatype Waited = Waited(result: Result<(), TransportError>, rest: seq<SocketEvent>, seen: seq<ServerMessage>)

  function Await(t: Target, incoming: seq<SocketEvent>): Waited {
    if incoming == [] then Waited(Err(AckTimeout), [], [])
    else
      match incoming[0]
      case InvalidData => Waited(Err(InvalidServerMessage), incoming[1..], [])
      case Closed => Waited(Err(ConnectionClosed), incoming[1..], [])
      case SocketFailed => Waited(Err(ConnectionFailed), incoming[1..], [])
      case Text(m) =>
        match OutcomeOf(t, m)
        case Accepted => Waited(Ok(()), incoming[1..], [m])
        case Rejected(code) => Waited(Err(AckRejected(code)), incoming[1..], [m])
        case Continue => var later := Await(t, incoming[1..]); later.(seen := [m] + later.seen)
  }

  predicate Undecided(t: Target, e: SocketEvent) {
    e.Text? && OutcomeOf(t, e.message) == Continue
  }

  function Verdict(t: Target, e: SocketEvent): Result<(), TransportError>
    requires !Undecided(t, e)
  {
    match e
    case InvalidData => Err(InvalidServerMessage)
    case Closed => Err(ConnectionClosed)
    case SocketFailed => Err(ConnectionFailed)
    case Text(m) => if OutcomeOf(t, m) == Accepted then Ok(()) else Err(AckRejected(OutcomeOf(t, m).code))
  }

  function Texts(events: seq<SocketEvent>): seq<ServerMessage> {
    if events == [] then []
    else (if events[0].Text? then [events[0].message] else []) + Texts(events[1..])
  }

  /** The first event that is not an undecided message ends the wait with its own
      verdict; the handler has seen every message up to it, in order. */
  lemma {:induction false} AwaitStopsAtFirst(t: Target, incoming: seq<SocketEvent>, k: nat)
    requires k < |incoming| && !Undecided(t, incoming[k])
    requires forall j :: 0 <= j < k ==> Undecided(t, incoming[j])
    ensures Await(t, incoming) == Waited(Verdict(t, incoming[k]), incoming[k + 1..], Texts(incoming[..k + 1]))
  {
    assert incoming[..k + 1][0] == incoming[0];
    if k == 0 {
      assert incoming[..1][1..] == [];
    } else {
      AwaitStopsAtFirst(t, incoming[1..], k - 1);
      assert incoming[..k + 1][1..] == incoming[1..][..k];
      assert incoming[1..][k..] == incoming[k + 1..];
    }
  }

  lemma {:induction false} AwaitTimesOut(t: Target, incoming: seq<SocketEvent>)
    requires forall j :: 0 <= j < |incoming| ==> Undecided(t, incoming[j])
    ensures Await(t, incoming) == Waited(Err(AckTimeout), [], Texts(incoming))
  {
    if incoming != [] {
      AwaitTimesOut(t, incoming[1..]);
    }
  }

  /** The first event that decides, if there is one. */
  function Decider(t: Target, incoming: seq<SocketEvent>): (k: nat)
    ensures k <= |incoming|
    ensures forall j :: 0 <= j < k ==> Undecided(t, incoming[j])
    ensures k < |incoming| ==> !Undecided(t, incoming[k])
  {
    if incoming == [] || !Undecided(t, incoming[0]) then 0 else 1 + Decider(t, incoming[1..])
  }

  /** A publication succeeds exactly when the relay's `Published` with this exact id comes
      before any error for it, any error for no id, any failure and any silence. */
  lemma PublishAcceptedIff(id: string, incoming: seq<SocketEvent>)
    ensures Await(ForPublish(id), incoming).result.Ok? <==>
              exists k: nat :: k < |incoming| && incoming[k] == Text(Published(id))
                && forall j :: 0 <= j < k ==> Undecided(ForPublish(id), incoming[j])
  {
    var t := ForPublish(id);
    var k := Decider(t, incoming);
    if k == |incoming| {
      AwaitTimesOut(t, incoming);
      forall i: nat | i < |incoming| ensures incoming[i] != Text(Published(id)) {
        assert Undecided(t, incoming[i]);
      }
    } else {
      AwaitStopsAtFirst(t, incoming, k);
      forall i: nat | i < |incoming| && !Undecided(t, incoming[i])
                      && forall j :: 0 <= j < i ==> Undecided(t, incoming[j])
        ensures i == k
      {
      }
    }
  }

  // ---- The connection ----

  class RelayConnection {
    var incoming: seq<SocketEvent>
    var received: seq<ServerMessage>
    var pendingPublish: Option<string>

    constructor (script: seq<SocketEvent>)
      ensures incoming == script && received == [] && pendingPublish.None?
    {
      incoming, received, pendingPublish := script, [], None;
    }

    /** `publish_and_wait_for_ack`; `sent` says whether the socket took the message. */
    method PublishAndWaitForAck(id: string, sent: bool) returns (r: Result<(), TransportError>)
      modifies this
      ensures pendingPublish == if old(pendingPublish).Some? then old(pendingPublish) else None
      ensures var w := Await(ForPublish(id), old(incoming));
              if old(pendingPublish).Some?
              then r == Err(DuplicateAck) && incoming == old(incoming) && received == old(received)
              else if !sent then r == Err(ConnectionFailed) && incoming == old(incoming) && received == old(received)
              else r == w.result && incoming == w.rest && received == old(received) + w.seen
    {
      if pendingPublish.Some? {
        return Err(DuplicateAck);
      }
      pendingPublish := Some(id);
      if sent {
        r := WaitForAck(ForPublish(id));
      } else {
        r := Err(ConnectionFailed);
      }
      pendingPublish := None;
    }

    method WaitForAck(t: Target) returns (r: Result<(), TransportError>)
      modifies this`incoming, this`received
      ensures var w := Await(t, old(incoming));
              r == w.result && incoming == w.rest && received == old(received) + w.seen
    {
      hide OutcomeOf;
      ghost var start, seen := Await(t, incoming), [];
      while incoming != []
        invariant received == old(received) + seen
        invariant start == Resume(seen, Await(t, incoming))
        decreases |incoming|
      {
        var event := incoming[0];
        incoming := incoming[1..];
        match event {
          case InvalidData => return Err(InvalidServerMessage);
          case Closed => return Err(ConnectionClosed);
          case SocketFailed => return Err(ConnectionFailed);
          case Text(m) =>
            var outcome := OutcomeOf(t, m);
            received := received + [m];
            seen := seen + [m];
            match outcome {
              case Continue =>
              case Accepted => return Ok(());
              case Rejected(code) => return Err(AckRejected(code));
            }
        }
      }
      r := Err(AckTimeout);
    }
  }

  function Resume(seen: seq<ServerMessage>, w: Waited): Waited {
    w.(seen := seen + w.seen)
  }
}
