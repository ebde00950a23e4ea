/** The controller that drives the proposal machine from projected events
    (`CodexRoomController` in `main.rs`). */
module RoomController {
  import opened Basics
  import opened Proposals
  import opened ProposalRuns
  import opened Timestamps
  import opened Context
  import RoomState

  const MAX_HISTORY := 100

  datatype Wire = Wire(
    turnId: string, action: RoomState.QueueAction, requestedBy: string, requestedByUserId: string,
    reason: Option<string>, createdAt: string)

  datatype TurnStatus = TurnStarted | TurnCompleted | OtherStatus

  datatype RoomEvent =
    | ChatLine(message: Message)
    | Arrival(displayName: string)
    | Queue(wire: Wire)
    | Turn(turnId: string, status: TurnStatus)
    | OtherEvent

  datatype Controller = Controller(
    machine: Machine, wire: Option<Wire>, previewed: Option<string>, history: seq<Message>,
    participants: set<string>, settingsResolved: bool)

  datatype Preview = Preview(proposal: Proposal, context: BuiltContext)

  function ProposalOf(roomId: string, w: Wire, expiresAt: int): Proposal
    requires w.reason.Some?
  {
    Proposal(roomId, w.turnId, w.requestedBy, w.requestedByUserId, w.reason.value, w.createdAt, expiresAt)
  }

  // ---- What an event does ----

  /** Whether the host is due a preview of the held proposal. */
  predicate PreviewDue(c: Controller, id: string, activeHost: bool) {
    activeHost && c.machine.proposal.Some? && c.machine.proposal.value.proposalId == id && c.previewed != Some(id)
  }

  /** The state after a proposal arrived, and whether it is to be previewed; `probes` tells
      whether the local Codex answers when the settings are still to be resolved. */
  function OnQueued(c: Controller, w: Wire, now: int, activeHost: bool, probes: bool): (Controller, Result<bool, ()>) {
    match ProposalExpiry(w.createdAt, now)
    case Err(_) => (c, Ok(false))
    case Ok(expiresAt) =>
      if w.reason.None? then (c, Err(()))
      else
        var (machine, answer) := OnObserve(c.machine, ProposalOf(c.machine.roomId, w, expiresAt), now);
        match answer
        case Err(e) => (c, if e in {ProposalError.Expired, Busy} then Ok(false) else Err(()))
        case Ok(isNew) =>
          var next := c.(machine := machine, wire := if isNew then Some(w) else c.wire);
          if !PreviewDue(next, w.turnId, activeHost) then (next, Ok(false))
          else if !c.settingsResolved && !probes then (next, Err(()))
          else (next.(settingsResolved := true, previewed := Some(w.turnId)), Ok(true))
  }

  ghost function OnCancelled(c: Controller, w: Wire): Controller {
    var held := c.machine.proposal.Some? && c.machine.proposal.value.proposalId == w.turnId;
    c.(machine := if held then OnCancel(c.machine, c.machine.roomId, w.turnId).0 else c.machine,
       wire := None, previewed := None)
  }

  /** `observe`: the new state, and Ok(true) when a preview comes with it. */
  ghost function OnEvent(
      c: Controller, e: RoomEvent, now: int, activeHost: bool, probes: bool): (Controller, Result<bool, ()>) {
    match e
    case ChatLine(message) =>
      (c.(participants := c.participants + {message.author},
          history := Last(MAX_HISTORY, c.history + [message])), Ok(false))
    case Arrival(name) => (c.(participants := c.participants + {name}), Ok(false))
    case Queue(w) =>
      (match w.action
       case Queued => OnQueued(c, w, now, activeHost, probes)
       case Cancelled => (OnCancelled(c, w), Ok(false))
       case _ => (c, Ok(false)))
    case Turn(id, TurnStarted) =>
      var (machine, done) := OnStarted(c.machine, c.machine.roomId, id);
      (c.(machine := machine), if done.Ok? then Ok(false) else Err(()))
    case Turn(_, TurnCompleted) => (c.(history := []), Ok(false))
    case _ => (c, Ok(false))
  }

  // ---- The controller ----

  class CodexRoomController {
    const roomId: string
    const machine: ProposalMachine
    var wire: Option<Wire>
    var previewed: Option<string>
    var history: seq<Message>
    var participants: set<string>
    var settingsResolved: bool

    ghost function State(): Controller
      reads this, machine
    {
      Controller(machine.State(), wire, previewed, history, participants, settingsResolved)
    }

    ghost predicate Valid()
      reads this, machine
    {
      machine.roomId == roomId && Proper(machine.State()) && |history| <= MAX_HISTORY
    }

    constructor (machine: ProposalMachine, hostName: string)
      requires Proper(machine.State())
      ensures Valid() && this.machine == machine
      ensures State() == Controller(machine.State(), None, None, [], {hostName}, false)
    {
      this.machine, roomId := machine, machine.roomId;
      wire, previewed, history, participants, settingsResolved := None, None, [], {hostName}, false;
    }

    method ObserveChat(message: Message)
      requires Valid()
      modifies this
      ensures Valid() && State() == OnEvent(old(State()), ChatLine(message), 0, false, false).0
    {
      participants := participants + {message.author};
      history := history + [message];
      if |history| > MAX_HISTORY {
        history := history[1..];
      }
    }

    method ObserveQueued(w: Wire, now: int, activeHost: bool, probes: bool) returns (r: Result<bool, ()>)
      requires Valid()
      modifies this, machine
      ensures Valid() && (State(), r) == OnQueued(old(State()), w, now, activeHost, probes)
      ensures r == Ok(true) ==> machine.proposal.Some?
    {
      var expiry := ProposalExpiry(w.createdAt, now);
      if expiry.Err? { return Ok(false); }
      if w.reason.None? { return Err(()); }
      ApplyKeepsProper(machine.State(), Command.Observe(ProposalOf(roomId, w, expiry.value), now));
      var isNew := machine.Observe(ProposalOf(roomId, w, expiry.value), now);
      if isNew.Err? {
        if isNew.error == ProposalError.Expired || isNew.error == Busy { return Ok(false); }
        return Err(());
      }
      if isNew.value {
        wire := Some(w);
      }
      if !(activeHost && machine.proposal.Some? && machine.proposal.value.proposalId == w.turnId
           && previewed != Some(w.turnId)) {
        return Ok(false);
      }
      if !settingsResolved {
        if !probes { return Err(()); }
        settingsResolved := true;
      }
      previewed := Some(w.turnId);
      return Ok(true);
    }

    /** `preview`. What is held is valid, so the context can always be built. */
    method MakePreview() returns (preview: Preview)
      requires Valid() && machine.proposal.Some?
      ensures machine.proposal == Some(preview.proposal)
      ensures exists names :: ToSet(names) == participants
                && Builds(preview.proposal, history, names, "auto", preview.context)
    {
      var proposal := machine.proposal.value;
      var names := Listed(participants);
      var context := BuildBoundedContext(proposal, history, names, "auto");
      return Preview(proposal, context.value);
    }

    /** `observe`. */
    method ObserveEvent(e: RoomEvent, now: int, activeHost: bool, probes: bool)
      returns (r: Result<Option<Preview>, ()>)
      requires Valid()
      modifies this, machine
      ensures Valid()
      ensures var (after, answer) := OnEvent(old(State()), e, now, activeHost, probes);
              State() == after && (r.Ok? <==> answer.Ok?) && (r.Ok? ==> (r.value.Some? <==> answer.value))
      ensures r.Ok? && r.value.Some? ==>
                && machine.proposal == Some(r.value.value.proposal)
                && exists names :: ToSet(names) == participants
                     && Builds(r.value.value.proposal, history, names, "auto", r.value.value.context)
    {
      hide OnObserve, OnCancel, OnStarted, Proper, Builds, ProposalExpiry;
      match e
      case ChatLine(message) =>
        ObserveChat(message);
        return Ok(None);
      case Arrival(name) =>
        participants := participants + {name};
        return Ok(None);
      case Queue(w) =>
        match w.action {
          case Queued =>
            var due := ObserveQueued(w, now, activeHost, probes);
            if due.Err? { return Err(()); }
            if !due.value { return Ok(None); }
            var preview := MakePreview();
            return Ok(Some(preview));
          case Cancelled =>
            ApplyKeepsProper(machine.State(), Command.Cancel(roomId, w.turnId));
            if machine.proposal.Some? && machine.proposal.value.proposalId == w.turnId {
              var _ := machine.Cancel(roomId, w.turnId);
            }
            wire, previewed := None, None;
            return Ok(None);
          case _ =>
            return Ok(None);
        }
      case Turn(id, status) =>
        if status == TurnStarted {
          ApplyKeepsProper(machine.State(), Command.ObserveStarted(roomId, id));
          var done := machine.ObserveStarted(roomId, id);
          if done.Err? { return Err(()); }
        } else if status == TurnCompleted {
          history := [];
        }
        return Ok(None);
      case OtherEvent =>
        return Ok(None);
    }
  }

  method Listed(s: set<string>) returns (names: seq<string>)
    ensures ToSet(names) == s
  {
    names := [];
    var rest := s;
    while rest != {}
      invariant ToSet(names) + rest == s
    {
      var x :| x in rest;
      names, rest := names + [x], rest - {x};
    }
  }

  // ---- Runs of events ----

  /** What came, when, with which authority, and whether Codex answered a probe. */
  datatype Seen = Seen(event: RoomEvent, now: int, activeHost: bool, probes: bool)

  /** The state after the events; an event that fails leaves what `observe` leaves. */
  ghost function After(c: Controller, events: seq<Seen>): Controller {
    if events == [] then c
    else
      var last := events[|events| - 1];
      OnEvent(After(c, events[..|events| - 1]), last.event, last.now, last.activeHost, last.probes).0
  }

  function ChatsSinceCompletion(events: seq<Seen>): seq<Message> {
    if events == [] then []
    else
      var before, e := ChatsSinceCompletion(events[..|events| - 1]), events[|events| - 1].event;
      if e.ChatLine? then before + [e.message]
      else if e == Turn(if e.Turn? then e.turnId else "", TurnCompleted) then []
      else before
  }

  lemma LastOfLonger<T>(n: nat, s: seq<T>, x: T)
    requires n > 0
    ensures Last(n, Last(n, s) + [x]) == Last(n, s + [x])
  {
  }

  lemma HistoryChange(c: Controller, e: RoomEvent, now: int, activeHost: bool, probes: bool)
    ensures OnEvent(c, e, now, activeHost, probes).0.history
            == if e.ChatLine? then Last(MAX_HISTORY, c.history + [e.message])
               else if e.Turn? && e.status == TurnCompleted then [] else c.history
  {
    hide OnObserve, OnCancel, OnStarted, ProposalExpiry;
  }

  /** The history is always the last hundred messages since a turn last completed. */
  lemma {:induction false} HistoryIsRecent(c: Controller, events: seq<Seen>)
    requires c.history == []
    ensures After(c, events).history == Last(100, ChatsSinceCompletion(events))
  {
    hide OnEvent;
    if events != [] {
      var front, last := events[..|events| - 1], events[|events| - 1];
      HistoryIsRecent(c, front);
      HistoryChange(After(c, front), last.event, last.now, last.activeHost, last.probes);
      if last.event.ChatLine? {
        LastOfLonger(MAX_HISTORY, ChatsSinceCompletion(front), last.event.message);
      }
    }
  }

  // ---- Previews ----

  /** Event `k` of a run gives a preview. */
  ghost predicate Previews(c: Controller, events: seq<Seen>, k: nat)
    requires k < |events|
  {
    var s := events[k];
    OnEvent(After(c, events[..k]), s.event, s.now, s.activeHost, s.probes).1 == Ok(true)
  }

  /** When a preview is given: to the active host, for a queued proposal that the machine holds
      after it, if it is not the one previewed last and the settings are known or a probe
      answers.  It is then the one previewed last. */
  lemma PreviewIff(c: Controller, e: RoomEvent, now: int, host: bool, probes: bool)
    ensures var (after, answer) := OnEvent(c, e, now, host, probes);
            && (answer == Ok(true) <==>
                 && host && e.Queue? && e.wire.action == RoomState.Queued && Taken(c, e.wire, now)
                 && after.machine.proposal.Some? && after.machine.proposal.value.proposalId == e.wire.turnId
                 && c.previewed != Some(e.wire.turnId) && (c.settingsResolved || probes))
            && (answer == Ok(true) ==> after.previewed == Some(e.wire.turnId) && after.settingsResolved)
            && (answer != Ok(true) ==>
                 && after.settingsResolved == c.settingsResolved
                 && after.previewed == if e.Queue? && e.wire.action == RoomState.Cancelled then None else c.previewed)
  {
    hide ProposalExpiry, ValidProposal, OnStarted, OnCancel;
  }

  /** The message becomes a proposal that the machine takes or already holds. */
  predicate Taken(c: Controller, w: Wire, now: int) {
    && ProposalExpiry(w.createdAt, now).Ok? && w.reason.Some?
    && OnObserve(c.machine, ProposalOf(c.machine.roomId, w, ProposalExpiry(w.createdAt, now).value), now).1.Ok?
  }

  /** An idle controller previews an admissible proposal to its host, and to nobody else. */
  lemma FirstPreview(c: Controller, w: Wire, now: int, host: bool)
    requires Idle(c) && c.previewed.None? && w.action == RoomState.Queued && Admissible(c.machine.roomId, w, now)
    ensures OnEvent(c, Queue(w), now, host, true).1 == Ok(host)
    ensures OnEvent(c, Queue(w), now, host, true).0.wire == Some(w)
  {
    hide ProposalExpiry, ValidProposal;
    LiveProposalExpiresLater(w.createdAt, now);
  }

  /** Over every run a preview goes to the active host only, and shows what is then held. */
  lemma PreviewsGoToTheHost(c: Controller, events: seq<Seen>, k: nat)
    requires k < |events| && Previews(c, events, k)
    ensures events[k].activeHost && events[k].event.Queue? && events[k].event.wire.action == RoomState.Queued
    ensures var m := After(c, events[..k + 1]).machine;
            m.proposal.Some? && m.proposal.value.proposalId == events[k].event.wire.turnId
  {
    var s := events[k];
    assert events[..k + 1][..k] == events[..k];
    PreviewIff(After(c, events[..k]), s.event, s.now, s.activeHost, s.probes);
  }

  /** The event makes the controller forget which proposal it previewed, or previews another. */
  ghost predicate Forgets(c: Controller, events: seq<Seen>, k: nat, id: string)
    requires k < |events|
  {
    var e := events[k].event;
    e.Queue? && (e.wire.action == RoomState.Cancelled || (Previews(c, events, k) && e.wire.turnId != id))
  }

  lemma {:induction false} StaysPreviewed(c: Controller, events: seq<Seen>, i: nat, j: nat, id: string)
    requires i <= j <= |events| && After(c, events[..i]).previewed == Some(id)
    requires forall k :: i <= k < j ==> !Forgets(c, events, k, id)
    ensures After(c, events[..j]).previewed == Some(id)
    decreases j - i
  {
    hide OnEvent;
    if i < j {
      StaysPreviewed(c, events, i, j - 1, id);
      var s := events[j - 1];
      assert events[..j][..j - 1] == events[..j - 1];
      PreviewIff(After(c, events[..j - 1]), s.event, s.now, s.activeHost, s.probes);
      assert !Forgets(c, events, j - 1, id);
    }
  }

  /** A proposal is previewed a second time only after a cancellation was read, or another
      proposal previewed, in between. */
  lemma PreviewedOnce(c: Controller, events: seq<Seen>, i: nat, j: nat)
    requires i < j < |events| && Previews(c, events, i) && Previews(c, events, j)
    requires events[i].event.Queue? && events[j].event.Queue?
    requires events[i].event.wire.turnId == events[j].event.wire.turnId
    ensures exists k :: i < k < j && Forgets(c, events, k, events[i].event.wire.turnId)
  {
    hide OnEvent;
    var id, s, t := events[i].event.wire.turnId, events[i], events[j];
    PreviewIff(After(c, events[..i]), s.event, s.now, s.activeHost, s.probes);
    PreviewIff(After(c, events[..j]), t.event, t.now, t.activeHost, t.probes);
    assert events[..i + 1][..i] == events[..i];
    if forall k :: i + 1 <= k < j ==> !Forgets(c, events, k, id) {
      StaysPreviewed(c, events, i + 1, j, id);
    }
  }

  /** The first copy of a held proposal that comes with authority and a probe is previewed. */
  lemma HeldProposalIsPreviewed(c: Controller, w: Wire, now: int)
    requires w.action == RoomState.Queued && Taken(c, w, now) && c.previewed != Some(w.turnId)
    requires c.machine.proposal.Some? && c.machine.proposal.value.proposalId == w.turnId
    ensures OnEvent(c, Queue(w), now, true, true).1 == Ok(true)
  {
    hide ProposalExpiry, ValidProposal;
    PreviewIff(c, Queue(w), now, true, true);
  }

  // ---- What else an event does ----

  /** An event fails exactly when it is a started turn that the machine refuses, a queued
      proposal without a task or with invalid fields, or one due for a preview with no probe. */
  lemma EventFailsIff(c: Controller, e: RoomEvent, now: int, host: bool, probes: bool)
    requires Proper(c.machine)
    ensures var m := c.machine;
            OnEvent(c, e, now, host, probes).1.Err? <==>
              match e
              case Turn(id, TurnStarted) =>
                id !in m.completed && m.phase != Running
                && !(m.phase == Proposed && m.proposal.value.proposalId == id)
              case Queue(w) =>
                && w.action == RoomState.Queued && ProposalExpiry(w.createdAt, now).Ok?
                && (|| w.reason.None?
                    || !ValidProposal(ProposalOf(m.roomId, w, ProposalExpiry(w.createdAt, now).value))
                    || (&& Taken(c, w, now) && host && !c.settingsResolved && !probes && c.previewed != Some(w.turnId)
                        && OnEvent(c, e, now, host, true).1 == Ok(true)))
              case _ => false
  {
    hide ProposalExpiry, ValidProposal, OnCancel;
    if e.Queue? { PreviewIff(c, e, now, host, true); }
  }

  /** Who takes part: everybody who spoke or arrived. */
  lemma Participants(c: Controller, e: RoomEvent, now: int, host: bool, probes: bool)
    ensures OnEvent(c, e, now, host, probes).0.participants
            == c.participants + (if e.ChatLine? then {e.message.author}
                                 else if e.Arrival? then {e.displayName} else {})
  {
    hide ProposalExpiry, OnObserve, OnStarted, OnCancel;
  }

  /** A cancellation ends the proposal that it names, if it is held, and always forgets the
      message and the preview. */
  lemma CancellationEnds(c: Controller, w: Wire, now: int, host: bool, probes: bool)
    requires Proper(c.machine) && w.action == RoomState.Cancelled
    ensures var (after, answer) := OnEvent(c, Queue(w), now, host, probes);
            && answer == Ok(false) && after.wire.None? && after.previewed.None?
            && if c.machine.proposal.Some? && c.machine.proposal.value.proposalId == w.turnId
               then after.machine.proposal.None? && after.machine.phase == Phase.Cancelled
               else after.machine == c.machine
  {
    hide ValidProposal, Trimmed;
  }

  // ---- Replay after a restart ----

  predicate Idle(c: Controller) {
    c.machine.phase == Phase.Idle && c.machine.proposal.None? && c.machine.completed == {}
  }

  /** The proposal of the message is one that a machine with nothing on its hands takes. */
  predicate Admissible(roomId: string, w: Wire, now: int) {
    && ProposalExpiry(w.createdAt, now).Ok? && w.reason.Some?
    && ValidProposal(ProposalOf(roomId, w, ProposalExpiry(w.createdAt, now).value))
  }

  lemma LiveProposalExpiresLater(createdAt: string, now: int)
    requires ProposalExpiry(createdAt, now).Ok?
    ensures ProposalExpiry(createdAt, now).value > now
  {
    hide UnixSecondsFromRfc3339;
  }

  /** A restarted client that reads back a proposal and its start stumbles over the start
      exactly when it does not admit the proposal. If it does, the proposal is finished and
      no approval or further copy of it brings it back. */
  lemma StartedTurnReplaysIff(c: Controller, w: Wire, now: int, activeHost: bool, later: int)
    requires Idle(c) && w.action == RoomState.Queued
    ensures var queued := OnEvent(c, Queue(w), now, activeHost, true).0;
            var (after, answer) := OnEvent(queued, Turn(w.turnId, TurnStarted), now, activeHost, true);
            && (answer.Ok? <==> Admissible(c.machine.roomId, w, now))
            && (answer.Ok? ==>
                  && after.machine.phase == Phase.Cancelled && after.machine.completed == {w.turnId}
                  && OnApprove(after.machine, c.machine.roomId, w.turnId, later, true) == (after.machine, Ok(false))
                  && OnEvent(after, Queue(w), later, activeHost, true).0.machine == after.machine)
  {
    hide ProposalExpiry, ValidProposal;
    if ProposalExpiry(w.createdAt, now).Ok? { LiveProposalExpiresLater(w.createdAt, now); }
    assert {} + {w.turnId} == {w.turnId};
    assert Trimmed({w.turnId}) == {w.turnId};
  }

  /** For a proposal stamped by a client's clock that means: replay fails as soon as the
      fifteen minutes are over. */
  lemma ReplayFailsAfterExpiry(c: Controller, w: Wire, created: nat, now: int, activeHost: bool)
    requires Idle(c) && w.action == RoomState.Queued
    requires created < YEAR_10000 && w.createdAt == UtcTimestamp(created)
    requires w.reason.Some? && ValidProposal(ProposalOf(c.machine.roomId, w, created + 900))
    ensures var queued := OnEvent(c, Queue(w), now, activeHost, true).0;
            OnEvent(queued, Turn(w.turnId, TurnStarted), now, activeHost, true).1.Ok? <==>
                created <= now < created + 900
  {
    hide ProposalExpiry, ValidProposal, UtcTimestamp, OnEvent;
    StampedProposalLifetime(created, now);
    StartedTurnReplaysIff(c, w, now, activeHost, now);
  }

  ghost function Step(c: Controller, s: Seen): Controller {
    OnEvent(c, s.event, s.now, s.activeHost, s.probes).0
  }

  /** The event brings a proposal that an idle machine takes. */
  predicate Brings(c: Controller, s: Seen) {
    s.event.Queue? && s.event.wire.action == RoomState.Queued && Admissible(c.machine.roomId, s.event.wire, s.now)
  }

  /** ... and whose id is not a remembered one. */
  predicate BringsNew(c: Controller, s: Seen) {
    Brings(c, s) && s.event.wire.turnId !in c.machine.completed
  }

  /** Nothing is held, and there is room to remember one more. */
  predicate AtRest(c: Controller) {
    Proper(c.machine) && c.machine.proposal.None? && |c.machine.completed| < MAX_COMPLETED
  }

  lemma StepKeepsProper(c: Controller, s: Seen)
    requires Proper(c.machine)
    ensures Proper(Step(c, s).machine) && Step(c, s).machine.roomId == c.machine.roomId
  {
    hide OnObserve, OnCancel, OnStarted, Proper, ProposalExpiry;
    match s.event {
      case Queue(w) =>
        if ProposalExpiry(w.createdAt, s.now).Ok? && w.reason.Some? {
          ApplyKeepsProper(c.machine,
              Command.Observe(ProposalOf(c.machine.roomId, w, ProposalExpiry(w.createdAt, s.now).value), s.now));
        }
        ApplyKeepsProper(c.machine, Command.Cancel(c.machine.roomId, w.turnId));
      case Turn(id, _) => ApplyKeepsProper(c.machine, Command.ObserveStarted(c.machine.roomId, id));
      case _ =>
    }
  }

  /** At rest, the machine moves exactly when an admissible proposal comes whose id is not
      a remembered one; it then holds that proposal. */
  lemma RestIsLeftIff(c: Controller, s: Seen)
    requires Proper(c.machine) && c.machine.proposal.None?
    ensures if BringsNew(c, s) then Step(c, s).machine.proposal.Some? else Step(c, s).machine == c.machine
    ensures Step(c, s).machine.completed == c.machine.completed
  {
    hide ProposalExpiry, ValidProposal;
    match s.event {
      case Queue(w) => if ProposalExpiry(w.createdAt, s.now).Ok? { LiveProposalExpiresLater(w.createdAt, s.now); }
      case _ =>
    }
  }

  /** The machine holds a proposal, or remembers more ids than `n`. */
  predicate Moved(m: Machine, n: nat) {
    Proper(m) && |m.completed| >= n && (m.proposal.Some? || |m.completed| > n)
  }

  lemma {:induction false} TrimmedSize(s: set<string>)
    ensures |Trimmed(s)| == if |s| <= MAX_COMPLETED then |s| else MAX_COMPLETED
  {
    TrimmedIsLargest(s);
  }

  lemma CompletedNeverShrinks(m: Machine, c: Command, n: nat)
    requires Moved(m, n) && n < MAX_COMPLETED && |m.completed| <= MAX_COMPLETED
    ensures Moved(Apply(m, c), n) && |Apply(m, c).completed| <= MAX_COMPLETED
  {
    hide Trimmed, ValidProposal, Apply;
    ApplyKeepsProper(m, c);
    CompletedChange(m, c);
    if m.proposal.Some? { TrimmedSize(m.completed + {m.proposal.value.proposalId}); }
  }

  lemma StepKeepsMoved(c: Controller, s: Seen, n: nat)
    requires Moved(c.machine, n) && n < MAX_COMPLETED && |c.machine.completed| <= MAX_COMPLETED
    ensures Moved(Step(c, s).machine, n) && |Step(c, s).machine.completed| <= MAX_COMPLETED
  {
    hide OnObserve, OnCancel, OnStarted, Moved, ProposalExpiry;
    match s.event {
      case Queue(w) =>
        if ProposalExpiry(w.createdAt, s.now).Ok? && w.reason.Some? {
          CompletedNeverShrinks(c.machine,
              Command.Observe(ProposalOf(c.machine.roomId, w, ProposalExpiry(w.createdAt, s.now).value), s.now), n);
        }
        CompletedNeverShrinks(c.machine, Command.Cancel(c.machine.roomId, w.turnId), n);
      case Turn(id, _) => CompletedNeverShrinks(c.machine, Command.ObserveStarted(c.machine.roomId, id), n);
      case _ =>
    }
  }

  /** Every proposal that the events bring is a remembered one. */
  predicate BringsNothingNew(c: Controller, events: seq<Seen>) {
    forall i :: 0 <= i < |events| ==> !BringsNew(c, events[i])
  }

  /** Whether events that are read at rest move the machine can be told from the events
      alone: they leave it exactly as it was when every admissible proposal among them is a
      remembered one, and otherwise it ends holding a proposal or remembering more. */
  lemma {:induction false} ReadingChangesNothingIff(c: Controller, events: seq<Seen>)
    requires AtRest(c)
    ensures After(c, events).machine == c.machine <==> BringsNothingNew(c, events)
    ensures BringsNothingNew(c, events) || Moved(After(c, events).machine, |c.machine.completed|)
    ensures |After(c, events).machine.completed| <= MAX_COMPLETED
  {
    hide OnEvent, Proper, BringsNew;
    if events != [] {
      var front, last := events[..|events| - 1], events[|events| - 1];
      ReadingChangesNothingIff(c, front);
      var mid := After(c, front);
      assert BringsNothingNew(c, events) <==> BringsNothingNew(c, front) && !BringsNew(c, last);
      if BringsNothingNew(c, front) {
        SameMachineSameStep(c, mid, last);
        RestIsLeftIff(c, last);
        StepKeepsProper(c, last);
      } else {
        StepKeepsMoved(mid, last, |c.machine.completed|);
      }
    }
  }

  lemma SameMachineSameStep(c: Controller, d: Controller, s: Seen)
    requires c.machine == d.machine
    ensures Step(c, s).machine == Step(d, s).machine
  {
    hide OnObserve, OnCancel, OnStarted, ProposalExpiry;
  }

  /** Reading a second time what has been read, and led back to rest, changes nothing
      exactly when every proposal that is still admissible is among the remembered ones. */
  lemma SecondReadingIff(c: Controller, events: seq<Seen>)
    requires AtRest(After(c, events))
    ensures var once := After(c, events);
            After(once, events).machine == once.machine <==> BringsNothingNew(once, events)
  {
    ReadingChangesNothingIff(After(c, events), events);
  }

  /** For a proposal, another one that is turned away while the first is held, and the
      cancellation of the first: the second reading differs from the first exactly when the
      other one is admissible and is another one. */
  lemma SecondReplayDiffersIff(c: Controller, first: Wire, second: Wire, now: int, activeHost: bool)
    requires Idle(c) && first.action == RoomState.Queued && second.action == RoomState.Queued
    requires Admissible(c.machine.roomId, first, now)
    ensures var events := [Seen(Queue(first), now, activeHost, true), Seen(Queue(second), now, activeHost, true),
                           Seen(Queue(first.(action := RoomState.Cancelled)), now, activeHost, true)];
            After(After(c, events), events).machine != After(c, events).machine
            <==> Admissible(c.machine.roomId, second, now) && first.turnId != second.turnId
  {
    hide OnEvent, Admissible;
    var events := [Seen(Queue(first), now, activeHost, true), Seen(Queue(second), now, activeHost, true),
                   Seen(Queue(first.(action := RoomState.Cancelled)), now, activeHost, true)];
    AfterThree(c, events);
    PassOver(c, first, second, now, activeHost);
    SecondReadingIff(c, events);
    var once := After(c, events);
    assert !BringsNew(once, events[0]) && !BringsNew(once, events[2]);
    assert BringsNew(once, events[1]) <==> Admissible(c.machine.roomId, second, now) && first.turnId != second.turnId;
  }

  lemma AfterThree(c: Controller, events: seq<Seen>)
    requires |events| == 3
    ensures After(c, events) == Step(Step(Step(c, events[0]), events[1]), events[2])
  {
    hide OnEvent;
    assert events[..2][..1] == events[..1] && events[..1][..0] == [];
    assert After(c, events[..1]) == Step(c, events[0]);
    assert After(c, events[..2]) == Step(After(c, events[..1]), events[1]);
  }

  lemma PassOver(c: Controller, first: Wire, second: Wire, now: int, activeHost: bool)
    requires Idle(c) && first.action == RoomState.Queued && second.action == RoomState.Queued
    requires Admissible(c.machine.roomId, first, now)
    ensures var held := Step(c, Seen(Queue(first), now, activeHost, true));
            var after := Step(Step(held, Seen(Queue(second), now, activeHost, true)),
                              Seen(Queue(first.(action := RoomState.Cancelled)), now, activeHost, true));
            after.machine == Machine(c.machine.roomId, Phase.Cancelled, None, {first.turnId})
  {
    hide ProposalExpiry, ValidProposal;
    LiveProposalExpiresLater(first.createdAt, now);
    var held := Step(c, Seen(Queue(first), now, activeHost, true));
    assert held.machine.phase == Proposed && held.machine.proposal.Some?
        && held.machine.proposal.value.proposalId == first.turnId;
    HeldStays(held, second, now, activeHost);
    assert {} + {first.turnId} == {first.turnId};
    assert Trimmed({first.turnId}) == {first.turnId};
  }

  lemma HeldStays(c: Controller, w: Wire, now: int, activeHost: bool)
    requires c.machine.proposal.Some? && w.action == RoomState.Queued
    ensures Step(c, Seen(Queue(w), now, activeHost, true)).machine == c.machine
  {
    hide ProposalExpiry, ValidProposal;
  }
}
