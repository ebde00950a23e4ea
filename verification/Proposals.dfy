/** The machine that holds at most one Codex proposal and remembers finished ones
    (`ProposalMachine` in `codex.rs`). */
module Proposals {
  import opened Basics
  import opened Text

  const MAX_COMPLETED := 256

  datatype Proposal = Proposal(
    roomId: string, proposalId: string, proposer: string, proposerUserId: string, task: string,
    createdAt: string, expiresAt: int)

  datatype Phase = Idle | Proposed | Approved | Starting | Running | Completed | Failed | Cancelled

  datatype ProposalError = Invalid | Busy | BindingMismatch | Expired | NotActiveHost | InvalidTransition

  datatype Machine = Machine(roomId: string, phase: Phase, proposal: Option<Proposal>, completed: set<string>)

  type Answer = Result<bool, ProposalError>
  type Done = Result<(), ProposalError>

  predicate BoundedIdentifier(s: string, max: nat) {
    0 < |s| <= max && NoControl(s)
  }

  /** `validate_proposal`. */
  predicate ValidProposal(p: Proposal) {
    && BoundedIdentifier(p.roomId, 160) && BoundedIdentifier(p.proposalId, 160)
    && 0 < |p.proposer| <= 120 && BoundedIdentifier(p.proposerUserId, 128)
    && !IsBlank(p.task) && |p.task| <= 4_096 && |p.createdAt| <= 64 && p.expiresAt > 0
  }

  // ---- The memory of finished ids ----

  ghost predicate IsLeast(x: string, s: set<string>) {
    x in s && forall y :: y in s ==> AtMost(x, y)
  }

  lemma {:induction false} SomeLeast(s: set<string>) returns (x: string)
    requires s != {}
    ensures IsLeast(x, s)
    decreases |s|
  {
    x :| x in s;
    if s != {x} {
      var rest := s - {x};
      assert rest != {};
      var y := SomeLeast(rest);
      LessIsTotal(x, y);
      if Less(y, x) {
        x := y;
      } else {
        assert Less(x, y);
        forall z | z in s ensures AtMost(x, z) {
          if z != x && z != y {
            assert z in rest && Less(y, z);
            LessIsTransitive(x, y, z);
          }
        }
      }
    }
  }

  lemma LeastExists(s: set<string>)
    requires s != {}
    ensures exists x :: IsLeast(x, s)
  {
    var x := SomeLeast(s);
  }

  lemma LeastIsUnique(x: string, y: string, s: set<string>)
    requires IsLeast(x, s) && IsLeast(y, s)
    ensures x == y
  {
    if x != y { LessIsAsymmetric(x, y); }
  }

  ghost function Least(s: set<string>): (x: string)
    requires s != {}
    ensures IsLeast(x, s)
  {
    LeastExists(s);
    var x :| IsLeast(x, s);
    x
  }

  /** The smallest ids go first, until the rest fits. */
  ghost function Trimmed(s: set<string>): (r: set<string>)
    decreases |s|
  {
    if |s| <= MAX_COMPLETED then s else Trimmed(s - {Least(s)})
  }

  // ---- What each operation does ----

  predicate Bound(m: Machine, roomId: string, id: string) {
    roomId == m.roomId && m.proposal.Some? && m.proposal.value.proposalId == id
  }

  predicate Remembered(m: Machine, roomId: string, id: string) {
    roomId == m.roomId && id in m.completed
  }

  /** The held proposal ends in `phase`, and its id is remembered. */
  ghost function Finish(m: Machine, phase: Phase): Machine {
    m.(phase := phase, proposal := None,
       completed := if m.proposal.Some? then Trimmed(m.completed + {m.proposal.value.proposalId}) else m.completed)
  }

  function OnObserve(m: Machine, p: Proposal, now: int): (Machine, Answer) {
    if !ValidProposal(p) then (m, Err(Invalid))
    else if p.roomId != m.roomId then (m, Err(BindingMismatch))
    else if p.proposalId in m.completed then (m, Ok(false))
    else if p.expiresAt <= now then (m, Err(Expired))
    else if m.proposal.Some? then (m, if m.proposal.value == p then Ok(false) else Err(Busy))
    else if m.phase !in {Idle, Completed, Failed, Cancelled} then (m, Err(Busy))
    else (m.(phase := Proposed, proposal := Some(p)), Ok(true))
  }

  ghost function OnApprove(m: Machine, roomId: string, id: string, now: int, activeHost: bool): (Machine, Answer) {
    if Remembered(m, roomId, id) then (m, Ok(false))
    else if !Bound(m, roomId, id) then (m, Err(BindingMismatch))
    else if !activeHost then (m, Err(NotActiveHost))
    else if m.proposal.value.expiresAt <= now then (Finish(m, Cancelled), Err(Expired))
    else if m.phase == Approved then (m, Ok(false))
    else if m.phase != Proposed then (m, Err(InvalidTransition))
    else (m.(phase := Phase.Approved), Ok(true))
  }

  function OnStart(m: Machine, roomId: string, id: string, activeHost: bool): (Machine, Done) {
    if !Bound(m, roomId, id) then (m, Err(BindingMismatch))
    else if !activeHost then (m, Err(NotActiveHost))
    else if m.phase != Approved then (m, Err(InvalidTransition))
    else (m.(phase := Running), Ok(()))
  }

  ghost function OnCancel(m: Machine, roomId: string, id: string): (Machine, Answer) {
    if Remembered(m, roomId, id) then (m, Ok(false))
    else if !Bound(m, roomId, id) then (m, Err(BindingMismatch))
    else if m.phase == Cancelled then (m, Ok(false))
    else if m.phase in {Completed, Failed} then (m, Err(InvalidTransition))
    else (Finish(m, Cancelled), Ok(true))
  }

  ghost function OnComplete(m: Machine, roomId: string, id: string, activeHost: bool): (Machine, Answer) {
    if Remembered(m, roomId, id) then (m, Ok(false))
    else if !Bound(m, roomId, id) then (m, Err(BindingMismatch))
    else if !activeHost then (Finish(m, Cancelled), Err(NotActiveHost))
    else if m.phase == Completed then (m, Ok(false))
    else if m.phase != Running then (m, Err(InvalidTransition))
    else (Finish(m, Completed), Ok(true))
  }

  ghost function OnFail(m: Machine, roomId: string, id: string): (Machine, Done) {
    if !Bound(m, roomId, id) then (m, Err(BindingMismatch))
    else if m.phase !in {Starting, Running} then (m, Err(InvalidTransition))
    else (Finish(m, Failed), Ok(()))
  }

  ghost function OnStarted(m: Machine, roomId: string, id: string): (Machine, Done) {
    if roomId != m.roomId then (m, Err(BindingMismatch))
    else if id in m.completed || m.phase == Running then (m, Ok(()))
    else if !Bound(m, roomId, id) then (m, Err(BindingMismatch))
    else if m.phase != Proposed then (m, Err(InvalidTransition))
    else (Finish(m, Cancelled), Ok(()))
  }

  // ---- The machine ----

  class ProposalMachine {
    const roomId: string
    var phase: Phase
    var proposal: Option<Proposal>
    var completedIds: set<string>

    ghost function State(): Machine
      reads this
    {
      Machine(roomId, phase, proposal, completedIds)
    }

    constructor (roomId: string)
      ensures State() == Machine(roomId, Idle, None, {})
    {
      this.roomId := roomId;
      phase, proposal, completedIds := Idle, None, {};
    }

    /** `new`. */
    static method Create(roomId: string) returns (r: Result<ProposalMachine, ProposalError>)
      ensures r.Ok? <==> BoundedIdentifier(roomId, 160)
      ensures r.Ok? ==> fresh(r.value) && r.value.State() == Machine(roomId, Idle, None, {})
      ensures r.Err? ==> r.error == Invalid
    {
      if !BoundedIdentifier(roomId, 160) { return Err(Invalid); }
      var machine := new ProposalMachine(roomId);
      return Ok(machine);
    }

    method Observe(p: Proposal, now: int) returns (r: Answer)
      modifies this
      ensures (State(), r) == OnObserve(old(State()), p, now)
    {
      if !ValidProposal(p) { return Err(Invalid); }
      if p.roomId != roomId { return Err(BindingMismatch); }
      if p.proposalId in completedIds { return Ok(false); }
      if p.expiresAt <= now { return Err(Expired); }
      if proposal.Some? {
        if proposal.value == p { return Ok(false); }
        return Err(Busy);
      }
      if phase !in {Idle, Completed, Failed, Cancelled} { return Err(Busy); }
      phase := Proposed;
      proposal := Some(p);
      return Ok(true);
    }

    method Approve(room: string, id: string, now: int, activeHost: bool) returns (r: Answer)
      modifies this
      ensures (State(), r) == OnApprove(old(State()), room, id, now, activeHost)
    {
      if room == roomId && id in completedIds { return Ok(false); }
      var bound := RequireBinding(room, id);
      if bound.Err? { return Err(bound.error); }
      if !activeHost { return Err(NotActiveHost); }
      if proposal.value.expiresAt <= now {
        phase := Cancelled;
        FinishCurrent();
        return Err(Expired);
      }
      if phase == Approved { return Ok(false); }
      if phase != Proposed { return Err(InvalidTransition); }
      phase := Approved;
      return Ok(true);
    }

    method Start(room: string, id: string, activeHost: bool) returns (r: Done)
      modifies this
      ensures (State(), r) == OnStart(old(State()), room, id, activeHost)
    {
      var bound := RequireBinding(room, id);
      if bound.Err? { return Err(bound.error); }
      if !activeHost { return Err(NotActiveHost); }
      if phase != Approved { return Err(InvalidTransition); }
      phase := Starting;
      phase := Running;
      return Ok(());
    }

    method Cancel(room: string, id: string) returns (r: Answer)
      modifies this
      ensures (State(), r) == OnCancel(old(State()), room, id)
    {
      if room == roomId && id in completedIds { return Ok(false); }
      var bound := RequireBinding(room, id);
      if bound.Err? { return Err(bound.error); }
      if phase == Cancelled { return Ok(false); }
      if phase in {Completed, Failed} { return Err(InvalidTransition); }
      phase := Cancelled;
      FinishCurrent();
      return Ok(true);
    }

    method Complete(room: string, id: string, activeHost: bool) returns (r: Answer)
      modifies this
      ensures (State(), r) == OnComplete(old(State()), room, id, activeHost)
    {
      if room == roomId && id in completedIds { return Ok(false); }
      var bound := RequireBinding(room, id);
      if bound.Err? { return Err(bound.error); }
      if !activeHost {
        phase := Cancelled;
        FinishCurrent();
        return Err(NotActiveHost);
      }
      if phase == Completed { return Ok(false); }
      if phase != Running { return Err(InvalidTransition); }
      phase := Completed;
      FinishCurrent();
      return Ok(true);
    }

    method Fail(room: string, id: string) returns (r: Done)
      modifies this
      ensures (State(), r) == OnFail(old(State()), room, id)
    {
      var bound := RequireBinding(room, id);
      if bound.Err? { return Err(bound.error); }
      if phase !in {Starting, Running} { return Err(InvalidTransition); }
      phase := Failed;
      FinishCurrent();
      return Ok(());
    }

    method ObserveStarted(room: string, id: string) returns (r: Done)
      modifies this
      ensures (State(), r) == OnStarted(old(State()), room, id)
    {
      if room != roomId { return Err(BindingMismatch); }
      if id in completedIds || phase == Running { return Ok(()); }
      var bound := RequireBinding(room, id);
      if bound.Err? { return Err(bound.error); }
      if phase != Proposed { return Err(InvalidTransition); }
      phase := Cancelled;
      FinishCurrent();
      return Ok(());
    }

    method RequireBinding(room: string, id: string) returns (r: Done)
      ensures r == if Bound(State(), room, id) then Ok(()) else Err(BindingMismatch)
    {
      if room != roomId || proposal.None? || proposal.value.proposalId != id {
        return Err(BindingMismatch);
      }
      return Ok(());
    }

    method FinishCurrent()
      modifies this
      ensures State() == Finish(old(State()), old(phase))
    {
      if proposal.Some? {
        completedIds := completedIds + {proposal.value.proposalId};
        proposal := None;
        ghost var all := completedIds;
        while |completedIds| > MAX_COMPLETED
          invariant phase == old(phase) && proposal == None
          invariant Trimmed(completedIds) == Trimmed(all)
          decreases |completedIds|
        {
          var first := FirstOf(completedIds);
          LeastIsUnique(first, Least(completedIds), completedIds);
          completedIds := completedIds - {first};
        }
      }
    }
  }

  /** The first id in the order of the ordered set. */
  method FirstOf(s: set<string>) returns (x: string)
    requires s != {}
    ensures IsLeast(x, s)
  {
    LeastExists(s);
    x :| x in s && forall y :: y in s ==> AtMost(x, y);
  }
}
