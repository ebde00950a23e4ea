/** What each command of the proposal machine answers, and the machine that it leaves. */
module ProposalAnswers {
  import opened Basics
  import opened Text
  import opened Proposals
  import opened ProposalRuns

  /** The bounds of a proposal, field by field. */
  lemma ProposalBounds(p: Proposal)
    ensures ValidProposal(p) <==>
              && 1 <= |p.roomId| <= 160 && NoControl(p.roomId)
              && 1 <= |p.proposalId| <= 160 && NoControl(p.proposalId)
              && 1 <= |p.proposer| <= 120
              && 1 <= |p.proposerUserId| <= 128 && NoControl(p.proposerUserId)
              && (exists i :: 0 <= i < |p.task| && !IsWhitespace(p.task[i])) && |p.task| <= 4_096
              && |p.createdAt| <= 64 && 0 < p.expiresAt
  {
    hide NoControl;
  }

  predicate Holds(m: Machine, roomId: string, id: string) {
    roomId == m.roomId && m.proposal.Some? && m.proposal.value.proposalId == id
  }

  predicate Knows(m: Machine, roomId: string, id: string) {
    roomId == m.roomId && id in m.completed
  }

  /** What is held has ended in this phase: it is no longer held, and among the 256 largest
      finished ids its own is remembered. */
  ghost predicate Ended(m: Machine, after: Machine, phase: Phase) {
    && m.proposal.Some? && after == Machine(m.roomId, phase, None, after.completed)
    && IsLargest(after.completed, m.completed + {m.proposal.value.proposalId})
  }

  lemma FinishEnds(m: Machine, phase: Phase)
    requires m.proposal.Some?
    ensures Ended(m, Finish(m, phase), phase)
  {
    hide Trimmed, IsLargest;
    TrimmedIsLargest(m.completed + {m.proposal.value.proposalId});
  }

  /** A proposal is taken when it is valid, of this room, not a remembered one and not expired,
      and nothing is held or under way; the same one again is no news. */
  lemma ObserveAnswers(m: Machine, p: Proposal, now: int)
    ensures var (after, r) := OnObserve(m, p, now);
            var here := ValidProposal(p) && p.roomId == m.roomId;
            var open := here && p.proposalId !in m.completed && now < p.expiresAt;
            var free := m.proposal.None? && m.phase in {Phase.Idle, Phase.Completed, Phase.Failed, Phase.Cancelled};
            && (r == Ok(true) <==> open && free)
            && (r == Ok(false) <==> here && (p.proposalId in m.completed || (open && m.proposal == Some(p))))
            && (r == Err(Invalid) <==> !ValidProposal(p))
            && (r == Err(BindingMismatch) <==> ValidProposal(p) && p.roomId != m.roomId)
            && (r == Err(Expired) <==> here && p.proposalId !in m.completed && p.expiresAt <= now)
            && (r == Err(Busy) <==> open && !free && m.proposal != Some(p))
            && after == if r == Ok(true) then Machine(m.roomId, Proposed, Some(p), m.completed) else m
  {
    hide ValidProposal;
  }

  /** Approval: by the active host, of what is held and only proposed, before its expiry; after
      it the proposal is ended. */
  lemma ApproveAnswers(m: Machine, roomId: string, id: string, now: int, host: bool)
    ensures var (after, r) := OnApprove(m, roomId, id, now, host);
            var held := Holds(m, roomId, id) && id !in m.completed;
            var live := held && now < m.proposal.value.expiresAt;
            && (r == Ok(true) <==> live && host && m.phase == Proposed)
            && (r == Ok(false) <==> Knows(m, roomId, id) || (live && host && m.phase == Phase.Approved))
            && (r == Err(BindingMismatch) <==> !Knows(m, roomId, id) && !held)
            && (r == Err(NotActiveHost) <==> held && !host)
            && (r == Err(Expired) <==> held && host && m.proposal.value.expiresAt <= now)
            && (r == Err(InvalidTransition) <==> live && host && m.phase !in {Proposed, Phase.Approved})
            && if r == Ok(true) then after == Machine(m.roomId, Phase.Approved, m.proposal, m.completed)
               else if r == Err(Expired) then Ended(m, after, Phase.Cancelled) else after == m
  {
    hide Ended, Trimmed;
    if m.proposal.Some? { FinishEnds(m, Phase.Cancelled); }
  }

  /** A start: by the active host, of what is held and approved. */
  lemma StartAnswers(m: Machine, roomId: string, id: string, host: bool)
    ensures var (after, r) := OnStart(m, roomId, id, host);
            var held := Holds(m, roomId, id);
            && (r == Ok(()) <==> held && host && m.phase == Phase.Approved)
            && (r == Err(BindingMismatch) <==> !held)
            && (r == Err(NotActiveHost) <==> held && !host)
            && (r == Err(InvalidTransition) <==> held && host && m.phase != Phase.Approved)
            && after == if r.Ok? then Machine(m.roomId, Running, m.proposal, m.completed) else m
  {
  }

  /** A cancellation ends whatever is held under that id, by anybody and in any phase but the
      three in which nothing is ever held. */
  lemma CancelAnswers(m: Machine, roomId: string, id: string)
    ensures var (after, r) := OnCancel(m, roomId, id);
            var held := Holds(m, roomId, id) && id !in m.completed;
            && (r == Ok(true) <==> held && m.phase !in {Phase.Completed, Phase.Failed, Phase.Cancelled})
            && (r == Ok(false) <==> Knows(m, roomId, id) || (held && m.phase == Phase.Cancelled))
            && (r == Err(BindingMismatch) <==> !held && !Knows(m, roomId, id))
            && (r == Err(InvalidTransition) <==> held && m.phase in {Phase.Completed, Phase.Failed})
            && if r == Ok(true) then Ended(m, after, Phase.Cancelled) else after == m
  {
    hide Ended, Trimmed;
    if m.proposal.Some? { FinishEnds(m, Phase.Cancelled); }
  }

  /** A completion: by the active host, of a running turn; without authority what is held is
      cancelled instead. */
  lemma CompleteAnswers(m: Machine, roomId: string, id: string, host: bool)
    ensures var (after, r) := OnComplete(m, roomId, id, host);
            var held := Holds(m, roomId, id) && id !in m.completed;
            && (r == Ok(true) <==> held && host && m.phase == Running)
            && (r == Ok(false) <==> Knows(m, roomId, id) || (held && host && m.phase == Phase.Completed))
            && (r == Err(BindingMismatch) <==> !held && !Knows(m, roomId, id))
            && (r == Err(NotActiveHost) <==> held && !host)
            && (r == Err(InvalidTransition) <==> held && host && m.phase !in {Running, Phase.Completed})
            && if r == Ok(true) then Ended(m, after, Phase.Completed)
               else if r == Err(NotActiveHost) then Ended(m, after, Phase.Cancelled) else after == m
  {
    hide Ended, Trimmed;
    if m.proposal.Some? {
      FinishEnds(m, Phase.Cancelled);
      FinishEnds(m, Phase.Completed);
    }
  }

  /** A failure ends a turn that is starting or running, and only one that is held under that
      id. */
  lemma FailAnswers(m: Machine, roomId: string, id: string)
    ensures var (after, r) := OnFail(m, roomId, id);
            var ends := Holds(m, roomId, id) && m.phase in {Starting, Running};
            && (r == Ok(()) <==> ends)
            && (r == Err(BindingMismatch) <==> !Holds(m, roomId, id))
            && (r == Err(InvalidTransition) <==> Holds(m, roomId, id) && !ends)
            && if ends then Ended(m, after, Phase.Failed) else after == m
  {
    hide Ended, Trimmed;
    if m.proposal.Some? { FinishEnds(m, Phase.Failed); }
  }

  /** A start that is read back ends the proposal that it names if that one is only proposed;
      it is no news when the id is known or a turn runs, and an error otherwise. */
  lemma StartedAnswers(m: Machine, roomId: string, id: string)
    ensures var (after, r) := OnStarted(m, roomId, id);
            var quiet := roomId == m.roomId && (id in m.completed || m.phase == Running);
            var ends := !quiet && Holds(m, roomId, id) && m.phase == Proposed;
            && (r == Ok(()) <==> quiet || ends)
            && (r == Err(InvalidTransition) <==> !quiet && Holds(m, roomId, id) && m.phase != Proposed)
            && (r == Err(BindingMismatch) <==> !quiet && !Holds(m, roomId, id))
            && if ends then Ended(m, after, Phase.Cancelled) else after == m
  {
    hide Ended, Trimmed;
    if m.proposal.Some? { FinishEnds(m, Phase.Cancelled); }
  }
}
