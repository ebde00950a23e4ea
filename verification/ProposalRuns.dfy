/** What the proposal machine promises over every sequence of commands. */
module ProposalRuns {
  import opened Basics
  import opened Proposals

  datatype Command =
    | Observe(p: Proposal, now: int)
    | Approve(roomId: string, id: string, now: int, activeHost: bool)
    | Start(roomId: string, id: string, activeHost: bool)
    | Cancel(roomId: string, id: string)
    | Complete(roomId: string, id: string, activeHost: bool)
    | Fail(roomId: string, id: string)
    | ObserveStarted(roomId: string, id: string)

  ghost function Apply(m: Machine, c: Command): Machine {
    match c
    case Observe(p, now) => OnObserve(m, p, now).0
    case Approve(roomId, id, now, activeHost) => OnApprove(m, roomId, id, now, activeHost).0
    case Start(roomId, id, activeHost) => OnStart(m, roomId, id, activeHost).0
    case Cancel(roomId, id) => OnCancel(m, roomId, id).0
    case Complete(roomId, id, activeHost) => OnComplete(m, roomId, id, activeHost).0
    case Fail(roomId, id) => OnFail(m, roomId, id).0
    case ObserveStarted(roomId, id) => OnStarted(m, roomId, id).0
  }

  /** The machine before each command, and after the last. */
  datatype Run = Run(machines: seq<Machine>, commands: seq<Command>)

  ghost predicate IsRun(r: Run) {
    && |r.machines| == |r.commands| + 1
    && r.machines[0] == Machine(r.machines[0].roomId, Idle, None, {})
    && forall i :: 0 <= i < |r.commands| ==> r.machines[i + 1] == Apply(r.machines[i], r.commands[i])
  }

  // ---- What a run did ----

  ghost predicate Finishes(r: Run, i: nat)
    requires i < |r.commands| < |r.machines|
  {
    r.machines[i].proposal.Some? && r.machines[i + 1].proposal.None?
  }

  /** Every id whose proposal ended in the first `n` commands. */
  ghost function FinishedBefore(r: Run, n: nat): set<string>
    requires n <= |r.commands| < |r.machines|
  {
    if n == 0 then {}
    else FinishedBefore(r, n - 1)
         + if Finishes(r, n - 1) then {r.machines[n - 1].proposal.value.proposalId} else {}
  }

  /** Command `i` starts the turn of `id`. */
  ghost predicate Starts(r: Run, i: nat, id: string)
    requires i < |r.commands| < |r.machines|
  {
    var c := r.commands[i];
    c.Start? && c.id == id && OnStart(r.machines[i], c.roomId, c.id, c.activeHost).1.Ok?
  }

  /** Command `i` is the active host's approval of exactly `p`, in time. */
  ghost predicate Approves(r: Run, i: nat, p: Proposal)
    requires i < |r.commands| < |r.machines|
  {
    var c := r.commands[i];
    && c.Approve? && c.activeHost && c.roomId == p.roomId && c.id == p.proposalId && c.now < p.expiresAt
    && OnApprove(r.machines[i], c.roomId, c.id, c.now, c.activeHost).1 == Ok(true)
  }

  // ---- The memory of finished ids ----

  /** `t` is the 256 largest elements of `s`, or all of them when there are fewer. */
  ghost predicate IsLargest(t: set<string>, s: set<string>) {
    && t <= s
    && |t| == (if |s| <= 256 then |s| else 256)
    && forall x, y :: x in t && y in s && y !in t ==> Less(y, x)
  }

  lemma SubsetSize<T>(t: set<T>, s: set<T>)
    requires t <= s
    ensures |t| <= |s|
    ensures |t| == |s| ==> t == s
  {
    assert s == t + (s - t);
    assert |s| == |t| + |s - t|;
    if |t| == |s| { assert s - t == {}; }
  }

  lemma LargestIsUnique(t: set<string>, u: set<string>, s: set<string>)
    requires IsLargest(t, s) && IsLargest(u, s)
    ensures t == u
  {
    if x :| x in t && x !in u {
      if y :| y in u && y !in t {
        LessIsAsymmetric(x, y);
      } else {
        SubsetSize(u, t);
      }
    } else {
      SubsetSize(t, u);
    }
  }

  lemma {:induction false} TrimmedIsLargest(s: set<string>)
    ensures IsLargest(Trimmed(s), s)
    decreases |s|
  {
    if |s| > 256 {
      TrimmedIsLargest(s - {Least(s)});
    }
  }

  lemma LargestOfLargest(t: set<string>, s: set<string>, x: string)
    requires IsLargest(t, s)
    ensures IsLargest(Trimmed(t + {x}), s + {x})
  {
    hide Less, Trimmed;
    var kept := Trimmed(t + {x});
    TrimmedIsLargest(t + {x});
    SubsetSize(t, s);
    assert x in s ==> s + {x} == s;
    assert x in t ==> t + {x} == t;
    forall a, b | a in kept && b in s + {x} && b !in kept ensures Less(b, a) {
      if b !in t + {x} && a !in t {
        DroppedForNew(kept, t, x, b);
      }
    }
  }

  /** Ids below the old memory are below a newcomer that displaced one of it. */
  lemma DroppedForNew(kept: set<string>, t: set<string>, x: string, b: string)
    requires kept <= t + {x} && |kept| <= |t| && x in kept && x !in t
    requires forall a, y :: a in kept && y in t + {x} && y !in kept ==> Less(y, a)
    requires forall a :: a in t ==> Less(b, a)
    ensures Less(b, x)
  {
    if z :| z in t && z !in kept {
      LessIsTransitive(b, z, x);
    } else {
      SubsetSize(t + {x}, kept);
    }
  }

  /** After any run the machine remembers exactly the 256 largest ids ever finished. */
  lemma {:induction false} RemembersTheLargest(r: Run, n: nat)
    requires IsRun(r) && n <= |r.commands|
    ensures IsLargest(r.machines[n].completed, FinishedBefore(r, n))
  {
    hide Less, Trimmed, ValidProposal, Apply;
    if n > 0 {
      RemembersTheLargest(r, n - 1);
      var m := r.machines[n - 1];
      CompletedChange(m, r.commands[n - 1]);
      if Finishes(r, n - 1) {
        HeldIsProper(r, n - 1);
        LargestOfLargest(m.completed, FinishedBefore(r, n - 1), m.proposal.value.proposalId);
      }
    }
  }

  lemma CompletedChange(m: Machine, c: Command)
    ensures var next := Apply(m, c);
            next.completed == if m.proposal.Some? && next.proposal.None?
                              then Trimmed(m.completed + {m.proposal.value.proposalId}) else m.completed
  {
    hide Trimmed, ValidProposal;
  }

  // ---- What is held ----

  predicate Proper(m: Machine) {
    && (m.proposal.Some? <==> m.phase in {Proposed, Approved, Running})
    && m.phase != Starting
    && (m.proposal.Some? ==>
          var p := m.proposal.value;
          ValidProposal(p) && p.roomId == m.roomId && p.proposalId !in m.completed)
  }

  lemma ApplyKeepsProper(m: Machine, c: Command)
    requires Proper(m)
    ensures Proper(Apply(m, c)) && Apply(m, c).roomId == m.roomId
  {
    hide ValidProposal, Trimmed;
  }

  /** A proposal is held exactly in three phases, it is valid, of this room and not
      a remembered one; and the phase `Starting` is never seen from outside. */
  lemma {:induction false} HeldIsProper(r: Run, n: nat)
    requires IsRun(r) && n <= |r.commands|
    ensures Proper(r.machines[n]) && r.machines[n].roomId == r.machines[0].roomId
  {
    if n > 0 {
      HeldIsProper(r, n - 1);
      ApplyKeepsProper(r.machines[n - 1], r.commands[n - 1]);
    }
  }

  // ---- Where a running turn comes from ----

  /** From just after command `i` up to machine `n`, `p` is held in `phase`. */
  ghost predicate HeldSince(r: Run, i: nat, n: nat, p: Proposal, phase: Phase)
    requires i < n <= |r.commands| < |r.machines|
  {
    forall k :: i < k <= n ==> r.machines[k].proposal == Some(p) && r.machines[k].phase == phase
  }

  ghost predicate ApprovedSince(r: Run, i: nat, n: nat, p: Proposal)
    requires n <= |r.commands| < |r.machines|
  {
    i < n && Approves(r, i, p) && HeldSince(r, i, n, p, Phase.Approved)
  }

  ghost predicate StartedSince(r: Run, i: nat, n: nat, p: Proposal)
    requires n <= |r.commands| < |r.machines|
  {
    i < n && Starts(r, i, p.proposalId) && r.commands[i].activeHost && HeldSince(r, i, n, p, Running)
  }

  lemma EntersApproved(m: Machine, c: Command)
    requires Proper(m) && Apply(m, c).phase == Phase.Approved
    ensures Apply(m, c) == m || (
              && c.Approve? && c.activeHost && m.phase == Proposed
              && m.proposal == Apply(m, c).proposal && m.proposal.Some?
              && c.roomId == m.roomId && c.id == m.proposal.value.proposalId && c.now < m.proposal.value.expiresAt
              && OnApprove(m, c.roomId, c.id, c.now, c.activeHost).1 == Ok(true))
  {
    hide ValidProposal, Trimmed;
  }

  lemma EntersRunning(m: Machine, c: Command)
    requires Proper(m) && Apply(m, c).phase == Running
    ensures Apply(m, c) == m || (
              && c.Start? && c.activeHost && m.phase == Phase.Approved && m.proposal == Apply(m, c).proposal
              && OnStart(m, c.roomId, c.id, c.activeHost).1.Ok? && c.id == m.proposal.value.proposalId)
  {
    hide ValidProposal, Trimmed;
  }

  lemma {:induction false} ApprovalIsOnRecord(r: Run, n: nat) returns (i: nat)
    requires IsRun(r) && n <= |r.commands| && r.machines[n].phase == Phase.Approved
    ensures r.machines[n].proposal.Some? && ApprovedSince(r, i, n, r.machines[n].proposal.value)
  {
    hide Apply, ValidProposal, Trimmed, Less, OnApprove;
    var m := r.machines[n - 1];
    HeldIsProper(r, n - 1);
    HeldIsProper(r, n);
    EntersApproved(m, r.commands[n - 1]);
    if r.machines[n] == m {
      i := ApprovalIsOnRecord(r, n - 1);
    } else {
      i := n - 1;
    }
  }

  lemma {:induction false} StartIsOnRecord(r: Run, n: nat) returns (i: nat)
    requires IsRun(r) && n <= |r.commands| && r.machines[n].phase == Running
    ensures r.machines[n].proposal.Some? && StartedSince(r, i, n, r.machines[n].proposal.value)
  {
    hide Apply, ValidProposal, Trimmed, Less;
    var m := r.machines[n - 1];
    HeldIsProper(r, n - 1);
    HeldIsProper(r, n);
    EntersRunning(m, r.commands[n - 1]);
    if r.machines[n] == m {
      i := StartIsOnRecord(r, n - 1);
    } else {
      i := n - 1;
    }
  }

  /** Every start is preceded by the active host's approval of the very proposal that
      starts, given before that proposal's expiry, with the proposal held unchanged from
      the approval to the start. */
  lemma EveryStartWasApproved(r: Run, i: nat, id: string) returns (a: nat)
    requires IsRun(r) && i < |r.commands| && Starts(r, i, id)
    ensures r.commands[i].activeHost
    ensures r.machines[i].proposal.Some? && r.machines[i].proposal.value.proposalId == id
    ensures ApprovedSince(r, a, i, r.machines[i].proposal.value)
  {
    a := ApprovalIsOnRecord(r, i);
  }

  /** A proposal can complete only while its turn runs: a start of the same proposal is
      on record and nothing has come between. */
  lemma EveryCompletionWasStarted(r: Run, n: nat) returns (i: nat)
    requires IsRun(r) && n < |r.commands|
    requires r.machines[n + 1].phase == Completed && r.machines[n].phase != Completed
    ensures r.machines[n].proposal.Some? && StartedSince(r, i, n, r.machines[n].proposal.value)
  {
    HeldIsProper(r, n);
    i := StartIsOnRecord(r, n);
  }

  // ---- At most one start ----

  lemma {:induction false} FinishedGrows(r: Run, i: nat, j: nat)
    requires i <= j <= |r.commands| < |r.machines|
    ensures FinishedBefore(r, i) <= FinishedBefore(r, j)
  {
    if i < j { FinishedGrows(r, i, j - 1); }
  }

  ghost function LargerThan(id: string, s: set<string>): set<string> {
    set x | x in s && Less(id, x)
  }

  lemma OutsideTheLargestIff(kept: set<string>, all: set<string>, id: string)
    requires IsLargest(kept, all) && id in all
    ensures id !in kept <==> |LargerThan(id, all)| >= 256
  {
    hide Less;
    var larger := LargerThan(id, all);
    assert id !in larger by { if Less(id, id) { LessIsAsymmetric(id, id); } }
    if id in kept {
      assert larger + {id} <= kept by {
        forall x | x in larger ensures x in kept {
          if x !in kept { LessIsAsymmetric(id, x); }
        }
      }
      SubsetSize(larger + {id}, kept);
    } else {
      SubsetSize(kept, all);
      SubsetSize(kept, larger);
    }
  }

  /** A finished id is forgotten exactly when 256 larger ones have finished. */
  lemma ForgottenIff(r: Run, n: nat, id: string)
    requires IsRun(r) && n <= |r.commands| && id in FinishedBefore(r, n)
    ensures id !in r.machines[n].completed <==> |LargerThan(id, FinishedBefore(r, n))| >= 256
  {
    RemembersTheLargest(r, n);
    OutsideTheLargestIff(r.machines[n].completed, FinishedBefore(r, n), id);
  }

  /** After `i`, the proposal held there is still held or its id is among the finished. */
  lemma {:induction false} HeldOrFinished(r: Run, i: nat, n: nat)
    requires IsRun(r) && i <= n <= |r.commands| && r.machines[i].proposal.Some?
    ensures var p := r.machines[i].proposal.value;
            p.proposalId in FinishedBefore(r, n) || (
              && r.machines[n].proposal == Some(p)
              && (r.machines[i].phase == Running ==> r.machines[n].phase == Running))
  {
    hide Less, ValidProposal, Trimmed;
    if i < n {
      HeldOrFinished(r, i, n - 1);
      var m, c := r.machines[n - 1], r.commands[n - 1];
      assert r.machines[n] == Apply(m, c);
    }
  }

  /** An id that has finished can start again only after 256 larger ids have finished. */
  lemma FinishedIdRestartsLate(r: Run, j: nat, id: string)
    requires IsRun(r) && j < |r.commands| && Starts(r, j, id) && id in FinishedBefore(r, j)
    ensures |LargerThan(id, FinishedBefore(r, j))| >= 256
  {
    HeldIsProper(r, j);
    ForgottenIff(r, j, id);
  }

  /** The three commands that observe, approve and start a proposal, from a machine. */
  ghost function StartedAfresh(m: Machine, p: Proposal, now: int): (Machine, Done) {
    var observed := Apply(m, Command.Observe(p, now));
    var approved := Apply(observed, Command.Approve(p.roomId, p.proposalId, now, true));
    OnStart(approved, p.roomId, p.proposalId, true)
  }

  /** With nothing held, a finished proposal that has not expired can be brought in, approved
      and started once more exactly when 256 larger ids have finished. */
  lemma FinishedIdRestartsIff(r: Run, n: nat, p: Proposal, now: int)
    requires IsRun(r) && n <= |r.commands| && r.machines[n].proposal.None?
    requires p.roomId == r.machines[n].roomId && ValidProposal(p) && now < p.expiresAt
    requires p.proposalId in FinishedBefore(r, n)
    ensures StartedAfresh(r.machines[n], p, now).1.Ok?
            <==> |LargerThan(p.proposalId, FinishedBefore(r, n))| >= 256
  {
    hide ValidProposal, Trimmed, Less, IsRun, FinishedBefore;
    HeldIsProper(r, n);
    ForgottenIff(r, n, p.proposalId);
  }

  lemma SecondStartIsLate(r: Run, i: nat, j: nat, id: string)
    requires IsRun(r) && i < j < |r.commands| && Starts(r, i, id) && Starts(r, j, id)
    ensures |LargerThan(id, FinishedBefore(r, j))| >= 256
  {
    assert r.machines[i + 1] == Apply(r.machines[i], r.commands[i]);
    HeldOrFinished(r, i + 1, j);
    FinishedIdRestartsLate(r, j, id);
  }

  /** In a run that finishes at most 256 ids, each id is started at most once. */
  lemma StartedAtMostOnce(r: Run, i: nat, j: nat, id: string)
    requires IsRun(r) && |FinishedBefore(r, |r.commands|)| <= 256
    requires i < |r.commands| && j < |r.commands| && Starts(r, i, id) && Starts(r, j, id)
    ensures i == j
  {
    if i != j {
      var first, second := if i < j then i else j, if i < j then j else i;
      SecondStartIsLate(r, first, second, id);
      var finished := FinishedBefore(r, second);
      FinishedGrows(r, second, |r.commands|);
      SubsetSize(finished, FinishedBefore(r, |r.commands|));
      SubsetSize(LargerThan(id, finished), finished);
      assert Less(id, id) by {
        HeldOrFinished(r, first + 1, second);
        HeldIsProper(r, second);
        assert id in finished;
      }
      LessIsAsymmetric(id, id);
    }
  }

  // ---- The limit is reached ----

  ghost function Now(r: Run): Machine
    requires r.machines != []
  {
    r.machines[|r.machines| - 1]
  }

  ghost function AllFinished(r: Run): set<string>
    requires |r.commands| < |r.machines|
  {
    FinishedBefore(r, |r.commands|)
  }

  ghost predicate Continues(r: Run, later: Run) {
    r.machines <= later.machines && r.commands <= later.commands && IsRun(later)
  }

  lemma {:induction false} FinishedStays(r: Run, later: Run, n: nat)
    requires n <= |r.commands| < |r.machines| && |later.commands| < |later.machines|
    requires r.machines <= later.machines && r.commands <= later.commands
    ensures FinishedBefore(later, n) == FinishedBefore(r, n)
  {
    if n > 0 { FinishedStays(r, later, n - 1); }
  }

  /** One more command. */
  lemma Continue(r: Run, c: Command) returns (later: Run)
    requires IsRun(r)
    ensures Continues(r, later) && later.commands == r.commands + [c] && Now(later) == Apply(Now(r), c)
    ensures AllFinished(later) == AllFinished(r)
              + if Now(r).proposal.Some? && Now(later).proposal.None? then {Now(r).proposal.value.proposalId} else {}
  {
    hide Apply;
    later := Run(r.machines + [Apply(Now(r), c)], r.commands + [c]);
    FinishedStays(r, later, |r.commands|);
  }

  ghost predicate Fresh(r: Run, p: Proposal, now: int) {
    IsRun(r) && Now(r).proposal.None? && p.roomId == Now(r).roomId && ValidProposal(p) && now < p.expiresAt
  }

  /** A proposal whose id has not finished is observed and cancelled. */
  lemma FinishOne(r: Run, p: Proposal, now: int) returns (later: Run)
    requires Fresh(r, p, now) && p.proposalId !in AllFinished(r)
    ensures Continues(r, later) && Fresh(later, p, now) && AllFinished(later) == AllFinished(r) + {p.proposalId}
  {
    hide ValidProposal, Trimmed, Less, FinishedBefore;
    HeldIsProper(r, |r.commands|);
    RemembersTheLargest(r, |r.commands|);
    var observed := Continue(r, Command.Observe(p, now));
    later := Continue(observed, Command.Cancel(p.roomId, p.proposalId));
  }

  lemma {:induction false} FinishAll(r: Run, p: Proposal, ids: seq<string>, now: int) returns (later: Run)
    requires Fresh(r, p, now) && Distinct(ids)
    requires forall i :: 0 <= i < |ids| ==> BoundedIdentifier(ids[i], 160) && ids[i] !in AllFinished(r)
    ensures Continues(r, later) && Fresh(later, p, now) && AllFinished(later) == AllFinished(r) + ToSet(ids)
    decreases |ids|
  {
    hide FinishedBefore, IsRun, BoundedIdentifier;
    later := r;
    if ids != [] {
      var q := p.(proposalId := ids[0]);
      var next := FinishOne(r, q, now);
      later := FinishAll(next, p, ids[1..], now);
      assert ids == [ids[0]] + ids[1..];
    }
  }

  /** A proposal that may be approved is brought in and started. */
  lemma StartOne(r: Run, p: Proposal, now: int) returns (later: Run)
    requires Fresh(r, p, now) && p.proposalId !in Now(r).completed
    ensures Continues(r, later) && |later.commands| == |r.commands| + 3 && Starts(later, |r.commands| + 2, p.proposalId)
    ensures AllFinished(later) == AllFinished(r) && Now(later).proposal == Some(p) && Now(later).phase == Running
    ensures Now(later).roomId == Now(r).roomId && Now(later).completed == Now(r).completed
  {
    hide ValidProposal, FinishedBefore;
    HeldIsProper(r, |r.commands|);
    var observed := Continue(r, Command.Observe(p, now));
    var approved := Continue(observed, Command.Approve(p.roomId, p.proposalId, now, true));
    later := Continue(approved, Command.Start(p.roomId, p.proposalId, true));
    assert later.machines[|r.commands| + 2] == Now(approved);
  }

  lemma FirstStart(p: Proposal, now: int) returns (r: Run)
    requires ValidProposal(p) && now < p.expiresAt
    ensures Fresh(r, p, now) && |r.commands| == 4 && Starts(r, 2, p.proposalId) && AllFinished(r) == {p.proposalId}
  {
    hide ValidProposal, Trimmed, Apply, Starts;
    var empty := Run([Machine(p.roomId, Phase.Idle, None, {})], []);
    var first := StartOne(empty, p, now);
    r := Continue(first, Command.Complete(p.roomId, p.proposalId, true));
    CompletionEnds(Now(first), p);
    StartsStays(first, r, 2, p.proposalId);
  }

  /** Any valid proposal and any 256 larger ids give a run that starts the proposal twice. */
  lemma SmallIdStartsTwice(p: Proposal, larger: seq<string>, now: int) returns (r: Run, j: nat)
    requires ValidProposal(p) && now < p.expiresAt && |larger| == 256 && Distinct(larger)
    requires forall i :: 0 <= i < |larger| ==> BoundedIdentifier(larger[i], 160) && Less(p.proposalId, larger[i])
    ensures IsRun(r) && 2 < j < |r.commands| && Starts(r, 2, p.proposalId) && Starts(r, j, p.proposalId)
  {
    hide ValidProposal, Less, BoundedIdentifier, FinishedBefore, Starts, Apply;
    var first := FirstStart(p, now);
    if p.proposalId in larger { LessIsAsymmetric(p.proposalId, p.proposalId); }
    var all := FinishAll(first, p, larger, now);
    LargerFinished(all, p.proposalId, larger);
    r := StartOne(all, p, now);
    j := |all.commands| + 2;
    StartsStays(first, r, 2, p.proposalId);
  }

  lemma LargerFinished(r: Run, id: string, larger: seq<string>)
    requires IsRun(r) && AllFinished(r) == {id} + ToSet(larger)
    requires |larger| == 256 && Distinct(larger) && forall x :: x in larger ==> Less(id, x)
    ensures id !in Now(r).completed
  {
    hide Less, FinishedBefore, Apply;
    ForgottenIff(r, |r.commands|, id);
    if Less(id, id) { LessIsAsymmetric(id, id); }
    assert LargerThan(id, AllFinished(r)) == ToSet(larger);
    DistinctSize(larger);
  }

  lemma CompletionEnds(m: Machine, p: Proposal)
    requires m.proposal == Some(p) && m.phase == Running && p.roomId == m.roomId && p.proposalId !in m.completed
    ensures var after := Apply(m, Command.Complete(p.roomId, p.proposalId, true));
            after.proposal.None? && after.roomId == m.roomId
  {
  }

  lemma StartsStays(r: Run, later: Run, i: nat, id: string)
    requires i < |r.commands| < |r.machines| && Continues(r, later) && Starts(r, i, id)
    ensures Starts(later, i, id)
  {
    assert later.commands[i] == r.commands[i] && later.machines[i] == r.machines[i];
  }

  /** A remembered id is inert: no command that names it, whatever room, time or
      authority it claims, changes the machine. */
  lemma RememberedIdIsInert(r: Run, n: nat, c: Command)
    requires IsRun(r) && n <= |r.commands|
    requires var named := if c.Observe? then c.p.proposalId else c.id;
             named in r.machines[n].completed
    ensures Apply(r.machines[n], c) == r.machines[n]
  {
    HeldIsProper(r, n);
  }
}
