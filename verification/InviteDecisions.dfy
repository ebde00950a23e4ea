/** The host's decision on an admission request, and the requester's check of the answer
    (`mls.rs`, over the engine's invite admission and receipts).

    A hash of a binding stands for the binding, and a MAC names its key and text. */
module InviteDecisions {
  import opened Basics
  import opened Text
  import Outbox

  datatype Status = Approved | Denied

  datatype Phase = Request | Response

  /** `terms` stands for the nine other fields, `wellFormed` for the version and the
      bounds of all eleven. */
  datatype Binding = Binding(
    phase: Phase, status: Option<Status>, decidedAt: Option<string>,
    roomId: string, keyPackageHash: string, terms: string, wellFormed: bool)

  datatype Mac =
    | RequestMac(key: string, binding: Binding)
    | ResponseMac(key: string, binding: Binding)
    | OtherMac(text: string)

  /** A request that the host has opened. */
  datatype Opened = Opened(handle: string, binding: Binding, mac: Mac, keyPackageDecodes: bool)

  datatype Receipt = Receipt(
    binding: Binding, keyPackageHash: string, commitId: string, welcomeId: string,
    responseBinding: Binding, responseMac: Mac)

  datatype Denial = Denial(
    binding: Binding, keyPackageHash: string, responseId: string, responseBinding: Binding, responseMac: Mac)

  datatype Ledger = Ledger(
    approvals: map<string, Receipt>, denials: map<string, Denial>, outbox: Outbox.Store, verifiers: map<string, string>)

  datatype Decision = Decision(
    status: Status, responseBinding: Binding, responseMac: Mac, commitId: Option<string>, responseId: string,
    welcome: Option<string>)

  datatype InviteError = InvalidInvite | StorageUnavailable | EngineFailed

  /** What the engine makes of an approval or denial, and whether the two accesses to
      the credential store succeed. */
  datatype Fate = Fate(
    readsVerifier: bool, engineAccepts: bool, epoch: nat, commitId: string, commit: string, welcomeId: string,
    welcome: string, denialId: string, denial: string, deletesVerifier: bool)

  // ---- Bindings ----

  /** `encode_capability_binding` succeeds. */
  predicate ValidBinding(b: Binding) {
    && b.wellFormed
    && (b.phase == Request ==> b.status.None? && b.decidedAt.None?)
    && (b.phase == Response ==> b.status.Some? && b.decidedAt.Some?)
  }

  function ResponseTo(b: Binding, approve: bool, decidedAt: string): Binding {
    b.(phase := Response, status := Some(if approve then Approved else Denied), decidedAt := Some(decidedAt))
  }

  // ---- The records that a decision puts into the outbox ----

  function CommitItem(q: Opened, f: Fate): Outbox.Item {
    Outbox.Item(f.commitId, q.binding.roomId, f.epoch + 1, "add", f.commit, Some(Outbox.CommitData(f.epoch)))
  }

  function WelcomeItem(q: Opened, f: Fate): Outbox.Item {
    Outbox.Item(f.welcomeId, q.binding.roomId, f.epoch + 1, "welcome", f.welcome, Some(Outbox.OtherData))
  }

  function DenialItem(q: Opened, f: Fate): Outbox.Item {
    Outbox.Item(f.denialId, q.binding.roomId, f.epoch, "invite-denial", f.denial, Some(Outbox.OtherData))
  }

  function EnqueueBoth(s: Outbox.Store, a: Outbox.Item, b: Outbox.Item): Option<Outbox.Store> {
    match Outbox.Enqueue(s, a)
    case Err(_) => None
    case Ok(first) =>
      match Outbox.Enqueue(first, b)
      case Err(_) => None
      case Ok(second) => Some(second)
  }

  // ---- Decisions ----

  function RepeatApproval(l: Ledger, q: Opened, approve: bool): Result<Decision, InviteError>
    requires q.handle in l.approvals
  {
    var r := l.approvals[q.handle];
    if !approve || r.binding != q.binding || r.keyPackageHash != q.binding.keyPackageHash then Err(InvalidInvite)
    else
      match Outbox.Find(l.outbox.entries, r.welcomeId)
      case None => Err(InvalidInvite)
      case Some(e) =>
        Ok(Decision(Approved, r.responseBinding, r.responseMac, Some(r.commitId), r.welcomeId, Some(e.item.payload)))
  }

  function RepeatDenial(l: Ledger, q: Opened, approve: bool): Result<Decision, InviteError>
    requires q.handle in l.denials
  {
    var d := l.denials[q.handle];
    if approve || d.binding != q.binding || d.keyPackageHash != q.binding.keyPackageHash then Err(InvalidInvite)
    else Ok(Decision(Denied, d.responseBinding, d.responseMac, None, d.responseId, None))
  }

  /** `add_member_for_invite`: receipt, commit and welcome are written together. */
  function Admit(l: Ledger, q: Opened, response: Binding, mac: Mac, f: Fate): (Ledger, Result<Decision, InviteError>) {
    if q.handle in l.approvals || q.handle in l.denials || !f.engineAccepts then (l, Err(EngineFailed))
    else
      match EnqueueBoth(l.outbox, CommitItem(q, f), WelcomeItem(q, f))
      case None => (l, Err(EngineFailed))
      case Some(outbox) =>
        var receipt := Receipt(q.binding, q.binding.keyPackageHash, f.commitId, f.welcomeId, response, mac);
        (l.(approvals := l.approvals[q.handle := receipt], outbox := outbox),
         Ok(Decision(Approved, response, mac, Some(f.commitId), f.welcomeId, Some(f.welcome))))
  }

  /** `deny_invite`: receipt and answer are written together. */
  function Refuse(l: Ledger, q: Opened, response: Binding, mac: Mac, f: Fate): (Ledger, Result<Decision, InviteError>) {
    if q.handle in l.approvals || q.handle in l.denials || !f.engineAccepts then (l, Err(EngineFailed))
    else
      match Outbox.Enqueue(l.outbox, DenialItem(q, f))
      case Err(_) => (l, Err(EngineFailed))
      case Ok(outbox) =>
        var denial := Denial(q.binding, q.binding.keyPackageHash, f.denialId, response, mac);
        (l.(denials := l.denials[q.handle := denial], outbox := outbox),
         Ok(Decision(Denied, response, mac, None, f.denialId, None)))
  }

  function CheckRequest(l: Ledger, q: Opened, f: Fate): Result<string, InviteError> {
    if !f.readsVerifier then Err(StorageUnavailable)
    else if q.handle !in l.verifiers then Err(InvalidInvite)
    else if q.binding.phase != Request || q.mac != RequestMac(l.verifiers[q.handle], q.binding) then Err(InvalidInvite)
    else Ok(l.verifiers[q.handle])
  }

  /** A decision where none is on record. A crash after the engine's write leaves what a
      failed deletion leaves. */
  function DecideFirst(
      l: Ledger, q: Opened, approve: bool, decidedAt: string, f: Fate): (Ledger, Result<Decision, InviteError>) {
    match CheckRequest(l, q, f)
    case Err(e) => (l, Err(e))
    case Ok(key) =>
      var response := ResponseTo(q.binding, approve, decidedAt);
      var mac := ResponseMac(key, response);
      if approve && !q.keyPackageDecodes then (l, Err(InvalidInvite))
      else
        var (written, answer) := if approve then Admit(l, q, response, mac, f) else Refuse(l, q, response, mac, f);
        if answer.Err? then (written, answer)
        else if !f.deletesVerifier then (written, Err(StorageUnavailable))
        else (written.(verifiers := written.verifiers - {q.handle}), answer)
  }

  /** `decide_invite`. */
  function Decide(
      l: Ledger, q: Opened, approve: bool, decidedAt: string, f: Fate): (Ledger, Result<Decision, InviteError>) {
    if !ValidBinding(q.binding) then (l, Err(InvalidInvite))
    else if !ValidToken(q.handle) then (l, Err(EngineFailed))
    else if q.handle in l.approvals then (l, RepeatApproval(l, q, approve))
    else if q.handle in l.denials then (l, RepeatDenial(l, q, approve))
    else DecideFirst(l, q, approve, decidedAt, f)
  }

  /** The receipts whose commit is `id` (`invite_receipt_for_commit` returns the first;
      no two receipts share a commit). */
  function ReceiptsFor(approvals: map<string, Receipt>, id: string): set<string> {
    set h | h in approvals && approvals[h].commitId == id
  }

  /** `clear_pending_commit`: the receipt of an added member leaves with its commit. */
  function Clear(l: Ledger, room: string, id: string, ok: bool): (Ledger, bool) {
    match Outbox.ClearStaleCommit(l.outbox, room, id, ok)
    case Err(_) => (l, false)
    case Ok(outbox) =>
      var commit := Outbox.Find(l.outbox.entries, id).value.item;
      var gone := if commit.kind == "add" then ReceiptsFor(l.approvals, id) else {};
      (l.(outbox := outbox, approvals := l.approvals - gone), true)
  }

  // ---- The requester's side ----

  /** `validate_response_pair`. */
  predicate ValidPair(original: Binding, response: Binding) {
    && original.phase == Request && original.status.None? && original.decidedAt.None?
    && response.phase == Response && response.status.Some? && response.decidedAt.Some?
    && original.roomId == response.roomId && original.keyPackageHash == response.keyPackageHash
    && original.terms == response.terms && original.wellFormed == response.wellFormed
    && ValidBinding(response)
  }

  /** The checks of `accept_invite_response`: the welcome to join with, or none when denied. */
  function AcceptResponse(original: Binding, key: string, response: Binding, mac: Mac, welcome: Option<string>)
    : Result<Option<string>, InviteError>
  {
    if !ValidPair(original, response) || mac != ResponseMac(key, response) then Err(InvalidInvite)
    else
      match response.status
      case Some(Approved) => if welcome.Some? then Ok(welcome) else Err(InvalidInvite)
      case Some(Denied) => if welcome.None? then Ok(None) else Err(InvalidInvite)
      case None => Err(InvalidInvite)
  }

  // ---- The service ----

  class InviteLedger {
    var approvals: map<string, Receipt>
    var denials: map<string, Denial>
    var outbox: Outbox.Store
    var verifiers: map<string, string>

    function State(): Ledger reads this { Ledger(approvals, denials, outbox, verifiers) }

    constructor ()
      ensures State() == Ledger(map[], map[], Outbox.Store([], 0, {}, {}, {}), map[])
    {
      approvals, denials, outbox, verifiers := map[], map[], Outbox.Store([], 0, {}, {}, {}), map[];
    }

    method AddMemberForInvite(
        q: Opened, response: Binding, mac: Mac, f: Fate) returns (answer: Result<Decision, InviteError>)
      modifies this`approvals, this`outbox
      ensures (State(), answer) == Admit(old(State()), q, response, mac, f)
    {
      if q.handle in approvals || q.handle in denials || !f.engineAccepts { return Err(EngineFailed); }
      var staged := EnqueueBoth(outbox, CommitItem(q, f), WelcomeItem(q, f));
      if staged.None? { return Err(EngineFailed); }
      approvals := approvals[q.handle :=
        Receipt(q.binding, q.binding.keyPackageHash, f.commitId, f.welcomeId, response, mac)];
      outbox := staged.value;
      return Ok(Decision(Approved, response, mac, Some(f.commitId), f.welcomeId, Some(f.welcome)));
    }

    method DenyInvite(q: Opened, response: Binding, mac: Mac, f: Fate) returns (answer: Result<Decision, InviteError>)
      modifies this`denials, this`outbox
      ensures (State(), answer) == Refuse(old(State()), q, response, mac, f)
    {
      if q.handle in approvals || q.handle in denials || !f.engineAccepts { return Err(EngineFailed); }
      var staged := Outbox.Enqueue(outbox, DenialItem(q, f));
      if staged.Err? { return Err(EngineFailed); }
      denials := denials[q.handle := Denial(q.binding, q.binding.keyPackageHash, f.denialId, response, mac)];
      outbox := staged.value;
      return Ok(Decision(Denied, response, mac, None, f.denialId, None));
    }

    method DecideInvite(
        q: Opened, approve: bool, decidedAt: string, f: Fate) returns (answer: Result<Decision, InviteError>)
      modifies this
      ensures (State(), answer) == Decide(old(State()), q, approve, decidedAt, f)
    {
      if !ValidBinding(q.binding) { return Err(InvalidInvite); }
      if !ValidToken(q.handle) { return Err(EngineFailed); }
      if q.handle in approvals { return RepeatApproval(State(), q, approve); }
      if q.handle in denials { return RepeatDenial(State(), q, approve); }
      var checked := CheckRequest(State(), q, f);
      if checked.Err? { return Err(checked.error); }
      var response := ResponseTo(q.binding, approve, decidedAt);
      var mac := ResponseMac(checked.value, response);
      if approve {
        if !q.keyPackageDecodes { return Err(InvalidInvite); }
        answer := AddMemberForInvite(q, response, mac, f);
      } else {
        answer := DenyInvite(q, response, mac, f);
      }
      if answer.Ok? {
        if !f.deletesVerifier { return Err(StorageUnavailable); }
        verifiers := verifiers - {q.handle};
      }
    }

    /** `has_invite_decision`: after a yes no call for the handle changes anything, so its key
        package need not be consumed; after a no a call that is answered makes the decision. */
    method HasInviteDecision(handle: string) returns (found: bool)
      ensures found ==> forall q: Opened, approve, decidedAt, f :: q.handle == handle ==>
                Decide(State(), q, approve, decidedAt, f).0 == State()
      ensures !found ==> forall q: Opened, approve, decidedAt, f :: q.handle == handle ==>
                var (after, answer) := Decide(State(), q, approve, decidedAt, f);
                answer.Ok? ==> handle in (if approve then after.approvals.Keys else after.denials.Keys)
    {
      hide ValidBinding, ValidToken, RepeatApproval, RepeatDenial, EnqueueBoth, Outbox.Enqueue;
      return handle in approvals || handle in denials;
    }

    method ClearPendingCommit(room: string, id: string, ok: bool) returns (done: bool)
      modifies this`approvals, this`outbox
      ensures (State(), done) == Clear(old(State()), room, id, ok)
    {
      var found := Outbox.Find(outbox.entries, id);
      var cleared := Outbox.ClearStaleCommit(outbox, room, id, ok);
      if cleared.Err? { return false; }
      outbox := cleared.value;
      if found.value.item.kind == "add" {
        approvals := approvals - ReceiptsFor(approvals, id);
      } else {
        assert approvals == approvals - {};
      }
      return true;
    }
  }

  // ---- Results about one call ----

  /** With a decision on record nothing changes, and a call succeeds exactly when it
      repeats the choice for the same request (an approval only while its welcome waits in
      the outbox); it then returns the recorded answer, whatever time it claims. */
  lemma RepeatSucceedsIff(l: Ledger, q: Opened, approve: bool, decidedAt: string, f: Fate)
    requires q.handle in l.approvals.Keys + l.denials.Keys && !(q.handle in l.approvals && q.handle in l.denials)
    ensures var (after, answer) := Decide(l, q, approve, decidedAt, f);
            && after == l
            && (answer.Ok? <==>
                 && ValidBinding(q.binding) && ValidToken(q.handle)
                 && if q.handle in l.approvals then
                      && approve && q.binding == l.approvals[q.handle].binding
                      && q.binding.keyPackageHash == l.approvals[q.handle].keyPackageHash
                      && exists e :: e in l.outbox.entries && e.item.id == l.approvals[q.handle].welcomeId
                    else
                      && !approve && q.binding == l.denials[q.handle].binding
                      && q.binding.keyPackageHash == l.denials[q.handle].keyPackageHash)
            && (answer.Ok? ==>
                 if approve then
                   var r := l.approvals[q.handle];
                   && answer.value.responseBinding == r.responseBinding && answer.value.responseMac == r.responseMac
                   && answer.value.commitId == Some(r.commitId) && answer.value.responseId == r.welcomeId
                 else
                   var d := l.denials[q.handle];
                   answer.value == Decision(Denied, d.responseBinding, d.responseMac, None, d.responseId, None))
  {
    if q.handle in l.approvals {
      var r := l.approvals[q.handle];
      var found := Outbox.Find(l.outbox.entries, r.welcomeId);
      if found.Some? { assert found.value in l.outbox.entries; }
    }
  }

  /** A first decision succeeds exactly on a well-formed request whose MAC was made with
      the verifier that the host still has, if engine and store do their part; the verifier
      is gone then, and only then. */
  lemma FirstDecisionSucceedsIff(l: Ledger, q: Opened, approve: bool, decidedAt: string, f: Fate)
    requires q.handle !in l.approvals && q.handle !in l.denials
    ensures var (after, answer) := Decide(l, q, approve, decidedAt, f);
            && (answer.Ok? <==>
                 && ValidBinding(q.binding) && q.binding.phase == Request && ValidToken(q.handle)
                 && q.handle in l.verifiers && q.mac == RequestMac(l.verifiers[q.handle], q.binding)
                 && (approve ==> q.keyPackageDecodes) && f.readsVerifier && f.engineAccepts && f.deletesVerifier
                 && if approve then EnqueueBoth(l.outbox, CommitItem(q, f), WelcomeItem(q, f)).Some?
                    else Outbox.Enqueue(l.outbox, DenialItem(q, f)).Ok?)
            && (answer.Ok? ==> after.verifiers == l.verifiers - {q.handle})
            && (answer.Err? ==> after.verifiers == l.verifiers)
  {
    hide Outbox.Enqueue, EnqueueBoth, ValidToken;
  }

  /** The answer to a request is accepted by a requester that holds the same key exactly
      when this was its own request, and it then learns the choice made. */
  lemma AcceptedByItsRequesterOnly(
      original: Binding, binding: Binding, key: string, approve: bool, decidedAt: string, welcome: string)
    requires ValidBinding(binding) && binding.phase == Request
    ensures var response := ResponseTo(binding, approve, decidedAt);
            AcceptResponse(original, key, response, ResponseMac(key, response), if approve then Some(welcome) else None)
            == if original == binding then Ok(if approve then Some(welcome) else None) else Err(InvalidInvite)
  {
  }
}
