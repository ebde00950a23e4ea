/** Host handoff: each member folds offers, candidate requests, the informational
    acceptance and the authoritative MLS commit into local state (`handoff.rs`). */
module Handoff {
  import opened Basics

  const MAX_HANDOFFS := 32

  datatype Status = Available | Requested | Accepted

  datatype Candidate = Candidate(userId: string, deviceId: string, leaf: nat)

  /** `terms` stands for the fields of an offer that no transition reads or writes,
      `termsWellFormed` for the verdict of the wire validation on them. */
  datatype Offer = Offer(
    id: string, fromUserId: string, terms: string, termsWellFormed: bool, status: Status,
    candidateUserId: Option<string>, candidateDeviceId: Option<string>, candidateLeaf: Option<nat>,
    acceptedByUserId: Option<string>, acceptedAt: Option<string>)
  {
    /** The candidate, when all three of its fields are present. */
    function Choice(): Option<Candidate> {
      match (candidateUserId, candidateDeviceId, candidateLeaf)
      case (Some(user), Some(device), Some(leaf)) => Some(Candidate(user, device, leaf))
      case _ => None
    }

    function Choose(c: Candidate): Offer {
      this.(candidateUserId := Some(c.userId), candidateDeviceId := Some(c.deviceId),
            candidateLeaf := Some(c.leaf), status := Requested)
    }

    function Accept(userId: string, at: string): Offer {
      this.(status := Accepted, acceptedByUserId := Some(userId), acceptedAt := Some(at))
    }

    /** Everything but the time of acceptance, which is the last writer's. */
    function Undated(): Offer { this.(acceptedAt := None) }
  }

  datatype Request = Request(offerId: string, candidate: Candidate)

  datatype Acceptance = Acceptance(offerId: string, host: Candidate, committedEpoch: nat)

  datatype Authorization = Authorization(
    transferId: string, roomId: string, commitMessageId: string, parentEpoch: nat,
    outgoingHostUserId: string, outgoingHostDeviceId: string, next: Candidate)

  datatype MessageType = Application | Commit

  /** `ciphertext` is the decoded MLS message; None when the base64 text does not
      decode.  `hostHandoff` is the presence of the only commit effect there is. */
  datatype Envelope = Envelope(
    id: string, teamId: string, roomId: string, senderUserId: string, senderDeviceId: string,
    createdAt: string, messageType: MessageType, epochHint: nat,
    ciphertext: Option<string>, hostHandoff: bool,
    nextHostUserId: Option<string>, nextHostDeviceId: Option<string>,
    authorization: Option<Authorization>)

  // ---- Candidates in lexicographic order ----

  predicate Precedes(a: Candidate, b: Candidate) {
    || Less(a.userId, b.userId)
    || (a.userId == b.userId
        && (Less(a.deviceId, b.deviceId) || (a.deviceId == b.deviceId && a.leaf < b.leaf)))
  }

  predicate NotAfter(a: Candidate, b: Candidate) { a == b || Precedes(a, b) }

  lemma PrecedesIsTotalOrder(a: Candidate, b: Candidate, c: Candidate)
    ensures a == b || Precedes(a, b) || Precedes(b, a)
    ensures Precedes(a, b) ==> !Precedes(b, a) && a != b
    ensures Precedes(a, b) && Precedes(b, c) ==> Precedes(a, c)
  {
    LessIsTotal(a.userId, b.userId);
    LessIsTotal(a.deviceId, b.deviceId);
    if Less(a.userId, b.userId) { LessIsAsymmetric(a.userId, b.userId); }
    if Less(b.userId, a.userId) { LessIsAsymmetric(b.userId, a.userId); }
    if Less(a.deviceId, b.deviceId) { LessIsAsymmetric(a.deviceId, b.deviceId); }
    if Less(b.deviceId, a.deviceId) { LessIsAsymmetric(b.deviceId, a.deviceId); }
    if Less(a.userId, b.userId) && Less(b.userId, c.userId) { LessIsTransitive(a.userId, b.userId, c.userId); }
    if Less(a.deviceId, b.deviceId) && Less(b.deviceId, c.deviceId) {
      LessIsTransitive(a.deviceId, b.deviceId, c.deviceId);
    }
  }

  ghost predicate IsLeast(c: Candidate, all: set<Candidate>) {
    c in all && forall other :: other in all ==> NotAfter(c, other)
  }

  lemma LeastIsUnique(a: Candidate, b: Candidate, all: set<Candidate>)
    requires IsLeast(a, all) && IsLeast(b, all)
    ensures a == b
  {
    PrecedesIsTotalOrder(a, b, a);
  }

  // ---- The transitions of one offer ----

  function AfterRequest(o: Offer, c: Candidate): Offer {
    if o.status == Accepted then o
    else if o.Choice().Some? && NotAfter(o.Choice().value, c) then o
    else o.Choose(c)
  }

  predicate InformationMatches(o: Offer, a: Acceptance, sender: string) {
    && o.fromUserId == sender
    && o.status in {Requested, Accepted}
    && o.candidateUserId == Some(a.host.userId)
    && o.candidateDeviceId == Some(a.host.deviceId)
    && o.candidateLeaf == Some(a.host.leaf)
  }

  predicate CommitMatches(o: Offer, e: Envelope, auth: Authorization) {
    && o.status in {Requested, Accepted}
    && e.messageType == Commit
    && e.hostHandoff
    && o.fromUserId == auth.outgoingHostUserId
    && e.senderUserId == auth.outgoingHostUserId
    && e.senderDeviceId == auth.outgoingHostDeviceId
    && o.candidateUserId == Some(auth.next.userId)
    && o.candidateDeviceId == Some(auth.next.deviceId)
    && o.candidateLeaf == Some(auth.next.leaf)
    && e.nextHostUserId == Some(auth.next.userId)
    && e.nextHostDeviceId == Some(auth.next.deviceId)
    && e.id == auth.commitMessageId
    && e.roomId == auth.roomId
    && e.epochHint == auth.parentEpoch
  }

  // ---- The transitions of the list of offers ----

  function IndexOf(offers: seq<Offer>, id: string): (i: Option<nat>)
    ensures i.Some? ==> i.value < |offers| && offers[i.value].id == id
    ensures i.Some? ==> forall j :: 0 <= j < i.value ==> offers[j].id != id
    ensures i.None? ==> forall j :: 0 <= j < |offers| ==> offers[j].id != id
  {
    if offers == [] then None
    else if offers[0].id == id then Some(0)
    else match IndexOf(offers[1..], id) case None => None case Some(i) => Some(i + 1)
  }

  function Lookup(offers: seq<Offer>, id: string): Option<Offer> {
    match IndexOf(offers, id) case None => None case Some(i) => Some(offers[i])
  }

  /** One message, folded into the local state; the boolean is the source's answer. */
  datatype Message =
    | Offered(offer: Offer)
    | Wanted(request: Request)
    | Informed(acceptance: Acceptance, sender: string, at: string)
    | Committed(envelope: Envelope)

  function Remembered(offers: seq<Offer>, offer: Offer): seq<Offer> {
    var pushed := offers + [offer.(status := Available)];
    if IndexOf(offers, offer.id).Some? then offers
    else if |pushed| > MAX_HANDOFFS then pushed[1..]
    else pushed
  }

  function Receive(offers: seq<Offer>, m: Message): (seq<Offer>, bool) {
    match m
    case Offered(offer) => (Remembered(offers, offer), true)
    case Wanted(r) =>
      (match IndexOf(offers, r.offerId)
       case Some(i) => (offers[i := AfterRequest(offers[i], r.candidate)], offers[i].status != Accepted)
       case None => (offers, false))
    case Informed(a, sender, at) =>
      (match IndexOf(offers, a.offerId)
       case Some(i) =>
         if InformationMatches(offers[i], a, sender)
         then (offers[i := offers[i].Accept(a.host.userId, at)], true) else (offers, false)
       case None => (offers, false))
    case Committed(e) =>
      if e.authorization.None? then (offers, false)
      else
        var auth := e.authorization.value;
        match IndexOf(offers, auth.transferId)
        case Some(i) =>
          if CommitMatches(offers[i], e, auth)
          then (offers[i := offers[i].Accept(auth.next.userId, e.createdAt)], true) else (offers, false)
        case None => (offers, false)
  }

  /** `HandoffState`: the list is edited in place. */
  class HandoffState {
    var offers: seq<Offer>

    constructor ()
      ensures offers == []
    {
      offers := [];
    }

    constructor Restored(saved: seq<Offer>)
      ensures offers == saved
    {
      offers := saved;
    }

    method RememberOffer(offer: Offer)
      modifies this
      ensures offers == Receive(old(offers), Offered(offer)).0
    {
      if IndexOf(offers, offer.id).Some? {
        return;
      }
      offers := offers + [offer.(status := Available)];
      if |offers| > MAX_HANDOFFS {
        offers := offers[1..];
      }
    }

    method RequestCandidate(request: Request) returns (ok: bool)
      modifies this
      ensures (offers, ok) == Receive(old(offers), Wanted(request))
    {
      var found := IndexOf(offers, request.offerId);
      if found.None? {
        return false;
      }
      var offer := offers[found.value];
      if offer.status == Accepted {
        assert offers[found.value := offer] == offers;
        return false;
      }
      var current := offer.Choice();
      if current.Some? && NotAfter(current.value, request.candidate) {
        assert offers[found.value := offer] == offers;
        return true;
      }
      offer := offer.(candidateUserId := Some(request.candidate.userId));
      offer := offer.(candidateDeviceId := Some(request.candidate.deviceId));
      offer := offer.(candidateLeaf := Some(request.candidate.leaf));
      offer := offer.(status := Requested);
      offers := offers[found.value := offer];
      return true;
    }

    method AcceptInformational(accepted: Acceptance, senderUserId: string, createdAt: string) returns (ok: bool)
      modifies this
      ensures (offers, ok) == Receive(old(offers), Informed(accepted, senderUserId, createdAt))
    {
      var found := IndexOf(offers, accepted.offerId);
      if found.None? || !InformationMatches(offers[found.value], accepted, senderUserId) {
        return false;
      }
      var offer := offers[found.value];
      offer := offer.(status := Accepted);
      offer := offer.(acceptedByUserId := Some(accepted.host.userId));
      offer := offer.(acceptedAt := Some(createdAt));
      offers := offers[found.value := offer];
      return true;
    }

    method AcceptCommitted(envelope: Envelope) returns (ok: bool)
      modifies this
      ensures (offers, ok) == Receive(old(offers), Committed(envelope))
    {
      if envelope.authorization.None? {
        return false;
      }
      var auth := envelope.authorization.value;
      var found := IndexOf(offers, auth.transferId);
      if found.None? || !CommitMatches(offers[found.value], envelope, auth) {
        return false;
      }
      var offer := offers[found.value];
      offer := offer.(status := Accepted);
      offer := offer.(acceptedByUserId := Some(auth.next.userId));
      offer := offer.(acceptedAt := Some(envelope.createdAt));
      offers := offers[found.value := offer];
      return true;
    }
  }
}
