/** Members that fold the same handoff messages agree. */
module HandoffAgreement {
  import opened Basics
  import opened Handoff

  function Fold(offers: seq<Offer>, messages: seq<Message>): seq<Offer> {
    if messages == [] then offers
    else Receive(Fold(offers, messages[..|messages| - 1]), messages[|messages| - 1]).0
  }

  // ---- Every reachable state is well formed ----

  ghost predicate WellFormed(offers: seq<Offer>) {
    && |offers| <= MAX_HANDOFFS
    && (forall i, j :: 0 <= i < j < |offers| ==> offers[i].id != offers[j].id)
    && (forall i :: 0 <= i < |offers| && offers[i].status == Accepted ==> Settled(offers[i]))
  }

  /** An accepted offer names one complete candidate, and that candidate accepted. */
  predicate Settled(o: Offer) {
    o.Choice().Some? && o.acceptedByUserId == o.candidateUserId
  }

  lemma StepKeepsWellFormed(offers: seq<Offer>, m: Message)
    requires WellFormed(offers)
    ensures WellFormed(Receive(offers, m).0)
  {
    if m.Offered? {
      RememberKeepsWellFormed(offers, m.offer);
    } else {
      var after := Receive(offers, m).0;
      forall i | 0 <= i < |offers| ensures after[i].id == offers[i].id {}
    }
  }

  lemma RememberKeepsWellFormed(offers: seq<Offer>, offer: Offer)
    requires WellFormed(offers)
    ensures WellFormed(Remembered(offers, offer))
  {
  }

  lemma {:induction false} EveryRunIsWellFormed(messages: seq<Message>)
    ensures WellFormed(Fold([], messages))
  {
    if messages != [] {
      EveryRunIsWellFormed(messages[..|messages| - 1]);
      StepKeepsWellFormed(Fold([], messages[..|messages| - 1]), messages[|messages| - 1]);
    }
  }

  // ---- Candidate choice converges ----

  predicate OnlyRequests(messages: seq<Message>) {
    forall i :: 0 <= i < |messages| ==> messages[i].Wanted?
  }

  /** The candidates requested for one offer. */
  function CandidatesFor(id: string, messages: seq<Message>): set<Candidate> {
    set i | 0 <= i < |messages| && messages[i].Wanted? && messages[i].request.offerId == id
      :: messages[i].request.candidate
  }

  lemma CandidatesForAppend(id: string, messages: seq<Message>, m: Message)
    ensures CandidatesFor(id, messages + [m]) ==
              CandidatesFor(id, messages)
              + if m.Wanted? && m.request.offerId == id then {m.request.candidate} else {}
  {
    var all := messages + [m];
    forall c | c in CandidatesFor(id, messages)
      ensures c in CandidatesFor(id, all)
    {
      var i :| 0 <= i < |messages| && messages[i].Wanted? && messages[i].request.offerId == id
               && messages[i].request.candidate == c;
      assert all[i] == messages[i];
    }
    assert all[|messages|] == m;
  }

  /** What requests from the candidates `all` make of an offer that has none yet. */
  ghost predicate Chosen(before: Offer, after: Offer, all: set<Candidate>) {
    if all == {} then after == before
    else exists least :: IsLeast(least, all) && after == before.Choose(least)
  }

  predicate Open(o: Offer) { o.status != Accepted && o.Choice().None? }

  lemma RequestKeepsChosen(before: Offer, after: Offer, all: set<Candidate>, c: Candidate)
    requires Open(before) && Chosen(before, after, all)
    ensures Chosen(before, AfterRequest(after, c), all + {c})
  {
    if all == {} {
      assert IsLeast(c, {c}) && all + {c} == {c};
    } else {
      var least :| IsLeast(least, all) && after == before.Choose(least);
      PrecedesIsTotalOrder(least, c, c);
      if NotAfter(least, c) {
        assert IsLeast(least, all + {c});
      } else {
        forall other | other in all ensures NotAfter(c, other) {
          PrecedesIsTotalOrder(c, least, other);
        }
        assert IsLeast(c, all + {c});
        assert after.Choose(c) == before.Choose(c);
      }
    }
  }

  /** Requests for any offers, in any order and any number of times: an offer that
      was open ends with the least candidate requested for it, and nothing else about
      it, and no other offer, depends on them. */
  lemma {:induction false} RequestsChooseTheLeast(offers: seq<Offer>, messages: seq<Message>, i: nat)
    requires WellFormed(offers) && OnlyRequests(messages)
    requires i < |offers| && Open(offers[i])
    ensures |Fold(offers, messages)| == |offers|
    ensures Chosen(offers[i], Fold(offers, messages)[i], CandidatesFor(offers[i].id, messages))
  {
    if messages != [] {
      var front, m := messages[..|messages| - 1], messages[|messages| - 1];
      RequestsChooseTheLeast(offers, front, i);
      assert messages == front + [m];
      CandidatesForAppend(offers[i].id, front, m);
      var mid := Fold(offers, front);
      FoldKeepsIds(offers, front);
      if m.request.offerId == offers[i].id {
        assert IndexOf(mid, m.request.offerId) == Some(i);
        RequestKeepsChosen(offers[i], mid[i], CandidatesFor(offers[i].id, front), m.request.candidate);
      }
    }
  }

  /** Candidates are compared by user, then by device, then by leaf. */
  lemma LexicographicOrder(a: Candidate, b: Candidate)
    ensures Less(a.userId, b.userId) ==> Precedes(a, b)
    ensures a.userId == b.userId && Less(a.deviceId, b.deviceId) ==> Precedes(a, b)
    ensures a.userId == b.userId && a.deviceId == b.deviceId ==> (Precedes(a, b) <==> a.leaf < b.leaf)
    ensures Precedes(a, b) ==> !Precedes(b, a)
  {
    PrecedesIsTotalOrder(a, b, a);
  }

  /** A request is answered yes exactly when its offer is held and not yet accepted, whoever
      asks and whether or not the choice changes. */
  lemma RequestIsAnsweredIff(offers: seq<Offer>, r: Request)
    ensures Receive(offers, Wanted(r)).1 <==>
              Lookup(offers, r.offerId).Some? && Lookup(offers, r.offerId).value.status != Accepted
  {
  }

  /** So among requests in any order and number every one for an open offer is answered yes. */
  lemma EveryRequestIsAnswered(offers: seq<Offer>, messages: seq<Message>, i: nat, k: nat)
    requires WellFormed(offers) && OnlyRequests(messages) && i < |offers| && Open(offers[i])
    requires k < |messages| && messages[k].request.offerId == offers[i].id
    ensures Receive(Fold(offers, messages[..k]), messages[k]).1
  {
    hide Receive, Fold;
    var front := messages[..k];
    RequestsChooseTheLeast(offers, front, i);
    FoldKeepsIds(offers, front);
    var mid := Fold(offers, front);
    RequestIsAnsweredIff(mid, messages[k].request);
    assert mid[i].status != Accepted by { ChosenIsOpen(offers[i], mid[i], CandidatesFor(offers[i].id, front)); }
    assert IndexOf(mid, offers[i].id) == Some(i);
  }

  lemma ChosenIsOpen(before: Offer, after: Offer, all: set<Candidate>)
    requires Open(before) && Chosen(before, after, all)
    ensures after.status != Accepted
  {
  }

  /** Offers are kept in the order of their arrival, the last 32 of them; one that is held
      already is left as it is, and a new one comes in open whatever status it claims. */
  lemma OfferIsKept(offers: seq<Offer>, o: Offer)
    requires |offers| <= 32
    ensures Receive(offers, Offered(o)) ==
              (if exists i :: 0 <= i < |offers| && offers[i].id == o.id then offers
               else Last(32, offers + [o.(status := Available)]), true)
  {
  }

  lemma {:induction false} FoldKeepsIds(offers: seq<Offer>, messages: seq<Message>)
    requires OnlyRequests(messages) || OnlyAcceptance(messages)
    ensures |Fold(offers, messages)| == |offers|
    ensures forall j :: 0 <= j < |offers| ==> Fold(offers, messages)[j].id == offers[j].id
  {
    if messages != [] {
      FoldKeepsIds(offers, messages[..|messages| - 1]);
    }
  }

  lemma ChosenIsUnique(before: Offer, a: Offer, b: Offer, all: set<Candidate>)
    requires Chosen(before, a, all) && Chosen(before, b, all)
    ensures a == b
  {
    if all != {} {
      var c :| IsLeast(c, all) && a == before.Choose(c);
      var d :| IsLeast(d, all) && b == before.Choose(d);
      LeastIsUnique(c, d, all);
    }
  }

  /** What an open offer becomes depends on the offer and the set of its requests only. */
  lemma SameRequestsSameOffer(
      left: seq<Offer>, right: seq<Offer>, i: nat, j: nat, messages: seq<Message>, messages': seq<Message>)
    requires WellFormed(left) && WellFormed(right) && OnlyRequests(messages) && OnlyRequests(messages')
    requires i < |left| && j < |right| && left[i] == right[j] && Open(left[i])
    requires CandidatesFor(left[i].id, messages) == CandidatesFor(left[i].id, messages')
    ensures |Fold(left, messages)| == |left| && |Fold(right, messages')| == |right|
    ensures Fold(left, messages)[i] == Fold(right, messages')[j]
  {
    RequestsChooseTheLeast(left, messages, i);
    RequestsChooseTheLeast(right, messages', j);
    ChosenIsUnique(left[i], Fold(left, messages)[i], Fold(right, messages')[j], CandidatesFor(left[i].id, messages));
  }

  /** Two members that saw the same set of requests are in the same state. */
  lemma RequestsConverge(offers: seq<Offer>, left: seq<Message>, right: seq<Message>)
    requires WellFormed(offers) && OnlyRequests(left) && OnlyRequests(right)
    requires forall i :: 0 <= i < |offers| ==> Open(offers[i])
    requires ToSet(left) == ToSet(right)
    ensures Fold(offers, left) == Fold(offers, right)
  {
    FoldKeepsIds(offers, left);
    FoldKeepsIds(offers, right);
    forall i | 0 <= i < |offers|
      ensures Fold(offers, left)[i] == Fold(offers, right)[i]
    {
      SameCandidates(offers[i].id, left, right);
      SameRequestsSameOffer(offers, offers, i, i, left, right);
    }
  }

  lemma SameCandidates(id: string, left: seq<Message>, right: seq<Message>)
    requires ToSet(left) == ToSet(right)
    ensures CandidatesFor(id, left) == CandidatesFor(id, right)
  {
    CandidatesOfSet(id, left);
    CandidatesOfSet(id, right);
  }

  lemma CandidatesOfSet(id: string, messages: seq<Message>)
    ensures CandidatesFor(id, messages) ==
              set m | m in ToSet(messages) && m.Wanted? && m.request.offerId == id :: m.request.candidate
  {
    forall m | m in ToSet(messages) && m.Wanted? && m.request.offerId == id
      ensures m.request.candidate in CandidatesFor(id, messages)
    {
      var i :| 0 <= i < |messages| && messages[i] == m;
      assert messages[i].request.candidate in CandidatesFor(id, messages);
    }
  }

  // ---- The acceptance ----

  /** The two messages with which the host announces its choice for an offer. */
  predicate AnnouncesChoice(m: Message, o: Offer, choice: Candidate) {
    match m
    case Informed(a, sender, _) => a.offerId == o.id && a.host == choice && sender == o.fromUserId
    case Committed(e) =>
      e.authorization.Some? &&
      var auth := e.authorization.value;
      && auth.transferId == o.id && auth.next == choice && auth.outgoingHostUserId == o.fromUserId
      && e.messageType == Commit && e.hostHandoff
      && e.senderUserId == auth.outgoingHostUserId && e.senderDeviceId == auth.outgoingHostDeviceId
      && e.nextHostUserId == Some(choice.userId) && e.nextHostDeviceId == Some(choice.deviceId)
      && e.id == auth.commitMessageId && e.roomId == auth.roomId && e.epochHint == auth.parentEpoch
    case _ => false
  }

  predicate OnlyAcceptance(messages: seq<Message>) {
    forall i :: 0 <= i < |messages| ==> messages[i].Informed? || messages[i].Committed?
  }

  predicate AllAnnounce(messages: seq<Message>, o: Offer, choice: Candidate) {
    forall i :: 0 <= i < |messages| ==> AnnouncesChoice(messages[i], o, choice)
  }

  /** The offer after the host's announcement: accepted by the choice at some time,
      when the choice is the member's own; untouched otherwise. */
  predicate Announced(before: Offer, after: Offer, choice: Candidate) {
    if before.Choice() == Some(choice)
    then after.Undated() == before.Accept(choice.userId, "").Undated()
    else after == before
  }

  lemma OneAnnouncement(offers: seq<Offer>, m: Message, i: nat, choice: Candidate)
    requires WellFormed(offers) && i < |offers| && offers[i].status != Available
    requires AnnouncesChoice(m, offers[i], choice)
    ensures var (after, ok) := Receive(offers, m);
            && |after| == |offers| && Announced(offers[i], after[i], choice)
            && ok == (offers[i].Choice() == Some(choice))
  {
    assert IndexOf(offers, offers[i].id) == Some(i);
  }

  function TimeOf(m: Message): string
    requires m.Informed? || m.Committed?
  {
    if m.Informed? then m.at else m.envelope.createdAt
  }

  /** The offer that a message accepts, if any: one that has a candidate, when the message is its
      host's announcement of that candidate. */
  predicate Accepts(m: Message, o: Offer) {
    o.status != Available && o.Choice().Some? && AnnouncesChoice(m, o, o.Choice().value)
  }

  /** A commit or an informational event is taken exactly when it accepts an offer that is
      held; that offer is then accepted by its candidate at the time of the message and nothing
      else changes, and otherwise nothing does. */
  lemma AcceptanceIff(offers: seq<Offer>, m: Message)
    requires WellFormed(offers) && (m.Informed? || m.Committed?)
    ensures Receive(offers, m).1 <==> exists i :: 0 <= i < |offers| && Accepts(m, offers[i])
    ensures !Receive(offers, m).1 ==> Receive(offers, m).0 == offers
    ensures forall i :: 0 <= i < |offers| && Accepts(m, offers[i]) ==>
              Receive(offers, m).0 == offers[i := offers[i].(status := Accepted,
                                                             acceptedByUserId := offers[i].candidateUserId,
                                                             acceptedAt := Some(TimeOf(m)))]
  {
    forall i | 0 <= i < |offers| && Accepts(m, offers[i])
      ensures Receive(offers, m).1 && Receive(offers, m).0 == offers[i := offers[i].(status := Accepted,
                                                   acceptedByUserId := offers[i].candidateUserId,
                                                   acceptedAt := Some(TimeOf(m)))]
    {
      AcceptsHeld(offers, m, i);
    }
    if Receive(offers, m).1 { TakenIsAccepted(offers, m); }
  }

  lemma AcceptsHeld(offers: seq<Offer>, m: Message, i: nat)
    requires WellFormed(offers) && (m.Informed? || m.Committed?) && i < |offers| && Accepts(m, offers[i])
    ensures Receive(offers, m) == (offers[i := offers[i].(status := Accepted,
                                                          acceptedByUserId := offers[i].candidateUserId,
                                                          acceptedAt := Some(TimeOf(m)))], true)
  {
    assert IndexOf(offers, offers[i].id) == Some(i);
  }

  lemma TakenIsAccepted(offers: seq<Offer>, m: Message)
    requires (m.Informed? || m.Committed?) && Receive(offers, m).1
    ensures exists i :: 0 <= i < |offers| && Accepts(m, offers[i])
  {
    var id := if m.Informed? then m.acceptance.offerId else m.envelope.authorization.value.transferId;
    var i := IndexOf(offers, id).value;
    assert Accepts(m, offers[i]);
  }

  /** An announcement is about an offer whatever its status and candidate. */
  lemma AnnouncementReads(m: Message, before: Offer, after: Offer, choice: Candidate)
    requires AnnouncesChoice(m, before, choice)
    requires before == after || Announced(before, after, choice)
    ensures AnnouncesChoice(m, after, choice)
  {
    assert before.Undated().id == before.id && before.Undated().fromUserId == before.fromUserId;
    assert after.Undated().id == after.id && after.Undated().fromUserId == after.fromUserId;
  }

  /** Commit and informational event, in either order, any positive number of times:
      a member accepts all of them or none, and which depends only on whether its own
      choice is the host's. */
  lemma {:induction false} AnnouncementsAreAllOrNothing(
      offers: seq<Offer>, messages: seq<Message>, i: nat, choice: Candidate)
    requires WellFormed(offers) && i < |offers| && offers[i].status != Available
    requires messages != [] && AllAnnounce(messages, offers[i], choice)
    ensures |Fold(offers, messages)| == |offers|
    ensures Announced(offers[i], Fold(offers, messages)[i], choice)
    ensures forall k :: 0 <= k < |messages| ==>
              (Receive(Fold(offers, messages[..k]), messages[k]).1 <==> offers[i].Choice() == Some(choice))
  {
    hide Receive, AnnouncesChoice, WellFormed;
    var last := |messages| - 1;
    var front, m := messages[..last], messages[last];
    FoldKeepsWellFormed(offers, front);
    var mid := Fold(offers, front);
    if front != [] {
      AnnouncementsAreAllOrNothing(offers, front, i, choice);
    }
    AnnouncementReads(m, offers[i], mid[i], choice);
    OneAnnouncement(mid, m, i, choice);
    forall k | 0 <= k < |messages|
      ensures Receive(Fold(offers, messages[..k]), messages[k]).1 <==> offers[i].Choice() == Some(choice)
    {
      if k < last {
        assert front[..k] == messages[..k] && front[k] == messages[k];
      }
    }
  }

  lemma {:induction false} FoldKeepsWellFormed(offers: seq<Offer>, messages: seq<Message>)
    requires WellFormed(offers)
    ensures WellFormed(Fold(offers, messages))
  {
    if messages != [] {
      FoldKeepsWellFormed(offers, messages[..|messages| - 1]);
      StepKeepsWellFormed(Fold(offers, messages[..|messages| - 1]), messages[|messages| - 1]);
    }
  }

  lemma OtherStays(offers: seq<Offer>, o: Offer, m: Message, i: nat, j: nat, choice: Candidate)
    requires WellFormed(offers) && i < |offers| && j < |offers| && i != j
    requires offers[i].id == o.id && AnnouncesChoice(m, o, choice)
    ensures var after := Receive(offers, m).0;
            |after| == |offers| && after[j] == offers[j] && after[i].id == offers[i].id
  {
    hide InformationMatches, CommitMatches;
    assert IndexOf(offers, offers[i].id) == Some(i);
  }

  lemma {:induction false} OthersStay(offers: seq<Offer>, messages: seq<Message>, i: nat, j: nat, choice: Candidate)
    requires WellFormed(offers) && i < |offers| && j < |offers| && i != j
    requires AllAnnounce(messages, offers[i], choice)
    ensures |Fold(offers, messages)| == |offers| && Fold(offers, messages)[j] == offers[j]
    ensures Fold(offers, messages)[i].id == offers[i].id
  {
    hide Receive, AnnouncesChoice, WellFormed;
    if messages != [] {
      var front, m := messages[..|messages| - 1], messages[|messages| - 1];
      OthersStay(offers, front, i, j, choice);
      FoldKeepsWellFormed(offers, front);
      OtherStays(Fold(offers, front), offers[i], m, i, j, choice);
    }
  }

  /** The offer after its requests and the host's announcements. */
  lemma AcceptedIfLeast(offers: seq<Offer>, i: nat, requests: seq<Message>, news: seq<Message>, choice: Candidate)
    requires WellFormed(offers) && i < |offers| && Open(offers[i]) && OnlyRequests(requests)
    requires CandidatesFor(offers[i].id, requests) != {}
    requires news != [] && AllAnnounce(news, offers[i], choice)
    ensures var mid := Fold(offers, requests);
            && |mid| == |offers| && AllAnnounce(news, mid[i], choice) && WellFormed(mid)
            && |Fold(mid, news)| == |offers| && Announced(mid[i], Fold(mid, news)[i], choice)
            && (Fold(mid, news)[i].status == Accepted <==> IsLeast(choice, CandidatesFor(offers[i].id, requests)))
  {
    hide CandidatesFor, IsLeast;
    var mid := Fold(offers, requests);
    var all := CandidatesFor(offers[i].id, requests);
    FoldKeepsWellFormed(offers, requests);
    RequestsChooseTheLeast(offers, requests, i);
    var least :| IsLeast(least, all) && mid[i] == offers[i].Choose(least);
    AnnouncementsAreAllOrNothing(mid, news, i, choice);
    if IsLeast(choice, all) {
      LeastIsUnique(choice, least, all);
    }
  }

  /** Agreement on an open offer that two members hold, each among offers of its own: having
      seen the same requests for it before the acceptance, whatever else they saw and in
      whatever order, and then the host's announcements in whatever order and number, they end
      equal on it apart from the time of acceptance; and they agree on every other open offer
      that both hold and have seen the same requests for. */
  lemma MembersAgree(
      ours: seq<Offer>, theirs: seq<Offer>, i: nat, j: nat, left: seq<Message>, right: seq<Message>,
      leftNews: seq<Message>, rightNews: seq<Message>, choice: Candidate)
    requires WellFormed(ours) && WellFormed(theirs)
    requires i < |ours| && j < |theirs| && ours[i] == theirs[j] && Open(ours[i])
    requires OnlyRequests(left) && OnlyRequests(right)
    requires CandidatesFor(ours[i].id, left) == CandidatesFor(ours[i].id, right) != {}
    requires leftNews != [] && AllAnnounce(leftNews, ours[i], choice)
    requires rightNews != [] && AllAnnounce(rightNews, ours[i], choice)
    ensures var a, b := Fold(Fold(ours, left), leftNews), Fold(Fold(theirs, right), rightNews);
            && |a| == |ours| && |b| == |theirs| && a[i].Undated() == b[j].Undated()
            && (a[i].status == Accepted <==> IsLeast(choice, CandidatesFor(ours[i].id, left)))
            && forall k, l | 0 <= k < |ours| && 0 <= l < |theirs| && k != i && l != j
                             && ours[k] == theirs[l] && Open(ours[k]) ::
                 CandidatesFor(ours[k].id, left) == CandidatesFor(ours[k].id, right) ==> a[k] == b[l]
  {
    hide WellFormed, Open, OnlyRequests, AllAnnounce, CandidatesFor, IsLeast, Fold;
    var mid, mid' := Fold(ours, left), Fold(theirs, right);
    SameRequestsSameOffer(ours, theirs, i, j, left, right);
    AcceptedIfLeast(ours, i, left, leftNews, choice);
    AcceptedIfLeast(theirs, j, right, rightNews, choice);
    forall k, l | 0 <= k < |ours| && 0 <= l < |theirs| && k != i && l != j && ours[k] == theirs[l] && Open(ours[k])
      && CandidatesFor(ours[k].id, left) == CandidatesFor(ours[k].id, right)
      ensures Fold(mid, leftNews)[k] == Fold(mid', rightNews)[l]
    {
      SameRequestsSameOffer(ours, theirs, k, l, left, right);
      OthersStay(mid, leftNews, i, k, choice);
      OthersStay(mid', rightNews, j, l, choice);
    }
  }

  /** Where agreement ends: the host chose among the requests `seen`; a member that
      had also received `late` before the commit accepts it exactly when no late
      candidate precedes the host's choice. */
  lemma LateRequestsRejectIff(offers: seq<Offer>, seen: seq<Message>, late: seq<Message>, m: Message,
                              i: nat, choice: Candidate)
    requires WellFormed(offers) && i < |offers| && Open(offers[i])
    requires OnlyRequests(seen) && OnlyRequests(late)
    requires IsLeast(choice, CandidatesFor(offers[i].id, seen))
    requires AnnouncesChoice(m, offers[i], choice)
    ensures Receive(Fold(offers, seen + late), m).1 <==>
              forall c :: c in CandidatesFor(offers[i].id, late) ==> !Precedes(c, choice)
  {
    var id, all := offers[i].id, seen + late;
    var mid := Fold(offers, all);
    CandidatesForJoin(id, seen, late);
    FoldKeepsIds(offers, all);
    FoldKeepsWellFormed(offers, all);
    RequestsChooseTheLeast(offers, all, i);
    var least :| IsLeast(least, CandidatesFor(id, all)) && mid[i] == offers[i].Choose(least);
    OneAnnouncement(mid, m, i, choice);
    if least == choice {
      forall c | c in CandidatesFor(id, late) ensures !Precedes(c, choice) {
        PrecedesIsTotalOrder(c, choice, c);
      }
    } else {
      PrecedesIsTotalOrder(least, choice, least);
      assert NotAfter(least, choice);
      assert least in CandidatesFor(id, late);
    }
  }

  lemma {:induction false} CandidatesForJoin(id: string, a: seq<Message>, b: seq<Message>)
    ensures CandidatesFor(id, a + b) == CandidatesFor(id, a) + CandidatesFor(id, b)
    decreases |b|
  {
    if b == [] {
      assert a + b == a;
    } else {
      var front, m := b[..|b| - 1], b[|b| - 1];
      CandidatesForJoin(id, a, front);
      assert a + b == (a + front) + [m] && b == front + [m];
      CandidatesForAppend(id, a + front, m);
      CandidatesForAppend(id, front, m);
    }
  }

  // ---- Accepted is final ----

  /** Whatever arrives, an accepted offer that is still retained keeps its candidate
      and its acceptor, and stays accepted. */
  lemma AcceptedIsFinal(offers: seq<Offer>, m: Message, i: nat, j: nat)
    requires WellFormed(offers) && i < |offers| && offers[i].status == Accepted
    requires j < |Receive(offers, m).0| && Receive(offers, m).0[j].id == offers[i].id
    ensures Receive(offers, m).0[j].Undated() == offers[i].Undated()
  {
    var after := Receive(offers, m).0;
    if m.Offered? && IndexOf(offers, m.offer.id).Some? {
      assert i == j;
    }
  }

  /** ... over any run during which it stays retained. */
  lemma {:induction false} AcceptedStaysFinal(offers: seq<Offer>, messages: seq<Message>, id: string)
    requires WellFormed(offers)
    requires Lookup(offers, id).Some? && Lookup(offers, id).value.status == Accepted
    requires forall k :: 0 <= k <= |messages| ==> Lookup(Fold(offers, messages[..k]), id).Some?
    ensures Lookup(Fold(offers, messages), id).Some?
    ensures Lookup(Fold(offers, messages), id).value.Undated() == Lookup(offers, id).value.Undated()
  {
    if messages == [] {
    } else {
      var last := |messages| - 1;
      var front := messages[..last];
      forall k | 0 <= k <= |front| ensures Lookup(Fold(offers, front[..k]), id).Some? {
        assert front[..k] == messages[..k];
      }
      AcceptedStaysFinal(offers, front, id);
      FoldKeepsWellFormed(offers, front);
      assert messages[..last + 1] == messages;
      var mid, after := Fold(offers, front), Fold(offers, messages);
      AcceptedIsFinal(mid, messages[last], IndexOf(mid, id).value, IndexOf(after, id).value);
    }
  }
}
