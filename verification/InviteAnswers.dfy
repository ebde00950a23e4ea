/** What a call about an invite answers and writes, in full. */
module InviteAnswers {
  import opened Basics
  import opened Text
  import opened InviteDecisions
  import Outbox
  import OutboxAnswers

  // ---- Bindings ----

  /** A binding can be encoded when its fields are in bounds and its phase, status and time
      belong together: a request has neither status nor time, a response has both. */
  lemma BindingIff(b: Binding)
    ensures ValidBinding(b) <==>
              && b.wellFormed
              && (|| (b.phase == Request && b.status == None && b.decidedAt == None)
                  || (b.phase == Response && b.status.Some? && b.decidedAt.Some?))
  {
  }

  /** A response belongs to a request exactly when it is that request, answered. */
  lemma PairIff(original: Binding, response: Binding)
    ensures ValidPair(original, response) <==>
              && ValidBinding(original) && original.phase == Request
              && exists approve, at :: response == ResponseTo(original, approve, at)
  {
    if ValidPair(original, response) {
      var approve := response.status == Some(Approved);
      assert response.status == Some(if approve then Approved else Denied) by {
        match response.status.value { case Approved => case Denied => }
      }
      assert response == ResponseTo(original, approve, response.decidedAt.value);
    }
  }

  /** The requester takes an answer exactly when it belongs to its request and bears the MAC of
      its key, with a welcome if it approves and without one if it denies. */
  lemma AcceptIff(original: Binding, key: string, response: Binding, mac: Mac, welcome: Option<string>)
    ensures var r := AcceptResponse(original, key, response, mac, welcome);
            && (r.Ok? <==>
                 && ValidPair(original, response) && mac == ResponseMac(key, response)
                 && (response.status == Some(Approved) <==> welcome.Some?))
            && (r.Ok? ==> r.value == welcome)
            && (r.Err? ==> r.error == InvalidInvite)
  {
  }

  // ---- Decisions ----

  /** A request that its handle's verifier vouches for. */
  predicate Vouched(l: Ledger, q: Opened) {
    && ValidBinding(q.binding) && q.binding.phase == Request
    && q.handle in l.verifiers && q.mac == RequestMac(l.verifiers[q.handle], q.binding)
  }

  /** The engine takes the decision: it accepts, and the ids are new to the outbox. */
  ghost predicate Writable(l: Ledger, approve: bool, f: Fate) {
    && f.engineAccepts
    && if approve then f.commitId != f.welcomeId && !Taken(l, f.commitId) && !Taken(l, f.welcomeId)
       else !Taken(l, f.denialId)
  }

  ghost predicate Taken(l: Ledger, id: string) {
    exists x :: x in l.outbox.entries && x.item.id == id
  }

  lemma BothEnqueued(s: Outbox.Store, a: Outbox.Item, b: Outbox.Item)
    ensures var free := a.id != b.id && (forall x :: x in s.entries ==> x.item.id != a.id && x.item.id != b.id);
            EnqueueBoth(s, a, b) ==
              if !free then None
              else Some(Outbox.Store(s.entries + [Outbox.Entry(a, s.issued), Outbox.Entry(b, s.issued + 1)],
                                     s.issued + 2, s.published, s.expired, s.cleared))
  {
    OutboxAnswers.EnqueueIff(s, a);
    var first := Outbox.Enqueue(s, a);
    if first.Ok? {
      OutboxAnswers.EnqueueIff(first.value, b);
      assert s.entries + [Outbox.Entry(a, s.issued)] + [Outbox.Entry(b, s.issued + 1)]
             == s.entries + [Outbox.Entry(a, s.issued), Outbox.Entry(b, s.issued + 1)];
      assert Outbox.Entry(a, s.issued) in first.value.entries;
    }
  }

  /** What the records of a decision hold: the commit and the welcome of the next epoch, or the
      denial of the present one, all in the room of the request. */
  lemma ItemsOfDecision(q: Opened, f: Fate)
    ensures CommitItem(q, f) == Outbox.Item(f.commitId, q.binding.roomId, f.epoch + 1, "add", f.commit,
                                            Some(Outbox.CommitData(f.epoch)))
    ensures WelcomeItem(q, f) == Outbox.Item(f.welcomeId, q.binding.roomId, f.epoch + 1, "welcome", f.welcome,
                                             Some(Outbox.OtherData))
    ensures DenialItem(q, f) == Outbox.Item(f.denialId, q.binding.roomId, f.epoch, "invite-denial", f.denial,
                                            Some(Outbox.OtherData))
  {
  }

  /** A first decision is written exactly for a vouched request that the engine takes, whether
      or not the call is answered; what it writes is the receipt and the records of that choice,
      signed for this request at this time with the handle's key. */
  lemma FirstDecisionWritesIff(l: Ledger, q: Opened, approve: bool, decidedAt: string, f: Fate)
    requires q.handle !in l.approvals && q.handle !in l.denials
    ensures var (after, answer) := Decide(l, q, approve, decidedAt, f);
            var written := ValidToken(q.handle) && Vouched(l, q) && f.readsVerifier
                           && (approve ==> q.keyPackageDecodes) && Writable(l, approve, f);
            var response := q.binding.(phase := Response, status := Some(if approve then Approved else Denied),
                                       decidedAt := Some(decidedAt));
            if !written then after == l && answer.Err?
            else
              var mac := ResponseMac(l.verifiers[q.handle], response);
              && after.verifiers == (if f.deletesVerifier then l.verifiers - {q.handle} else l.verifiers)
              && (if approve then
                    && after.approvals == l.approvals[
                         q.handle := Receipt(q.binding, q.binding.keyPackageHash, f.commitId, f.welcomeId,
                                             response, mac)]
                    && after.denials == l.denials
                    && after.outbox.entries == l.outbox.entries + [Outbox.Entry(CommitItem(q, f), l.outbox.issued),
                                                                   Outbox.Entry(WelcomeItem(q, f), l.outbox.issued + 1)]
                  else
                    && after.denials == l.denials[q.handle := Denial(q.binding, q.binding.keyPackageHash, f.denialId,
                                                                     response, mac)]
                    && after.approvals == l.approvals
                    && after.outbox.entries == l.outbox.entries + [Outbox.Entry(DenialItem(q, f), l.outbox.issued)])
              && answer == (
                   if !f.deletesVerifier then Err(StorageUnavailable)
                   else if approve
                   then Ok(Decision(Approved, response, mac, Some(f.commitId), f.welcomeId, Some(f.welcome)))
                   else Ok(Decision(Denied, response, mac, None, f.denialId, None)))
  {
    hide ValidToken, EnqueueBoth, Outbox.Enqueue;
    BothEnqueued(l.outbox, CommitItem(q, f), WelcomeItem(q, f));
    OutboxAnswers.EnqueueIff(l.outbox, DenialItem(q, f));
  }

  /** The engine itself takes no decision on a handle that has one. */
  lemma EngineRefusesDecided(l: Ledger, q: Opened, response: Binding, mac: Mac, f: Fate)
    requires q.handle in l.approvals || q.handle in l.denials
    ensures Admit(l, q, response, mac, f) == (l, Err(EngineFailed)) == Refuse(l, q, response, mac, f)
  {
  }

  /** Why a call is refused: the store, when the verifier cannot be read or not be deleted; the
      engine, for a handle that is no token, or when it does not take the decision; and for
      everything else the invite is invalid. */
  lemma RefusalTells(l: Ledger, q: Opened, approve: bool, decidedAt: string, f: Fate)
    ensures var r := Decide(l, q, approve, decidedAt, f).1;
            var first := q.handle !in l.approvals && q.handle !in l.denials;
            var proper := ValidBinding(q.binding) && ValidToken(q.handle) && first && f.readsVerifier && Vouched(l, q)
                          && (approve ==> q.keyPackageDecodes);
            && (r == Err(StorageUnavailable) <==>
                 || (ValidBinding(q.binding) && ValidToken(q.handle) && first && !f.readsVerifier)
                 || (proper && Writable(l, approve, f) && !f.deletesVerifier))
            && (r == Err(EngineFailed) <==>
                 || (ValidBinding(q.binding) && !ValidToken(q.handle))
                 || (proper && !Writable(l, approve, f)))
  {
    hide ValidToken, EnqueueBoth, Outbox.Enqueue;
    BothEnqueued(l.outbox, CommitItem(q, f), WelcomeItem(q, f));
    OutboxAnswers.EnqueueIff(l.outbox, DenialItem(q, f));
  }

  /** Clearing a commit takes its receipt along exactly when it added a member. */
  lemma ClearTells(l: Ledger, room: string, id: string, ok: bool)
    ensures var (after, done) := Clear(l, room, id, ok);
            var cleared := Outbox.ClearStaleCommit(l.outbox, room, id, ok);
            && (done <==> cleared.Ok?)
            && after.denials == l.denials && after.verifiers == l.verifiers
            && after.outbox == (if done then cleared.value else l.outbox)
            && forall h :: h in after.approvals <==>
                 h in l.approvals && !(done && l.approvals[h].commitId == id
                                       && Outbox.Find(l.outbox.entries, id).value.item.kind == "add")
  {
    hide Outbox.LeavesWith, Outbox.Without, Outbox.TicketsOf;
  }
}
