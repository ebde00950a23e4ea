/** What the validations of the room ask of each field. */
module RoomBounds {
  import opened Basics
  import opened Text
  import opened Handoff
  import opened RoomState

  /** UTF-16 counts a character of the basic plane once and any other twice. */
  lemma {:induction false} Utf16Adds(a: string, b: string)
    ensures Utf16Length(a + b) == Utf16Length(a) + Utf16Length(b)
    decreases |a|
  {
    if a == "" {
      assert a + b == b;
    } else {
      Utf16Adds(a[1..], b);
      assert (a + b)[1..] == a[1..] + b;
    }
  }

  lemma Utf16OfOne(c: char)
    ensures Utf16Length([c]) == if c as int <= 0xFFFF then 1 else 2
  {
    assert [c][1..] == "";
  }

  /** A text is in bounds; one that is missing is not asked. */
  predicate From(low: nat, high: nat, s: Option<string>) {
    s.None? || low <= Utf16Length(s.value) <= high
  }

  lemma CandidateBounds(c: Candidate)
    ensures ValidCandidate(c) <==>
              From(1, 160, Some(c.userId)) && From(8, 160, Some(c.deviceId)) && c.leaf < 0x20_0000_0000_0000
  {
    hide Utf16Length;
  }

  lemma OfferBounds(o: Offer)
    ensures ValidOffer(o) <==>
              && o.termsWellFormed
              && From(1, 160, o.candidateUserId) && From(8, 160, o.candidateDeviceId)
              && (o.candidateLeaf.None? || o.candidateLeaf.value < 0x20_0000_0000_0000)
              && From(1, 160, o.acceptedByUserId)
  {
    hide Utf16Length;
  }

  /** A relay's id: at least three characters, and those of a token. */
  predicate RelayId(s: string) { From(3, 160, Some(s)) && forall c :: c in s ==> IsTokenChar(c) }

  lemma AuthorizationBounds(a: Authorization)
    ensures ValidAuthorization(a) <==>
              && From(1, 160, Some(a.transferId)) && RelayId(a.roomId)
              && |a.commitMessageId| == 64 && (forall c :: c in a.commitMessageId ==> c in "0123456789abcdef")
              && a.parentEpoch < 0x20_0000_0000_0000
              && From(1, 160, Some(a.outgoingHostUserId)) && From(8, 160, Some(a.outgoingHostDeviceId))
              && ValidCandidate(a.next)
  {
    hide Utf16Length, ValidCandidate, IsTokenChar;
    forall c: char ensures c in "0123456789abcdef" <==> '0' <= c <= '9' || 'a' <= c <= 'f' {
      SmallHexTells(c);
    }
    if forall c :: c in a.commitMessageId ==> '0' <= c <= '9' || 'a' <= c <= 'f' {
      assert forall i :: 0 <= i < |a.commitMessageId| ==> a.commitMessageId[i] in a.commitMessageId;
    }
    assert forall i :: 0 <= i < |a.roomId| ==> a.roomId[i] in a.roomId;
  }

  lemma SmallHexTells(c: char)
    ensures c in "0123456789abcdef" <==> '0' <= c <= '9' || 'a' <= c <= 'f'
  {
    var all := "0123456789abcdef";
    if '0' <= c <= '9' { assert all[c as int - '0' as int] == c; }
    if 'a' <= c <= 'f' { assert all[10 + (c as int - 'a' as int)] == c; }
  }

  /** An envelope says that it hands the host over, and to whom and why, all or nothing, and
      only as a commit. */
  lemma EnvelopeBounds(e: Envelope)
    ensures ValidEnvelope(e) <==>
              && From(1, 160, Some(e.id)) && RelayId(e.teamId) && RelayId(e.roomId)
              && From(1, 160, Some(e.senderUserId)) && From(8, 160, Some(e.senderDeviceId))
              && e.epochHint < 0x20_0000_0000_0000 && e.ciphertext.Some?
              && From(1, 160, e.nextHostUserId) && From(8, 160, e.nextHostDeviceId)
              && (|| (!e.hostHandoff && e.nextHostUserId.None? && e.nextHostDeviceId.None? && e.authorization.None?)
                  || (e.hostHandoff && e.messageType == Commit && e.nextHostUserId.Some? && e.nextHostDeviceId.Some?
                      && e.authorization.Some? && ValidAuthorization(e.authorization.value)))
  {
    hide Utf16Length, ValidAuthorization, IsTokenChar;
    assert forall i :: 0 <= i < |e.roomId| ==> e.roomId[i] in e.roomId;
    assert forall i :: 0 <= i < |e.teamId| ==> e.teamId[i] in e.teamId;
  }

  lemma RecordBounds(r: Recovery, scope: Scope)
    ensures ValidRecovery(r, scope) <==>
              && r.scope == scope && scope.version == 1
              && |r.processed| <= 1_024 && |r.history| <= 100 && |r.offers| <= 32
              && (forall id :: id in r.processed ==> From(1, 160, Some(id)))
              && (forall i, j :: 0 <= i < j < |r.processed| ==> r.processed[i] != r.processed[j])
              && From(1, 160, r.pending)
              && (r.codexThreadId.Some? ==> 1 <= |r.codexThreadId.value| <= 512 && NoControl(r.codexThreadId.value))
              && (forall o :: o in r.offers ==> ValidOffer(o)) && (forall e :: e in r.history ==> ValidHistoryEvent(e))
  {
    hide Utf16Length, ValidOffer, ValidHistoryEvent, NoControl;
    assert forall i :: 0 <= i < |r.processed| ==> r.processed[i] in r.processed;
    assert forall i :: 0 <= i < |r.offers| ==> r.offers[i] in r.offers;
    assert forall i :: 0 <= i < |r.history| ==> r.history[i] in r.history;
  }

  lemma EventBounds(e: Event)
    ensures ValidHistoryEvent(e) <==>
              match e
              case Presence(_, _, _, _) => false
              case Unsupported(kind) => 1 <= |kind| <= 128 && NoControl(kind)
              case HandoffOffered(offer) => ValidOffer(offer)
              case _ => e.wellFormed
  {
    hide ValidOffer;
  }
}
