/** One decision for each capability handle, over every sequence of requests, repeats,
    publications, cleared commits, failures and crashes. */
module InviteRuns {
  import opened Basics
  import opened Text
  import opened InviteDecisions
  import Outbox

  /** `keys` remembers the verifier that each handle was issued with. An id of the outbox
      is a digest: `named` remembers what each id stands for. */
  datatype World = World(ledger: Ledger, keys: map<string, string>, named: map<string, Outbox.Item>)

  datatype Step =
    | IssueCapability(handle: string, key: string)
    | DecideInvite(q: Opened, approve: bool, decidedAt: string, f: Fate)
    | ClearCommit(roomId: string, id: string, ok: bool)
    | Published(roomId: string, id: string, engine: Outbox.Settlement)
    | Retired(roomId: string, id: string, engine: Outbox.Settlement)
    | Queued(item: Outbox.Item)

  function Or(r: Result<Outbox.Store, Outbox.MlsError>, s: Outbox.Store): Outbox.Store {
    if r.Ok? then r.value else s
  }

  function NextLedger(l: Ledger, step: Step): Ledger {
    match step
    case IssueCapability(handle, key) => l.(verifiers := l.verifiers[handle := key])
    case DecideInvite(q, approve, decidedAt, f) => Decide(l, q, approve, decidedAt, f).0
    case ClearCommit(roomId, id, ok) => Clear(l, roomId, id, ok).0
    case Published(roomId, id, engine) => l.(outbox := Outbox.PublishSucceeded(l.outbox, roomId, id, engine).0)
    case Retired(roomId, id, engine) => l.(outbox := Outbox.RetireExpiredApplication(l.outbox, roomId, id, engine).0)
    case Queued(item) => l.(outbox := Or(Outbox.Enqueue(l.outbox, item), l.outbox))
  }

  function NextNamed(named: map<string, Outbox.Item>, step: Step): map<string, Outbox.Item> {
    match step
    case DecideInvite(q, _, _, f) =>
      named[f.commitId := CommitItem(q, f)][f.welcomeId := WelcomeItem(q, f)][f.denialId := DenialItem(q, f)]
    case Queued(item) => named[item.id := item]
    case _ => named
  }

  function Next(w: World, step: Step): World {
    World(NextLedger(w.ledger, step),
          if step.IssueCapability? then w.keys[step.handle := step.key] else w.keys,
          NextNamed(w.named, step))
  }

  /** Handles are random and ids are digests: neither comes up twice. */
  predicate NewNames(w: World, step: Step) {
    match step
    case IssueCapability(handle, _) => handle !in w.keys
    case DecideInvite(_, _, _, f) =>
      && f.commitId !in w.named && f.welcomeId !in w.named && f.denialId !in w.named
      && f.commitId != f.welcomeId && f.commitId != f.denialId && f.welcomeId != f.denialId
    case Queued(item) => item.id !in w.named
    case _ => true
  }

  datatype Run = Run(worlds: seq<World>, steps: seq<Step>)

  predicate IsRun(r: Run) {
    && |r.worlds| == |r.steps| + 1
    && r.worlds[0] == World(Ledger(map[], map[], Outbox.Store([], 0, {}, {}, {}), map[]), map[], map[])
    && forall i :: 0 <= i < |r.steps| ==>
        NewNames(r.worlds[i], r.steps[i]) && r.worlds[i + 1] == Next(r.worlds[i], r.steps[i])
  }

  // ---- What is on record ----

  datatype Choice = Approval(receipt: Receipt) | Refusal(denial: Denial)

  function Recorded(l: Ledger, h: string): Option<Choice> {
    if h in l.approvals then Some(Approval(l.approvals[h]))
    else if h in l.denials then Some(Refusal(l.denials[h]))
    else None
  }

  /** The answer that a record stands for, given what ids name. */
  function AnswerFor(c: Choice, named: map<string, Outbox.Item>): Option<Decision> {
    match c
    case Refusal(d) => Some(Decision(Denied, d.responseBinding, d.responseMac, None, d.responseId, None))
    case Approval(r) =>
      if r.welcomeId !in named then None
      else Some(Decision(Approved, r.responseBinding, r.responseMac, Some(r.commitId), r.welcomeId,
                         Some(named[r.welcomeId].payload)))
  }

  predicate Answers(b: Binding, response: Binding, mac: Mac, approve: bool, key: string) {
    && ValidBinding(b) && b.phase == Request
    && response.decidedAt.Some? && response == ResponseTo(b, approve, response.decidedAt.value)
    && mac == ResponseMac(key, response)
  }

  predicate GoodReceipt(r: Receipt, key: string, named: map<string, Outbox.Item>) {
    && Answers(r.binding, r.responseBinding, r.responseMac, true, key)
    && r.keyPackageHash == r.binding.keyPackageHash
    && r.commitId in named && named[r.commitId].kind == "add" && r.welcomeId in named
  }

  predicate GoodDenial(d: Denial, key: string) {
    Answers(d.binding, d.responseBinding, d.responseMac, false, key) && d.keyPackageHash == d.binding.keyPackageHash
  }

  predicate EntriesNamed(entries: seq<Outbox.Entry>, named: map<string, Outbox.Item>) {
    forall e :: e in entries ==> e.item.id in named && named[e.item.id] == e.item
  }

  predicate Sound(w: World) {
    var l := w.ledger;
    && l.approvals.Keys !! l.denials.Keys
    && (forall h :: h in l.approvals ==> h in w.keys && GoodReceipt(l.approvals[h], w.keys[h], w.named))
    && (forall h :: h in l.denials ==> h in w.keys && GoodDenial(l.denials[h], w.keys[h]))
    && (forall h :: h in l.verifiers ==> h in w.keys && l.verifiers[h] == w.keys[h])
    && (forall g, h :: g in l.approvals && h in l.approvals && g != h ==>
        l.approvals[g].commitId != l.approvals[h].commitId)
    && EntriesNamed(l.outbox.entries, w.named)
  }

  // ---- One step ----

  predicate Extends(later: map<string, Outbox.Item>, earlier: map<string, Outbox.Item>) {
    forall id :: id in earlier ==> id in later && later[id] == earlier[id]
  }

  lemma NamesStay(w: World, step: Step)
    requires NewNames(w, step)
    ensures Extends(Next(w, step).named, w.named)
    ensures forall h :: h in w.keys ==> h in Next(w, step).keys && Next(w, step).keys[h] == w.keys[h]
  {
  }

  lemma DecisionEntries(l: Ledger, q: Opened, approve: bool, decidedAt: string, f: Fate, e: Outbox.Entry)
    requires e in Decide(l, q, approve, decidedAt, f).0.outbox.entries && e !in l.outbox.entries
    ensures e.item in {CommitItem(q, f), WelcomeItem(q, f), DenialItem(q, f)}
  {
    hide ValidBinding, ValidToken, RepeatApproval, RepeatDenial;
  }

  lemma OtherEntries(l: Ledger, step: Step, e: Outbox.Entry)
    requires !step.DecideInvite? && e in NextLedger(l, step).outbox.entries && e !in l.outbox.entries
    ensures step.Queued? && e.item == step.item
  {
    hide ReceiptsFor, Outbox.LeavesWith, Outbox.TicketsOf;
  }

  lemma EntriesStayNamed(w: World, step: Step)
    requires NewNames(w, step) && EntriesNamed(w.ledger.outbox.entries, w.named)
    ensures EntriesNamed(Next(w, step).ledger.outbox.entries, Next(w, step).named)
  {
    hide NextLedger, Decide;
    NamesStay(w, step);
    forall e | e in Next(w, step).ledger.outbox.entries && e !in w.ledger.outbox.entries
      ensures e.item.id in Next(w, step).named && Next(w, step).named[e.item.id] == e.item
    {
      if step.DecideInvite? {
        DecideIsNext(w.ledger, step);
        DecisionEntries(w.ledger, step.q, step.approve, step.decidedAt, step.f, e);
      } else {
        OtherEntries(w.ledger, step, e);
      }
    }
  }

  lemma DecideIsNext(l: Ledger, step: Step)
    requires step.DecideInvite?
    ensures NextLedger(l, step) == Decide(l, step.q, step.approve, step.decidedAt, step.f).0
  {
  }

  /** What a decision does to the records and to the verifier. */
  lemma DecisionEffect(l: Ledger, q: Opened, approve: bool, decidedAt: string, f: Fate)
    ensures var (after, answer) := Decide(l, q, approve, decidedAt, f);
            var h := q.handle;
            var response := ResponseTo(q.binding, approve, decidedAt);
            || (after == l && (Recorded(l, h).Some? || answer.Err?))
            || (&& Recorded(l, h).None? && h in l.verifiers && ValidBinding(q.binding) && q.binding.phase == Request
                && after.verifiers == (if f.deletesVerifier then l.verifiers - {h} else l.verifiers)
                && (answer.Ok? <==> f.deletesVerifier)
                && (if approve then
                      var receipt := Receipt(q.binding, q.binding.keyPackageHash, f.commitId, f.welcomeId,
                                             response, ResponseMac(l.verifiers[h], response));
                      after.approvals == l.approvals[h := receipt] && after.denials == l.denials
                    else
                      var denial := Denial(q.binding, q.binding.keyPackageHash, f.denialId,
                                           response, ResponseMac(l.verifiers[h], response));
                      after.denials == l.denials[h := denial] && after.approvals == l.approvals)
                && (answer.Ok? ==> answer.value == FreshAnswer(q, response,
                    ResponseMac(l.verifiers[h], response), approve, f)))
  {
    hide EnqueueBoth, Outbox.Enqueue, ValidBinding, ValidToken, RepeatApproval, RepeatDenial;
  }

  function FreshAnswer(q: Opened, response: Binding, mac: Mac, approve: bool, f: Fate): Decision {
    if approve then Decision(Approved, response, mac, Some(f.commitId), f.welcomeId, Some(f.welcome))
    else Decision(Denied, response, mac, None, f.denialId, None)
  }

  lemma ReceiptStaysGood(r: Receipt, key: string, named: map<string, Outbox.Item>, later: map<string, Outbox.Item>)
    requires GoodReceipt(r, key, named) && Extends(later, named)
    ensures GoodReceipt(r, key, later) && r.commitId in named
  {
  }

  lemma FreshRecordIsGood(
      q: Opened, approve: bool, decidedAt: string, f: Fate, key: string, named: map<string, Outbox.Item>)
    requires ValidBinding(q.binding) && q.binding.phase == Request
    requires f.commitId != f.welcomeId && f.commitId != f.denialId && f.welcomeId != f.denialId
    ensures var response := ResponseTo(q.binding, approve, decidedAt);
            var later := named[f.commitId := CommitItem(q, f)][f.welcomeId := WelcomeItem(q, f)]
                              [f.denialId := DenialItem(q, f)];
            if approve then GoodReceipt(Receipt(q.binding, q.binding.keyPackageHash, f.commitId, f.welcomeId,
                                                response, ResponseMac(key, response)), key, later)
            else GoodDenial(Denial(q.binding, q.binding.keyPackageHash, f.denialId, response,
                ResponseMac(key, response)), key)
  {
  }

  lemma DecisionKeepsSound(w: World, step: Step)
    requires Sound(w) && NewNames(w, step) && step.DecideInvite?
    ensures Sound(Next(w, step))
  {
    hide Decide, ValidBinding, GoodReceipt, GoodDenial, EntriesNamed;
    EntriesStayNamed(w, step);
    NamesStay(w, step);
    var (q, f) := (step.q, step.f);
    DecisionEffect(w.ledger, q, step.approve, step.decidedAt, f);
    var (before, after) := (w.ledger, Next(w, step).ledger);
    var named := Next(w, step).named;
    forall h | h in before.approvals
      ensures GoodReceipt(before.approvals[h], w.keys[h], named) && before.approvals[h].commitId != f.commitId
    {
      ReceiptStaysGood(before.approvals[h], w.keys[h], w.named, named);
    }
    if before != after {
      FreshRecordIsGood(q, step.approve, step.decidedAt, f, w.keys[q.handle], w.named);
    }
  }

  lemma ClearEffect(l: Ledger, room: string, id: string, ok: bool)
    ensures var (after, done) := Clear(l, room, id, ok);
            && after.denials == l.denials && after.verifiers == l.verifiers
            && forall h :: if h in l.approvals && l.approvals[h].commitId != id
                           then h in after.approvals && after.approvals[h] == l.approvals[h]
                           else h in after.approvals ==> h in l.approvals && after.approvals[h] == l.approvals[h]
  {
    hide Outbox.ClearStaleCommit;
  }

  lemma ClearKeepsSound(w: World, step: Step)
    requires Sound(w) && step.ClearCommit?
    ensures Sound(Next(w, step))
  {
    hide Clear, GoodReceipt, GoodDenial, EntriesNamed;
    EntriesStayNamed(w, step);
    ClearEffect(w.ledger, step.roomId, step.id, step.ok);
  }

  lemma OtherStepKeepsSound(w: World, step: Step)
    requires Sound(w) && NewNames(w, step) && !step.DecideInvite? && !step.ClearCommit?
    ensures Sound(Next(w, step))
  {
    hide GoodReceipt, GoodDenial, EntriesNamed, Or;
    EntriesStayNamed(w, step);
    NamesStay(w, step);
    var l := Next(w, step).ledger;
    assert l.approvals == w.ledger.approvals && l.denials == w.ledger.denials;
    forall h | h in l.approvals ensures GoodReceipt(l.approvals[h], w.keys[h], Next(w, step).named) {
      ReceiptStaysGood(l.approvals[h], w.keys[h], w.named, Next(w, step).named);
    }
  }

  lemma StepKeepsSound(w: World, step: Step)
    requires Sound(w) && NewNames(w, step)
    ensures Sound(Next(w, step))
  {
    if step.DecideInvite? {
      DecisionKeepsSound(w, step);
    } else if step.ClearCommit? {
      ClearKeepsSound(w, step);
    } else {
      OtherStepKeepsSound(w, step);
    }
  }

  /** Approval and denial are never both on record; every record answers a request whose
      handle was issued, under the handle's key; nothing in the outbox is other than named. */
  lemma {:induction false} EveryRunIsSound(r: Run, n: nat)
    requires IsRun(r) && n <= |r.steps|
    ensures Sound(r.worlds[n])
  {
    if n > 0 {
      EveryRunIsSound(r, n - 1);
      StepKeepsSound(r.worlds[n - 1], r.steps[n - 1]);
    }
  }

  // ---- How records come and go ----

  predicate Makes(step: Step, h: string) { step.DecideInvite? && step.q.handle == h }

  predicate Clears(step: Step, c: Choice) { c.Approval? && step.ClearCommit? && step.id == c.receipt.commitId }

  /** A record only ever comes from a decision while the verifier is there, and only ever
      goes with its own stale commit; it is never replaced. */
  lemma RecordChange(w: World, step: Step, h: string)
    requires Sound(w) && NewNames(w, step)
    ensures var before, after := Recorded(w.ledger, h), Recorded(Next(w, step).ledger, h);
            || before == after
            || (before.None? && Makes(step, h) && h in w.ledger.verifiers)
            || (after.None? && Clears(step, before.value))
  {
    hide Decide, Clear, GoodReceipt, GoodDenial, Outbox.PublishSucceeded, Outbox.Enqueue,
        Outbox.RetireExpiredApplication;
    if step.DecideInvite? {
      DecisionEffect(w.ledger, step.q, step.approve, step.decidedAt, step.f);
    } else if step.ClearCommit? {
      ClearEffect(w.ledger, step.roomId, step.id, step.ok);
    }
  }

  /** Step `i` puts a decision for `h` on record. */
  predicate Records(r: Run, i: nat, h: string)
    requires i < |r.steps| < |r.worlds|
  {
    Recorded(r.worlds[i].ledger, h).None? && Recorded(r.worlds[i + 1].ledger, h).Some?
  }

  predicate Answered(r: Run, i: nat, h: string)
    requires i < |r.steps| < |r.worlds|
  {
    var s := r.steps[i];
    Makes(s, h) && Decide(r.worlds[i].ledger, s.q, s.approve, s.decidedAt, s.f).1.Ok?
  }

  function AnswerAt(r: Run, i: nat): Decision
    requires i < |r.steps| < |r.worlds| && r.steps[i].DecideInvite? && Answered(r, i, r.steps[i].q.handle)
  {
    var s := r.steps[i];
    Decide(r.worlds[i].ledger, s.q, s.approve, s.decidedAt, s.f).1.value
  }

  lemma VerifierChange(w: World, step: Step, h: string)
    requires Sound(w) && NewNames(w, step)
    ensures var after := Next(w, step).ledger;
            h in after.verifiers <==>
              if h !in w.keys then step.IssueCapability? && step.handle == h
              else h in w.ledger.verifiers
                   && !(Makes(step, h) && step.f.deletesVerifier && Recorded(w.ledger, h).None?
                       && Recorded(after, h).Some?)
  {
    hide Decide, Clear, Outbox.PublishSucceeded, Outbox.Enqueue, Outbox.RetireExpiredApplication;
    if step.DecideInvite? {
      DecisionEffect(w.ledger, step.q, step.approve, step.decidedAt, step.f);
    } else if step.ClearCommit? {
      ClearEffect(w.ledger, step.roomId, step.id, step.ok);
    }
  }

  /** The host still has the verifier of an issued handle exactly when no decision for it
      was put on record and answered at once. */
  lemma {:induction false} VerifierRemainsIff(r: Run, n: nat, h: string)
    requires IsRun(r) && n <= |r.steps| && h in r.worlds[n].keys
    ensures h in r.worlds[n].ledger.verifiers <==> forall i: nat :: i < n && Records(r, i, h) ==> !Answered(r, i, h)
  {
    hide Next, Records, Answered, Sound;
    if n > 0 {
      if h in r.worlds[n - 1].keys {
        VerifierRemainsIff(r, n - 1, h);
        VerifierGoesIff(r, n - 1, h);
      } else {
        NothingBeforeIssue(r, n, h);
        VerifierComes(r, n - 1, h);
      }
    }
  }

  lemma VerifierGoesIff(r: Run, n: nat, h: string)
    requires IsRun(r) && n < |r.steps| && h in r.worlds[n].keys
    ensures h in r.worlds[n + 1].ledger.verifiers <==>
              h in r.worlds[n].ledger.verifiers && (Records(r, n, h) ==> !Answered(r, n, h))
  {
    hide Next, Answered, Sound, Recorded;
    EveryRunIsSound(r, n);
    VerifierChange(r.worlds[n], r.steps[n], h);
    RecordedByDecision(r, n, h);
  }

  lemma VerifierComes(r: Run, n: nat, h: string)
    requires IsRun(r) && n < |r.steps| && h !in r.worlds[n].keys && h in r.worlds[n + 1].keys
    ensures h in r.worlds[n + 1].ledger.verifiers
  {
    hide NextLedger, NextNamed, Sound;
    EveryRunIsSound(r, n);
    VerifierChange(r.worlds[n], r.steps[n], h);
  }

  lemma RecordedByDecision(r: Run, i: nat, h: string)
    requires IsRun(r) && i < |r.steps|
    ensures Records(r, i, h) ==>
              Makes(r.steps[i], h) && h in r.worlds[i].ledger.verifiers
                  && (Answered(r, i, h) <==> r.steps[i].f.deletesVerifier)
  {
    hide Decide;
    EveryRunIsSound(r, i);
    RecordChange(r.worlds[i], r.steps[i], h);
    var s := r.steps[i];
    if s.DecideInvite? {
      DecisionEffect(r.worlds[i].ledger, s.q, s.approve, s.decidedAt, s.f);
    }
  }

  lemma {:induction false} NothingBeforeIssue(r: Run, n: nat, h: string)
    requires IsRun(r) && n <= |r.steps| && (n == 0 || h !in r.worlds[n - 1].keys)
    ensures forall i: nat :: i < n ==> !Records(r, i, h)
  {
    hide Next, Sound;
    forall i: nat | i < n ensures !Records(r, i, h) {
      KeysStay(r, i, n - 1, h);
      RecordedByDecision(r, i, h);
      EveryRunIsSound(r, i);
      SoundVerifiers(r.worlds[i], h);
    }
  }

  lemma SoundVerifiers(w: World, h: string)
    requires Sound(w)
    ensures h in w.ledger.verifiers ==> h in w.keys && w.ledger.verifiers[h] == w.keys[h]
  {
  }

  lemma {:induction false} KeysStay(r: Run, i: nat, j: nat, h: string)
    requires IsRun(r) && i <= j <= |r.steps|
    ensures h in r.worlds[i].keys ==> h in r.worlds[j].keys && r.worlds[j].keys[h] == r.worlds[i].keys[h]
    ensures Extends(r.worlds[j].named, r.worlds[i].named)
    decreases j - i
  {
    hide NextLedger;
    if i < j {
      KeysStay(r, i, j - 1, h);
      NamesStay(r.worlds[j - 1], r.steps[j - 1]);
    }
  }

  // ---- One decision ----

  /** Between a decision and its absence lies the clearing of its own commit. */
  lemma {:induction false} StaysUntilCleared(r: Run, i: nat, j: nat, h: string)
    requires IsRun(r) && i <= j <= |r.steps| && Recorded(r.worlds[i].ledger, h).Some?
    ensures var c := Recorded(r.worlds[i].ledger, h);
            Recorded(r.worlds[j].ledger, h) == c || exists k :: i <= k < j && Clears(r.steps[k], c.value)
    decreases j - i
  {
    hide Next, Recorded, Sound;
    if i < j {
      StaysUntilCleared(r, i, j - 1, h);
      EveryRunIsSound(r, j - 1);
      RecordChange(r.worlds[j - 1], r.steps[j - 1], h);
    }
  }

  /** A handle is decided a second time only if the first decision was an approval whose
      commit was then cleared as stale, and the call that made it was never answered: it
      failed or crashed between writing the receipt and deleting the verifier. */
  lemma SecondDecisionOnlyAfter(r: Run, i: nat, j: nat, h: string)
    requires IsRun(r) && i < j < |r.steps| && Records(r, i, h) && Records(r, j, h)
    ensures !Answered(r, i, h)
    ensures var first := Recorded(r.worlds[i + 1].ledger, h).value;
            first.Approval? && exists k :: i < k < j && Clears(r.steps[k], first)
  {
    StaysUntilCleared(r, i + 1, j, h);
    RecordedByDecision(r, j, h);
    EveryRunIsSound(r, j);
    SoundVerifiers(r.worlds[j], h);
    VerifierRemainsIff(r, j, h);
  }

  /** The family is real: with the verifier left behind, clearing the commit of an approval
      lets the same request be denied. */
  lemma ClearedApprovalCanBeDenied(l: Ledger, q: Opened, id: string, decidedAt: string, f: Fate)
    requires q.handle in l.approvals && q.handle !in l.denials && l.approvals[q.handle].commitId == id
    requires Outbox.Find(l.outbox.entries, id).Some?
    requires Outbox.Find(l.outbox.entries, id).value.item.kind == "add"
    requires ValidBinding(q.binding) && q.binding.phase == Request && ValidToken(q.handle)
    requires q.handle in l.verifiers && q.mac == RequestMac(l.verifiers[q.handle], q.binding)
    requires f.readsVerifier && f.engineAccepts && f.deletesVerifier
    requires Outbox.Find(l.outbox.entries, f.denialId).None?
    ensures var room := Outbox.Find(l.outbox.entries, id).value.item.roomId;
            var cleared := Clear(l, room, id, true).0;
            var answer := Decide(cleared, q, false, decidedAt, f).1;
            answer.Ok? && answer.value.status == Denied
  {
    var room := Outbox.Find(l.outbox.entries, id).value.item.roomId;
    var (cleared, done) := Clear(l, room, id, true);
    FirstDecisionSucceedsIff(cleared, q, false, decidedAt, f);
    assert forall e :: e in cleared.outbox.entries ==> e in l.outbox.entries;
  }

  lemma {:induction false} UnusedId(entries: seq<Outbox.Entry>, least: nat) returns (id: string)
    ensures |id| >= least && forall e :: e in entries ==> |e.item.id| < |id|
  {
    id := seq(least, _ => 'a');
    if entries != [] {
      id := UnusedId(entries[1..], least + |entries[0].item.id| + 1);
    }
  }

  /** A request for the handle that the verifier's holder can make, and an engine that
      takes the denial. */
  lemma SomeCallSucceeds(l: Ledger, h: string)
    requires Recorded(l, h).None? && ValidToken(h) && h in l.verifiers
    ensures exists q: Opened, f :: q.handle == h && Decide(l, q, false, "", f).1.Ok?
  {
    hide ValidToken;
    var b := Binding(Request, None, None, "", "", "", true);
    var q := Opened(h, b, RequestMac(l.verifiers[h], b), true);
    var id := UnusedId(l.outbox.entries, 1);
    var f := Fate(true, true, 0, "", "", "", "", id, "", true);
    FirstDecisionSucceedsIff(l, q, false, "", f);
  }

  /** An issued handle without a record can be decided, for the first or another time, exactly
      when no call that put a decision for it on record was ever answered. */
  lemma CanBeDecidedIff(r: Run, n: nat, h: string)
    requires IsRun(r) && n <= |r.steps| && h in r.worlds[n].keys && ValidToken(h)
    requires Recorded(r.worlds[n].ledger, h).None?
    ensures (exists q: Opened, approve, decidedAt, f ::
               q.handle == h && Decide(r.worlds[n].ledger, q, approve, decidedAt, f).1.Ok?)
            <==> forall i: nat :: i < n && Records(r, i, h) ==> !Answered(r, i, h)
  {
    hide Decide, Next, ValidToken, Answered;
    var l := r.worlds[n].ledger;
    VerifierRemainsIff(r, n, h);
    if h in l.verifiers {
      SomeCallSucceeds(l, h);
    }
    forall q: Opened, approve, decidedAt, f | q.handle == h && Decide(l, q, approve, decidedAt, f).1.Ok?
      ensures h in l.verifiers
    {
      FirstDecisionSucceedsIff(l, q, approve, decidedAt, f);
    }
  }

  // ---- A run that decides twice ----

  lemma Continue(r: Run, step: Step) returns (later: Run)
    requires IsRun(r) && NewNames(r.worlds[|r.steps|], step)
    ensures IsRun(later) && r.worlds <= later.worlds && later.steps == r.steps + [step]
    ensures later.worlds[|later.steps|] == Next(r.worlds[|r.steps|], step)
  {
    later := Run(r.worlds + [Next(r.worlds[|r.steps|], step)], r.steps + [step]);
  }

  /** The approval, and with it the commit and the welcome, is written, but the verifier is
      not deleted. */
  lemma FirstApproval(l: Ledger, q: Opened, f: Fate)
    requires l.approvals == map[] && l.denials == map[] && l.outbox.entries == []
    requires ValidBinding(q.binding) && q.binding.phase == Request && ValidToken(q.handle) && q.keyPackageDecodes
    requires q.handle in l.verifiers && q.mac == RequestMac(l.verifiers[q.handle], q.binding)
    requires f.readsVerifier && f.engineAccepts && !f.deletesVerifier && f.commitId != f.welcomeId
    ensures var after := Decide(l, q, true, "", f).0;
            && after.approvals.Keys == {q.handle} && after.approvals[q.handle].commitId == f.commitId
            && after.denials == map[] && after.verifiers == l.verifiers
            && after.outbox.entries == [Outbox.Entry(CommitItem(q, f), l.outbox.issued),
                                        Outbox.Entry(WelcomeItem(q, f), l.outbox.issued + 1)]
  {
    hide ValidToken, ValidBinding;
  }

  lemma CommitAndWelcomeGo(l: Ledger, q: Opened, f: Fate, t: nat)
    requires l.approvals.Keys == {q.handle} && l.approvals[q.handle].commitId == f.commitId
    requires l.outbox.entries == [Outbox.Entry(CommitItem(q, f), t), Outbox.Entry(WelcomeItem(q, f), t + 1)]
    ensures var after := Clear(l, q.binding.roomId, f.commitId, true).0;
            after.approvals == map[] && after.denials == l.denials && after.verifiers == l.verifiers
            && after.outbox.entries == []
  {
    var commit, welcome := l.outbox.entries[0], l.outbox.entries[1];
    assert Outbox.Find(l.outbox.entries, f.commitId) == Some(commit);
    assert f.welcomeId in Outbox.LeavesWith(l.outbox.entries, commit.item) by {
      assert welcome in l.outbox.entries && welcome.item.kind == "welcome" && welcome.item.id == f.welcomeId;
    }
    var ids := Outbox.LeavesWith(l.outbox.entries, commit.item);
    assert l.outbox.entries[1..] == [welcome] && [welcome][1..] == [];
    assert Outbox.Without([welcome], ids) == [];
    assert Outbox.Without(l.outbox.entries, ids) == [];
    assert Clear(l, q.binding.roomId, f.commitId, true).0.approvals.Keys == {};
  }

  lemma LaterDenial(l: Ledger, q: Opened, f: Fate)
    requires l.approvals == map[] && l.denials == map[] && l.outbox.entries == []
    requires ValidBinding(q.binding) && q.binding.phase == Request && ValidToken(q.handle)
    requires q.handle in l.verifiers && q.mac == RequestMac(l.verifiers[q.handle], q.binding)
    requires f.readsVerifier && f.engineAccepts && f.deletesVerifier
    ensures q.handle in Decide(l, q, false, "", f).0.denials && Decide(l, q, false, "", f).1.Ok?
  {
    hide ValidToken, ValidBinding;
  }

  /** Any request that is approved first: the capability is issued, the approval is written
      and the verifier not deleted, the commit is cleared as stale, and the same request is
      denied. */
  lemma DecidedTwice(q: Opened, key: string) returns (r: Run)
    requires ValidBinding(q.binding) && q.binding.phase == Request && ValidToken(q.handle) && q.keyPackageDecodes
    requires q.mac == RequestMac(key, q.binding)
    ensures IsRun(r) && |r.steps| == 4
    ensures Records(r, 1, q.handle) && !Answered(r, 1, q.handle)
    ensures Records(r, 3, q.handle) && Answered(r, 3, q.handle)
    ensures r.steps[1].DecideInvite? && r.steps[1].approve && r.steps[1].q == q
    ensures r.steps[3].DecideInvite? && !r.steps[3].approve && r.steps[3].q == q
  {
    hide ValidBinding, ValidToken, Decide, Clear, IsRun;
    var approve := Fate(true, true, 0, "a", "", "b", "", "c", "", false);
    var deny := Fate(true, true, 0, "d", "", "e", "", "f", "", true);
    var h := q.handle;
    var empty := World(Ledger(map[], map[], Outbox.Store([], 0, {}, {}, {}), map[]), map[], map[]);
    r := Run([empty], []);
    EmptyIsRun(r);
    r := Continue(r, IssueCapability(h, key));
    var issued := r.worlds[1];
    FirstApproval(issued.ledger, q, approve);
    FirstDecisionSucceedsIff(issued.ledger, q, true, "", approve);
    r := Continue(r, DecideInvite(q, true, "", approve));
    var approved := r.worlds[2];
    CommitAndWelcomeGo(approved.ledger, q, approve, 0);
    r := Continue(r, ClearCommit(q.binding.roomId, "a", true));
    LaterDenial(r.worlds[3].ledger, q, deny);
    r := Continue(r, DecideInvite(q, false, "", deny));
  }

  lemma EmptyIsRun(r: Run)
    requires r == Run([World(Ledger(map[], map[], Outbox.Store([], 0, {}, {}, {}), map[]), map[], map[])], [])
    ensures IsRun(r)
  {
  }

  /** Once the call that made a decision was answered, nothing else is ever on record for
      the handle, and when the record has gone every later call fails. */
  lemma AnsweredDecisionIsFinal(r: Run, i: nat, j: nat, h: string)
    requires IsRun(r) && i < j <= |r.steps| && Records(r, i, h) && Answered(r, i, h)
    ensures Recorded(r.worlds[j].ledger, h).Some? ==>
              Recorded(r.worlds[j].ledger, h) == Recorded(r.worlds[i + 1].ledger, h)
    ensures Recorded(r.worlds[j].ledger, h).None? ==>
              forall q: Opened, approve, decidedAt, f :: q.handle == h ==>
                  Decide(r.worlds[j].ledger, q, approve, decidedAt, f).1.Err?
  {
    hide Decide, Next, Sound;
    FinalRecord(r, i, j, h);
    if Recorded(r.worlds[j].ledger, h).None? {
      EveryRunIsSound(r, i);
      RecordedByDecision(r, i, h);
      SoundVerifiers(r.worlds[i], h);
      KeysStay(r, i, j, h);
      VerifierRemainsIff(r, j, h);
      forall q: Opened, approve, decidedAt, f | q.handle == h
        ensures Decide(r.worlds[j].ledger, q, approve, decidedAt, f).1.Err?
      {
        FirstDecisionSucceedsIff(r.worlds[j].ledger, q, approve, decidedAt, f);
      }
    }
  }

  lemma {:induction false} FinalRecord(r: Run, i: nat, j: nat, h: string)
    requires IsRun(r) && i < j <= |r.steps| && Records(r, i, h) && Answered(r, i, h)
    ensures Recorded(r.worlds[j].ledger, h).Some? ==>
              Recorded(r.worlds[j].ledger, h) == Recorded(r.worlds[i + 1].ledger, h)
    decreases j
  {
    hide Decide, Next, Sound, Recorded;
    if j > i + 1 {
      FinalRecord(r, i, j - 1, h);
      EveryRunIsSound(r, j - 1);
      RecordChange(r.worlds[j - 1], r.steps[j - 1], h);
      if Records(r, j - 1, h) { SecondDecisionOnlyAfter(r, i, j - 1, h); }
    }
  }

  // ---- Answers ----

  lemma AnswerIsTheRecord(r: Run, i: nat, h: string)
    requires IsRun(r) && i < |r.steps| && Answered(r, i, h)
    ensures var c := Recorded(r.worlds[i + 1].ledger, h);
            c.Some? && AnswerFor(c.value, r.worlds[i + 1].named) == Some(AnswerAt(r, i))
    ensures var s := r.steps[i];
            match Recorded(r.worlds[i + 1].ledger, h).value
            case Approval(receipt) => s.approve && receipt.binding == s.q.binding
            case Refusal(denial) => !s.approve && denial.binding == s.q.binding
  {
    var w, s := r.worlds[i], r.steps[i];
    EveryRunIsSound(r, i);
    if Recorded(w.ledger, h).Some? {
      RepeatedAnswer(w, s);
    } else {
      hide Decide;
      DecisionEffect(w.ledger, s.q, s.approve, s.decidedAt, s.f);
    }
  }

  lemma RepeatedAnswer(w: World, s: Step)
    requires Sound(w) && NewNames(w, s) && s.DecideInvite? && Recorded(w.ledger, s.q.handle).Some?
    requires Decide(w.ledger, s.q, s.approve, s.decidedAt, s.f).1.Ok?
    ensures var c := Recorded(w.ledger, s.q.handle).value;
            var (after, answer) := Decide(w.ledger, s.q, s.approve, s.decidedAt, s.f);
            && after == w.ledger && AnswerFor(c, Next(w, s).named) == Some(answer.value)
            && match c
               case Approval(receipt) => s.approve && receipt.binding == s.q.binding
               case Refusal(denial) => !s.approve && denial.binding == s.q.binding
  {
    hide DecideFirst, ValidBinding, ValidToken;
    NamesStay(w, s);
  }

  /** Two answered calls for a handle return the same decision, word for word and with the
      time of the first, and both made the same choice on the same request, unless the
      record was cleared in between. */
  lemma RepeatedAnswersAgree(r: Run, i: nat, j: nat, h: string)
    requires IsRun(r) && i < j < |r.steps| && Answered(r, i, h) && Answered(r, j, h)
    requires forall k :: i < k <= j ==> Recorded(r.worlds[k].ledger, h).Some?
    ensures AnswerAt(r, i) == AnswerAt(r, j)
    ensures r.steps[i].approve == r.steps[j].approve && r.steps[i].q.binding == r.steps[j].q.binding
  {
    hide Decide, Next, Sound;
    AnswerIsTheRecord(r, i, h);
    AnswerIsTheRecord(r, j, h);
    SameRecord(r, i + 1, j, h);
    EveryRunIsSound(r, j);
    RecordChange(r.worlds[j], r.steps[j], h);
    KeysStay(r, i + 1, j + 1, h);
  }

  lemma {:induction false} SameRecord(r: Run, i: nat, j: nat, h: string)
    requires IsRun(r) && i <= j <= |r.steps|
    requires forall k :: i <= k <= j ==> Recorded(r.worlds[k].ledger, h).Some?
    ensures Recorded(r.worlds[j].ledger, h) == Recorded(r.worlds[i].ledger, h)
    decreases j - i
  {
    hide Next, Recorded, Sound;
    if i < j {
      SameRecord(r, i, j - 1, h);
      EveryRunIsSound(r, j - 1);
      RecordChange(r.worlds[j - 1], r.steps[j - 1], h);
    }
  }

  /** Every answer passes the requester's checks under the key that the handle was issued
      with, for the very request that was decided and for no other, and tells the choice. */
  lemma EveryAnswerReachesItsRequester(r: Run, i: nat, h: string, original: Binding)
    requires IsRun(r) && i < |r.steps| && Answered(r, i, h)
    ensures h in r.worlds[i + 1].keys
    ensures var d := AnswerAt(r, i);
            && d.status == (if r.steps[i].approve then Approved else Denied)
            && (d.welcome.Some? <==> r.steps[i].approve)
            && AcceptResponse(original, r.worlds[i + 1].keys[h], d.responseBinding, d.responseMac, d.welcome)
               == if original == r.steps[i].q.binding then Ok(d.welcome) else Err(InvalidInvite)
  {
    hide Decide, AcceptResponse, ValidBinding;
    AnswerIsTheRecord(r, i, h);
    EveryRunIsSound(r, i + 1);
    var d := AnswerAt(r, i);
    AcceptedByItsRequesterOnly(original, r.steps[i].q.binding, r.worlds[i + 1].keys[h], r.steps[i].approve,
                               d.responseBinding.decidedAt.value, if d.welcome.Some? then d.welcome.value else "");
  }
}
