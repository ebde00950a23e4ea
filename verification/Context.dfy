/** The bounded context that a Codex turn is given (`build_bounded_context` in `codex.rs`). */
module Context {
  import opened Basics
  import opened Text
  import opened ContextFilter
  import opened Proposals

  const MAX_MESSAGES := 32
  const MAX_BODY := 2_000
  const MAX_CHARS := 24_000
  const MAX_PARTICIPANTS := 32

  datatype Role = Human | Codex | System
  datatype Message = Message(role: Role, author: string, body: string)
  datatype BuiltContext = BuiltContext(input: string, included: nat, excluded: nat, includedChars: nat)

  // ---- The pieces ----

  /** `sort` and `dedup` of the filtered names. */
  ghost predicate SortedNames(sorted: seq<string>, names: seq<string>) {
    && (forall i, j :: 0 <= i < j < |sorted| ==> Less(sorted[i], sorted[j]))
    && (forall x :: x in sorted <==> exists i :: 0 <= i < |names| && Sanitized(names[i], 120) == x)
  }

  function Header(proposer: string, task: string, participants: string, intent: string): string {
    "Room proposal by " + proposer + ":" + "\n" + task + "\n\nParticipants: " + participants
    + "\nRoom model intent: " + intent + "\n\nBounded room " + "transcript:\n"
  }

  ghost predicate IsHeader(header: string, p: Proposal, names: seq<string>, intent: string) {
    exists sorted :: SortedNames(sorted, names)
      && header == Header(Sanitized(p.proposer, 120), Sanitized(p.task, 4_096),
                          Join(FirstOf(sorted, MAX_PARTICIPANTS), ", "), Sanitized(intent, 80))
  }

  function FirstOf<T>(s: seq<T>, n: nat): seq<T> {
    if |s| <= n then s else s[..n]
  }

  function RoleName(role: Role): string
    requires role != System
  {
    if role == Human then "participant" else "assistant"
  }

  /** The line of a message, if it may have one. */
  function Line(m: Message): Option<string> {
    var body := Sanitized(m.body, MAX_BODY);
    if body == EXCLUDED || m.role == System then None
    else Some("- " + RoleName(m.role) + " " + Sanitized(m.author, 120) + ":" + " " + body + "\n")
  }

  function Lines(messages: seq<Message>): (r: seq<Option<string>>)
    ensures |r| == |messages|
    ensures forall i :: 0 <= i < |r| ==> r[i] == Line(messages[i])
  {
    seq(|messages|, i requires 0 <= i < |messages| => Line(messages[i]))
  }

  // ---- Which lines are kept ----

  function Count(kept: seq<bool>): (n: nat)
    ensures n <= |kept|
  {
    if kept == [] then 0
    else Count(kept[..|kept| - 1]) + if kept[|kept| - 1] then 1 else 0
  }

  /** The kept lines, in their order. */
  function Chosen(kept: seq<bool>, lines: seq<Option<string>>): string
    requires |kept| == |lines|
  {
    if kept == [] then ""
    else
      var last := |kept| - 1;
      Chosen(kept[..last], lines[..last])
      + if kept[last] && lines[last].Some? then lines[last].value else ""
  }

  /** A line is kept exactly when there is one and both budgets have room for it after
      the header and the lines kept before it. */
  predicate Greedy(kept: seq<bool>, lines: seq<Option<string>>, header: nat) {
    && |kept| == |lines|
    && forall i :: 0 <= i < |lines| ==>
         (kept[i] <==>
           && lines[i].Some?
           && Count(kept[..i]) < MAX_MESSAGES
           && header + |Chosen(kept[..i], lines[..i])| + |lines[i].value| <= MAX_CHARS)
  }

  ghost predicate Assembled(kept: seq<bool>, lines: seq<Option<string>>, header: string, r: BuiltContext) {
    && Greedy(kept, lines, |header|)
    && r.input == Take(header + Chosen(kept, lines), MAX_CHARS)
    && r.included == Count(kept)
    && r.excluded == |lines| - Count(kept)
    && r.includedChars == |r.input|
  }

  function Recent(history: seq<Message>): seq<Message> { Last(2 * MAX_MESSAGES, history) }

  /** What a context must be: its header, then the greedy choice from the last 64
      messages, cut to the budget. */
  ghost predicate Builds(p: Proposal, history: seq<Message>, names: seq<string>, intent: string, r: BuiltContext) {
    exists header, kept :: IsHeader(header, p, names, intent) && Assembled(kept, Lines(Recent(history)), header, r)
  }

  // ---- The loops ----

  method InsertName(sorted: seq<string>, name: string) returns (r: seq<string>)
    requires forall i, j :: 0 <= i < j < |sorted| ==> Less(sorted[i], sorted[j])
    ensures forall i, j :: 0 <= i < j < |r| ==> Less(r[i], r[j])
    ensures forall x :: x in r <==> x in sorted || x == name
  {
    var i := 0;
    while i < |sorted| && Less(sorted[i], name)
      invariant 0 <= i <= |sorted|
      invariant forall k :: 0 <= k < i ==> Less(sorted[k], name)
    {
      i := i + 1;
    }
    if i < |sorted| && sorted[i] == name { return sorted; }
    forall k | i <= k < |sorted| ensures Less(name, sorted[k]) {
      LessIsTotal(name, sorted[i]);
      if i < k { LessIsTransitive(name, sorted[i], sorted[k]); }
    }
    r := sorted[..i] + [name] + sorted[i..];
    assert sorted == sorted[..i] + sorted[i..];
  }

  method SortNames(names: seq<string>) returns (sorted: seq<string>)
    ensures SortedNames(sorted, names)
  {
    hide Less, Sanitized;
    sorted := [];
    for k := 0 to |names|
      invariant SortedNames(sorted, names[..k])
    {
      var name := SanitizeContextText(names[k], 120);
      SanitizedIsNeverBlank(names[k], 120);
      sorted := InsertName(sorted, name);
    }
    assert names[..|names|] == names;
  }

  lemma GreedyExtends(kept: seq<bool>, lines: seq<Option<string>>, header: nat, i: nat, keep: bool)
    requires i < |lines| && Greedy(kept, lines[..i], header)
    requires keep <==>
               && lines[i].Some? && Count(kept) < MAX_MESSAGES
               && header + |Chosen(kept, lines[..i])| + |lines[i].value| <= MAX_CHARS
    ensures Greedy(kept + [keep], lines[..i + 1], header)
    ensures Count(kept + [keep]) == Count(kept) + if keep then 1 else 0
    ensures Chosen(kept + [keep], lines[..i + 1]) == Chosen(kept, lines[..i]) + if keep then lines[i].value else ""
  {
    hide Count, Chosen;
    var longer, some := kept + [keep], lines[..i + 1];
    assert longer[..i] == kept && some[..i] == lines[..i];
    assert forall j :: 0 <= j < i ==> longer[..j] == kept[..j] && some[..j] == lines[..i][..j];
    LastKept(longer, some);
  }

  lemma LastKept(kept: seq<bool>, lines: seq<Option<string>>)
    requires |kept| == |lines| > 0
    ensures var last := |kept| - 1;
            && Count(kept) == Count(kept[..last]) + (if kept[last] then 1 else 0)
            && Chosen(kept, lines) == Chosen(kept[..last], lines[..last])
                                      + if kept[last] && lines[last].Some? then lines[last].value else ""
  {
  }

  method BuildHeader(p: Proposal, names: seq<string>, intent: string, task: string) returns (header: string)
    requires task == Sanitized(p.task, 4_096)
    ensures IsHeader(header, p, names, intent)
  {
    hide Sanitized, Less, SortedNames;
    var participants := SortNames(names);
    var modelIntent := SanitizeContextText(intent, 80);
    var proposer := SanitizeContextText(p.proposer, 120);
    header := Header(proposer, task, Join(FirstOf(participants, MAX_PARTICIPANTS), ", "), modelIntent);
  }

  /** The header is followed by the greedy choice of lines, and the counters count it. */
  ghost predicate Appended(
      header: string, lines: seq<Option<string>>, kept: seq<bool>, input: string, included: int, excluded: int) {
    && Greedy(kept, lines, |header|)
    && input == header + Chosen(kept, lines)
    && included == Count(kept) && excluded == |lines| - Count(kept)
  }

  /** The loop over the recent messages. */
  method AppendMessages(header: string, recent: seq<Message>) returns (input: string, included: nat, excluded: nat)
    ensures exists kept :: Appended(header, Lines(recent), kept, input, included, excluded)
  {
    hide Line, Count, Chosen, Greedy;
    ghost var lines, kept: seq<bool> := Lines(recent), [];
    input, included, excluded := header, 0, 0;
    NothingKept(|header|);
    for i := 0 to |recent|
      invariant |kept| == i && Greedy(kept, lines[..i], |header|)
      invariant input == header + Chosen(kept, lines[..i])
      invariant included == Count(kept) <= MAX_MESSAGES && excluded == i - Count(kept)
    {
      var line := None;
      if included < MAX_MESSAGES {
        line := RenderLine(recent[i]);
        if line.Some? && |input| + |line.value| > MAX_CHARS {
          line := None;
        }
      }
      GreedyExtends(kept, lines, |header|, i, line.Some?);
      kept := kept + [line.Some?];
      if line.Some? {
        input := input + line.value;
        included := included + 1;
      } else {
        excluded := excluded + 1;
      }
    }
    assert lines[..|recent|] == lines;
    assert Appended(header, lines, kept, input, included, excluded);
  }

  /** `build_bounded_context`. */
  method BuildBoundedContext(p: Proposal, history: seq<Message>, names: seq<string>, intent: string)
    returns (r: Result<BuiltContext, ProposalError>)
    ensures r.Ok? <==> ValidProposal(p)
    ensures r.Ok? ==> Builds(p, history, names, intent, r.value)
    ensures r.Err? ==> r.error == Invalid
  {
    hide Sanitized, Count, Chosen, IsBlank, ValidProposal, IsHeader, Greedy, Line;
    if !ValidProposal(p) { return Err(Invalid); }
    var task := SanitizeContextText(p.task, 4_096);
    SanitizedIsNeverBlank(p.task, 4_096);
    if IsBlank(task) {
      assert false;
      return Err(Invalid);
    }
    var header := BuildHeader(p, names, intent, task);
    var input, included, excluded := AppendMessages(header, Recent(history));
    ghost var kept :| Appended(header, Lines(Recent(history)), kept, input, included, excluded);
    input := Take(input, MAX_CHARS);
    var built := BuiltContext(input, included, excluded, |input|);
    assert Assembled(kept, Lines(Recent(history)), header, built);
    return Ok(built);
  }

  lemma NothingKept(header: nat)
    ensures Greedy([], [], header) && Chosen([], []) == "" && Count([]) == 0
  {
  }

  method RenderLine(message: Message) returns (line: Option<string>)
    ensures line == Line(message)
  {
    hide Sanitized, IsBlank, IsWhitespace;
    var body := SanitizeContextText(message.body, MAX_BODY);
    SanitizedIsNeverBlank(message.body, MAX_BODY);
    if body == "" || body == EXCLUDED || message.role == System { return None; }
    var author := SanitizeContextText(message.author, 120);
    return Some("- " + RoleName(message.role) + " " + author + ":" + " " + body + "\n");
  }

  // ---- What the context says ----

  /** The line of a message: who spoke, under which role, and what is left of the body; none
      for a message of the system, and none when nothing is left. */
  lemma LineTells(m: Message)
    ensures var author, body := Sanitized(m.author, 120), Sanitized(m.body, 2_000);
            && (Line(m).None? <==> m.role == System || body == "[excluded]")
            && (Line(m).Some? && m.role == Human ==> Line(m).value == "- participant " + author + ": " + body + "\n")
            && (Line(m).Some? && m.role == Codex ==> Line(m).value == "- assistant " + author + ": " + body + "\n")
  {
    hide Sanitized;
  }

  /** The header, in full. */
  lemma HeaderTells(p: Proposal, names: seq<string>, intent: string, h: string)
    ensures IsHeader(h, p, names, intent) <==>
              exists sorted :: SortedNames(sorted, names)
                && h == "Room proposal by " + Sanitized(p.proposer, 120) + ":\n" + Sanitized(p.task, 4_096)
                   + "\n\nParticipants: " + Join(if |sorted| <= 32 then sorted else sorted[..32], ", ")
                   + "\nRoom model intent: " + Sanitized(intent, 80) + "\n\nBounded room transcript:\n"
  {
    hide Sanitized, SortedNames, Join, Header;
    forall sorted: seq<string>
      ensures FirstOf(sorted, MAX_PARTICIPANTS) == if |sorted| <= 32 then sorted else sorted[..32]
    {
    }
    forall proposer, task, participants, rest
      ensures Header(proposer, task, participants, rest) ==
              "Room proposal by " + proposer + ":\n" + task + "\n\nParticipants: " + participants
              + "\nRoom model intent: " + rest + "\n\nBounded room transcript:\n"
    {
      HeaderInFull(proposer, task, participants, rest);
    }
  }

  lemma HeaderInFull(proposer: string, task: string, participants: string, rest: string)
    ensures Header(proposer, task, participants, rest) ==
              "Room proposal by " + proposer + ":\n" + task + "\n\nParticipants: " + participants
              + "\nRoom model intent: " + rest + "\n\nBounded room transcript:\n"
  {
  }

  // ---- Main results: the budgets ----

  lemma {:induction false} ChosenFits(kept: seq<bool>, lines: seq<Option<string>>, header: nat)
    requires Greedy(kept, lines, header)
    ensures Count(kept) <= MAX_MESSAGES
    ensures header + |Chosen(kept, lines)| <= MAX_CHARS || (header > MAX_CHARS && Chosen(kept, lines) == "")
    decreases |kept|
  {
    hide Count, Chosen;
    if kept == [] {
      NothingKept(header);
    } else {
      var last := |kept| - 1;
      var some, fewer := lines[..last], kept[..last];
      assert forall j :: 0 <= j < last ==> fewer[..j] == kept[..j] && some[..j] == lines[..j];
      ChosenFits(fewer, some, header);
      LastKept(kept, lines);
    }
  }

  /** Each of the last 64 messages is counted once; at most 32 are included; the reported
      length is the true one and within the budget, even when the header alone is not; and
      the input ends with a whole line unless the header alone had to be cut. */
  lemma BudgetsHold(p: Proposal, history: seq<Message>, names: seq<string>, intent: string, r: BuiltContext)
    requires Builds(p, history, names, intent, r)
    ensures r.included + r.excluded == if |history| < 64 then |history| else 64
    ensures r.included <= 32
    ensures r.includedChars == |r.input| <= 24_000
    ensures exists header, kept ::
              IsHeader(header, p, names, intent) && Assembled(kept, Lines(Recent(history)), header, r)
              && (if |header| > MAX_CHARS then r.included == 0 && r.input == header[..MAX_CHARS]
                  else r.input == header + Chosen(kept, Lines(Recent(history))))
  {
    hide Lines, Count, Chosen, IsHeader, Greedy;
    var lines := Lines(Recent(history));
    var header, kept :| IsHeader(header, p, names, intent) && Assembled(kept, lines, header, r);
    ChosenFits(kept, lines, |header|);
    if |header| > MAX_CHARS {
      NoneKept(kept, lines, |header|);
      assert header + "" == header;
    }
  }

  lemma {:induction false} NoneKept(kept: seq<bool>, lines: seq<Option<string>>, header: nat)
    requires Greedy(kept, lines, header) && header > MAX_CHARS
    ensures Count(kept) == 0
  {
    AllFalse(kept);
  }

  lemma {:induction false} AllFalse(kept: seq<bool>)
    requires forall i :: 0 <= i < |kept| ==> !kept[i]
    ensures Count(kept) == 0
  {
    if kept != [] { AllFalse(kept[..|kept| - 1]); }
  }

  // ---- Main result: there is only one such context ----

  lemma {:induction false} GreedyIsUnique(a: seq<bool>, b: seq<bool>, lines: seq<Option<string>>, header: nat)
    requires Greedy(a, lines, header) && Greedy(b, lines, header)
    ensures a == b
    decreases |a|
  {
    hide Count, Chosen;
    if a != [] {
      var last := |a| - 1;
      assert forall j :: 0 <= j < last ==>
               a[..last][..j] == a[..j] && b[..last][..j] == b[..j] && lines[..last][..j] == lines[..j];
      GreedyIsUnique(a[..last], b[..last], lines[..last], header);
      assert a == a[..last] + [a[last]] && b == b[..last] + [b[last]];
    }
  }

  lemma {:induction false} AscendingIsUnique(a: seq<string>, b: seq<string>)
    requires forall i, j :: 0 <= i < j < |a| ==> Less(a[i], a[j])
    requires forall i, j :: 0 <= i < j < |b| ==> Less(b[i], b[j])
    requires forall x :: x in a <==> x in b
    ensures a == b
  {
    hide Less;
    if a == [] {
      assert forall i :: 0 <= i < |b| ==> b[i] in b;
    } else {
      assert a[0] in b && b != [];
      assert b[0] in a;
      FirstIsLeast(a, b[0]);
      FirstIsLeast(b, a[0]);
      if a[0] != b[0] { LessIsAsymmetric(a[0], b[0]); }
      WithoutFirst(a);
      WithoutFirst(b);
      AscendingIsUnique(a[1..], b[1..]);
      assert a == [a[0]] + a[1..] && b == [b[0]] + b[1..];
    }
  }

  lemma FirstIsLeast(a: seq<string>, x: string)
    requires x in a && forall i, j :: 0 <= i < j < |a| ==> Less(a[i], a[j])
    ensures x == a[0] || Less(a[0], x)
  {
  }

  lemma WithoutFirst(a: seq<string>)
    requires a != [] && forall i, j :: 0 <= i < j < |a| ==> Less(a[i], a[j])
    ensures forall x :: x in a[1..] <==> x in a && x != a[0]
  {
    forall x | x in a[1..] ensures x != a[0] && x in a {
      LessIsAsymmetric(a[0], x);
    }
  }

  /** The description determines the context. */
  lemma ContextIsUnique(
      p: Proposal, history: seq<Message>, names: seq<string>, intent: string, r: BuiltContext, s: BuiltContext)
    requires Builds(p, history, names, intent, r) && Builds(p, history, names, intent, s)
    ensures r == s
  {
    hide Lines, Count, Chosen, Greedy, Less, Sanitized, Header, Join;
    var lines := Lines(Recent(history));
    var header, kept :| IsHeader(header, p, names, intent) && Assembled(kept, lines, header, r);
    var header', kept' :| IsHeader(header', p, names, intent) && Assembled(kept', lines, header', s);
    HeaderIsUnique(header, header', p, names, intent);
    GreedyIsUnique(kept, kept', lines, |header|);
  }

  lemma HeaderIsUnique(h: string, k: string, p: Proposal, names: seq<string>, intent: string)
    requires IsHeader(h, p, names, intent) && IsHeader(k, p, names, intent)
    ensures h == k
  {
    hide Less, Sanitized, Header, Join;
    var a :| SortedNames(a, names)
      && h == Header(Sanitized(p.proposer, 120), Sanitized(p.task, 4_096),
                     Join(FirstOf(a, MAX_PARTICIPANTS), ", "), Sanitized(intent, 80));
    var b :| SortedNames(b, names)
      && k == Header(Sanitized(p.proposer, 120), Sanitized(p.task, 4_096),
                     Join(FirstOf(b, MAX_PARTICIPANTS), ", "), Sanitized(intent, 80));
    AscendingIsUnique(a, b);
  }

  // ---- Main result: nothing hidden is shown ----

  lemma {:induction false} SafeJoin(parts: seq<string>)
    requires forall i :: 0 <= i < |parts| ==> Safe(parts[i])
    ensures Safe(Join(parts, ", "))
  {
    hide Safe;
    if parts == [] {
      PlainIsSafe("", 's');
    } else if |parts| > 1 {
      var front, last := parts[..|parts| - 1], parts[|parts| - 1];
      SafeJoin(front);
      SafePunctuated(Join(front, ", "), ',');
      PlainIsSafe(" ", 's');
      SafeConcatenation(Join(front, ", ") + ",", " ");
      SafeConcatenation(Join(front, ", ") + "," + " ", last);
      assert ", " == "," + " ";
      assert Join(front, ", ") + ", " == Join(front, ", ") + "," + " ";
    }
  }

  lemma FixedTextsAreSafe()
    ensures Safe("Room proposal by ") && Safe("\n") && Safe("\n\nParticipants: ") && Safe("\nRoom model intent: ")
    ensures Safe("\n\nBounded room ") && Safe("transcript:\n")
  {
    hide Safe;
    PlainIsSafe("Room proposal by ", 'c');
    PlainIsSafe("\n", 'c');
    PlainIsSafe("\n\nParticipants: ", 'e');
    PlainIsSafe("\nRoom model intent: ", 'c');
    PlainIsSafe("\n\nBounded room ", 'c');
    PlainIsSafe("transcript:\n", 'e');
  }

  lemma FixedLineTextsAreSafe()
    ensures Safe("- participant ") && Safe("- assistant ") && Safe(" ") && Safe("\n")
  {
    hide Safe;
    PlainIsSafe("- participant ", 'e');
    PlainIsSafe("- assistant ", 'e');
    PlainIsSafe(" ", 'c');
    PlainIsSafe("\n", 'c');
  }

  lemma SafeHeader(proposer: string, task: string, participants: string, intent: string)
    requires Safe(proposer) && Safe(task) && Safe(participants) && Safe(intent)
    ensures Safe(Header(proposer, task, participants, intent))
  {
    hide Safe;
    FixedTextsAreSafe();
    SafeConcatenation("Room proposal by ", proposer);
    var h := "Room proposal by " + proposer;
    SafePunctuated(h, ':');
    h := h + ":";
    SafeConcatenation(h, "\n");
    h := h + "\n";
    SafeConcatenation(h, task);
    h := h + task;
    SafeConcatenation(h, "\n\nParticipants: ");
    h := h + "\n\nParticipants: ";
    SafeConcatenation(h, participants);
    h := h + participants;
    SafeConcatenation(h, "\nRoom model intent: ");
    h := h + "\nRoom model intent: ";
    SafeConcatenation(h, intent);
    h := h + intent;
    SafeConcatenation(h, "\n\nBounded room ");
    h := h + "\n\nBounded room ";
    SafeConcatenation(h, "transcript:\n");
  }

  predicate EndsLine(s: string) { s != "" && s[|s| - 1] == '\n' }

  lemma SafeLine(m: Message)
    requires Line(m).Some?
    ensures Safe(Line(m).value) && EndsLine(Line(m).value)
  {
    hide Safe, Sanitized;
    var author, body := Sanitized(m.author, 120), Sanitized(m.body, MAX_BODY);
    FixedLineTextsAreSafe();
    SanitizedIsSafe(m.author, 120);
    SanitizedIsSafe(m.body, MAX_BODY);
    var start := if m.role == Human then "- participant " else "- assistant ";
    assert start == "- " + RoleName(m.role) + " ";
    SafeConcatenation(start, author);
    SafePunctuated(start + author, ':');
    SafeConcatenation(start + author + ":", " ");
    SafeConcatenation(start + author + ":" + " ", body);
    SafeConcatenation(start + author + ":" + " " + body, "\n");
  }

  lemma {:induction false} SafeChosen(kept: seq<bool>, messages: seq<Message>)
    requires |kept| == |messages|
    ensures var text := Chosen(kept, Lines(messages));
            Safe(text) && (text == "" || EndsLine(text))
    decreases |kept|
  {
    hide Safe, Line;
    if kept == [] {
      PlainIsSafe("", 's');
    } else {
      var last := |kept| - 1;
      SafeChosen(kept[..last], messages[..last]);
      assert Lines(messages)[..last] == Lines(messages[..last]);
      LastKept(kept, Lines(messages));
      var before := Chosen(kept[..last], Lines(messages[..last]));
      if kept[last] && Line(messages[last]).Some? {
        var line := Line(messages[last]).value;
        SafeLine(messages[last]);
        SafeConcatenation(before, line);
        assert Chosen(kept, Lines(messages)) == before + line;
        assert EndsLine(before + line);
      } else {
        assert Chosen(kept, Lines(messages)) == before + "" == before;
      }
    }
  }

  /** No token of the whole context is one that the filter hides: not where a colon or a
      comma was added, not at the seams, and not where the final cut split a token. */
  lemma ContextShowsNothingHidden(
      p: Proposal, history: seq<Message>, names: seq<string>, intent: string, r: BuiltContext)
    requires Builds(p, history, names, intent, r)
    ensures forall t :: t in Tokens(r.input) ==> !SecretLike(t) && !LocalPath(t)
  {
    hide Line, Chosen, Sanitized, Tokens, SecretLike, LocalPath, Count, Header, Join;
    var messages := Recent(history);
    var header, kept :| IsHeader(header, p, names, intent) && Assembled(kept, Lines(messages), header, r);
    SafeIsHeader(header, p, names, intent);
    var text := Chosen(kept, Lines(messages));
    SafeChosen(kept, messages);
    assert Safe(header + text) by {
      EndOfHeader(header, p, names, intent);
      SafeConcatenation(header, text);
    }
    if |header + text| > MAX_CHARS { SafePrefix(header + text, MAX_CHARS); }
  }

  lemma EndOfHeader(header: string, p: Proposal, names: seq<string>, intent: string)
    requires IsHeader(header, p, names, intent)
    ensures EndsLine(header)
  {
    hide Sanitized, Join;
  }

  lemma SafeIsHeader(header: string, p: Proposal, names: seq<string>, intent: string)
    requires IsHeader(header, p, names, intent)
    ensures Safe(header)
  {
    hide Sanitized, Safe, Header, Join, Less;
    var sorted :| SortedNames(sorted, names)
      && header == Header(Sanitized(p.proposer, 120), Sanitized(p.task, 4_096),
                          Join(FirstOf(sorted, MAX_PARTICIPANTS), ", "), Sanitized(intent, 80));
    var shown := FirstOf(sorted, MAX_PARTICIPANTS);
    forall i | 0 <= i < |shown| ensures Safe(shown[i]) {
      assert shown[i] in sorted;
      var k :| 0 <= k < |names| && Sanitized(names[k], 120) == shown[i];
      SanitizedIsSafe(names[k], 120);
    }
    SafeJoin(shown);
    SanitizedIsSafe(p.proposer, 120);
    SanitizedIsSafe(p.task, 4_096);
    SanitizedIsSafe(intent, 80);
    SafeHeader(Sanitized(p.proposer, 120), Sanitized(p.task, 4_096), Join(shown, ", "), Sanitized(intent, 80));
  }
}
