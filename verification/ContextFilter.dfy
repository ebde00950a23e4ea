/** The filter that every text of a Codex context passes (`sanitize_context_text` in
    `codex.rs`), and texts none of whose tokens the filter would hide. */
module ContextFilter {
  import opened Text

  const EXCLUDED := "[excluded]"

  const MARKERS: set<string> := {
    "token", "secret", "password", "authorization", "cookie", "api_key", "apikey", "passphrase",
    "multaiplayerjoin=", ".env" }

  const PATH_STARTS: set<string> := { "/", "~/", "file://" }
  const PATH_PARTS: set<string> := { "/Users/", "/private/" }

  predicate SecretLike(token: string) {
    exists m :: m in MARKERS && Contains(Lower(token), m)
  }

  predicate LocalPath(token: string) {
    || (exists p :: p in PATH_STARTS && StartsWith(token, p))
    || (exists p :: p in PATH_PARTS && Contains(token, p))
  }

  predicate Filtered(token: string) {
    SecretLike(token) || LocalPath(token)
  }

  function Shown(token: string): string {
    if Filtered(token) then EXCLUDED else token
  }

  function ShownAll(tokens: seq<string>): (r: seq<string>)
    ensures |r| == |tokens|
    ensures forall i :: 0 <= i < |r| ==> r[i] == Shown(tokens[i])
  {
    if tokens == [] then [] else ShownAll(tokens[..|tokens| - 1]) + [Shown(tokens[|tokens| - 1])]
  }

  function Take(s: string, max: nat): string {
    if |s| <= max then s else s[..max]
  }

  predicate AllExcluded(tokens: seq<string>) {
    forall i :: 0 <= i < |tokens| ==> tokens[i] == EXCLUDED
  }

  /** What the filter returns: the tokens of the first `max` characters, those that it
      hides replaced, or a single placeholder when nothing else would be left. */
  function Sanitized(value: string, max: nat): string {
    var shown := ShownAll(Tokens(Take(value, max)));
    if AllExcluded(shown) then EXCLUDED else Join(shown, " ")
  }

  /** `sanitize_context_text`. It looks for something left to show in the rendered text,
      not in the list of tokens; that makes no difference. */
  method SanitizeContextText(value: string, max: nat) returns (r: string)
    ensures r == Sanitized(value, max)
  {
    var tokens := Tokens(Take(value, max));
    var output: seq<string> := [];
    for i := 0 to |tokens|
      invariant output == ShownAll(tokens[..i])
    {
      assert tokens[..i + 1][..i] == tokens[..i];
      if Filtered(tokens[i]) {
        output := output + [EXCLUDED];
      } else {
        output := output + [tokens[i]];
      }
    }
    assert tokens[..|tokens|] == tokens;
    var rendered := Join(output, " ");
    ShownIsSolid(tokens);
    TokensOfJoined(output);
    if AllExcluded(Tokens(rendered)) {
      return EXCLUDED;
    }
    return rendered;
  }

  lemma ExcludedIsSolid()
    ensures Solid(EXCLUDED)
  {
  }

  lemma ShownIsSolid(tokens: seq<string>)
    requires forall i :: 0 <= i < |tokens| ==> Solid(tokens[i])
    ensures forall i :: 0 <= i < |tokens| ==> Solid(ShownAll(tokens)[i])
  {
    ExcludedIsSolid();
  }

  // ---- What survives ----

  lemma TokensOfSanitized(value: string, max: nat)
    ensures var shown := ShownAll(Tokens(Take(value, max)));
            Tokens(Sanitized(value, max)) == if AllExcluded(shown) then [EXCLUDED] else shown
  {
    var tokens := Tokens(Take(value, max));
    ShownIsSolid(tokens);
    ExcludedIsSolid();
    TokensOfWord(EXCLUDED);
    TokensOfJoined(ShownAll(tokens));
  }

  /** The result is never blank, so the callers' tests for an empty one never succeed. */
  lemma SanitizedIsNeverBlank(value: string, max: nat)
    ensures Sanitized(value, max) != "" && !IsBlank(Sanitized(value, max))
  {
    var r := Sanitized(value, max);
    TokensOfSanitized(value, max);
    var first := Tokens(r)[0];
    TokensKeepCharacters(r, 0, first[0]);
    var i :| 0 <= i < |r| && r[i] == first[0];
    assert !IsWhitespace(r[i]);
  }

  /** A text is reduced to the placeholder exactly when every token within its first
      `max` characters is hidden or is the placeholder itself. */
  lemma ReducedToPlaceholderIff(value: string, max: nat)
    ensures Sanitized(value, max) == EXCLUDED <==>
              forall t :: t in Tokens(Take(value, max)) ==> Filtered(t) || t == EXCLUDED
  {
    hide Filtered, Tokens, Take, Join, Sanitized;
    var tokens := Tokens(Take(value, max));
    PlaceholderIff(value, max);
    AllExcludedIff(tokens);
  }

  lemma PlaceholderIff(value: string, max: nat)
    ensures Sanitized(value, max) == EXCLUDED <==> AllExcluded(ShownAll(Tokens(Take(value, max))))
  {
    hide Filtered, Tokens, Take, Join, ShownAll;
    TokensOfSanitized(value, max);
    ExcludedIsSolid();
    TokensOfWord(EXCLUDED);
  }

  lemma AllExcludedIff(tokens: seq<string>)
    ensures AllExcluded(ShownAll(tokens)) <==> forall t :: t in tokens ==> Filtered(t) || t == EXCLUDED
  {
    hide Filtered;
    var shown := ShownAll(tokens);
    if AllExcluded(shown) {
      forall t | t in tokens ensures Filtered(t) || t == EXCLUDED {
        var i :| 0 <= i < |tokens| && tokens[i] == t;
        assert shown[i] == EXCLUDED;
      }
    }
  }

  /** Which tokens are hidden: those that hold one of ten markers in whatever case, begin like a
      path or link to a file, or lead through a home or private directory. */
  lemma FilteredIff(token: string)
    ensures Filtered(token) <==>
              || Contains(Lower(token), "token") || Contains(Lower(token), "secret")
              || Contains(Lower(token), "password") || Contains(Lower(token), "authorization")
              || Contains(Lower(token), "cookie") || Contains(Lower(token), "api_key")
              || Contains(Lower(token), "apikey") || Contains(Lower(token), "passphrase")
              || Contains(Lower(token), "multaiplayerjoin=") || Contains(Lower(token), ".env")
              || StartsWith(token, "/") || StartsWith(token, "~/") || StartsWith(token, "file://")
              || Contains(token, "/Users/") || Contains(token, "/private/")
  {
    hide Contains, StartsWith;
  }

  /** What is shown: the tokens of the first `max` characters in their order, each as it is or
      as a placeholder, with single spaces; or one placeholder. */
  lemma SanitizedTells(value: string, max: nat)
    ensures var tokens := Tokens(if |value| <= max then value else value[..max]);
            exists shown: seq<string> ::
              && |shown| == |tokens|
              && (forall i :: 0 <= i < |tokens| ==> shown[i] == if Filtered(tokens[i]) then "[excluded]" else tokens[i])
              && Sanitized(value, max) == if forall i :: 0 <= i < |shown| ==> shown[i] == "[excluded]" then "[excluded]"
                                          else Join(shown, " ")
  {
    hide Filtered, Tokens, Join;
    var shown := ShownAll(Tokens(Take(value, max)));
    assert AllExcluded(shown) <==> forall i :: 0 <= i < |shown| ==> shown[i] == "[excluded]";
  }

  // ---- Texts none of whose tokens is hidden ----

  predicate Safe(s: string) {
    forall i :: 0 <= i < |Tokens(s)| ==> !Filtered(Tokens(s)[i])
  }

  lemma SafeConcatenation(a: string, b: string)
    requires Safe(a) && Safe(b) && Separated(a, b)
    ensures Safe(a + b)
  {
    TokensOfConcatenation(a, b);
  }

  lemma LongerPath(token: string, longer: string)
    requires |token| <= |longer| && token == longer[..|token|] && LocalPath(token)
    ensures LocalPath(longer)
  {
    if p :| p in PATH_STARTS && StartsWith(token, p) {
      assert token[..|p|] == longer[..|p|];
      assert StartsWith(longer, p);
    } else {
      var p :| p in PATH_PARTS && Contains(token, p);
      OccurrenceInLonger(token, longer, p);
    }
  }

  lemma LongerSecret(token: string, longer: string)
    requires |token| <= |longer| && token == longer[..|token|] && SecretLike(token)
    ensures SecretLike(longer)
  {
    var m :| m in MARKERS && Contains(Lower(token), m);
    assert Lower(token) == Lower(longer)[..|token|];
    OccurrenceInLonger(Lower(token), Lower(longer), m);
  }

  /** A token that is not hidden has no hidden prefix. */
  lemma PrefixOfShownIsShown(token: string, longer: string)
    requires |token| <= |longer| && token == longer[..|token|] && !Filtered(longer)
    ensures !Filtered(token)
  {
    if SecretLike(token) { LongerSecret(token, longer); }
    if LocalPath(token) { LongerPath(token, longer); }
  }

  lemma PatternsDoNotEndIn(c: char)
    requires c == ':' || c == ','
    ensures forall m :: m in MARKERS ==> m != "" && m[|m| - 1] != c
    ensures forall p :: p in PATH_STARTS ==> p != "" && p[|p| - 1] != c
    ensures forall p :: p in PATH_PARTS ==> p != "" && p[|p| - 1] != c
  {
  }

  lemma PunctuatedPath(token: string, c: char)
    requires (c == ':' || c == ',') && LocalPath(token + [c])
    ensures LocalPath(token)
  {
    PatternsDoNotEndIn(c);
    if p :| p in PATH_STARTS && StartsWith(token + [c], p) {
      PunctuatedStart(token, c, p);
    } else {
      var p :| p in PATH_PARTS && Contains(token + [c], p);
      OccurrenceBeforeEnd(token, c, p);
    }
  }

  lemma PunctuatedStart(token: string, c: char, p: string)
    requires p != "" && p[|p| - 1] != c && StartsWith(token + [c], p)
    ensures StartsWith(token, p)
  {
    var longer := token + [c];
    assert longer[..|p|][|p| - 1] == longer[|p| - 1];
    assert |p| <= |token|;
    assert token[..|p|] == longer[..|p|];
  }

  lemma PunctuatedSecret(token: string, c: char)
    requires (c == ':' || c == ',') && SecretLike(token + [c])
    ensures SecretLike(token)
  {
    PatternsDoNotEndIn(c);
    var m :| m in MARKERS && Contains(Lower(token + [c]), m);
    PunctuatedMarker(token, c, m);
  }

  lemma PunctuatedMarker(token: string, c: char, m: string)
    requires (c == ':' || c == ',') && m != "" && m[|m| - 1] != c && Contains(Lower(token + [c]), m)
    ensures Contains(Lower(token), m)
  {
    assert Lower(token + [c]) == Lower(token) + [c];
    OccurrenceBeforeEnd(Lower(token), c, m);
  }

  lemma EmptyIsShown()
    ensures !Filtered("")
  {
    PlainIsShown("", 's');
  }

  /** A colon or comma behind a safe text leaves it safe, even one that begins a token. */
  lemma SafePunctuated(s: string, c: char)
    requires Safe(s) && (c == ':' || c == ',')
    ensures Safe(s + [c])
  {
    hide Filtered, Tokens;
    TokensOfLonger(s, c);
    var last := if EndsInWord(s) then Tokens(s)[|Tokens(s)| - 1] else "";
    assert !Filtered(last) by { EmptyIsShown(); }
    assert !Filtered(last + [c]) by { PunctuatedIsShown(last, c); }
    assert "" + [c] == [c];
  }

  lemma PunctuatedIsShown(token: string, c: char)
    requires !Filtered(token) && (c == ':' || c == ',')
    ensures !Filtered(token + [c])
  {
    if SecretLike(token + [c]) { PunctuatedSecret(token, c); }
    if LocalPath(token + [c]) { PunctuatedPath(token, c); }
  }

  lemma ShorterIsSafe(s: string)
    requires s != "" && Safe(s)
    ensures Safe(s[..|s| - 1])
  {
    hide Filtered, Tokens;
    var front, c := s[..|s| - 1], s[|s| - 1];
    assert s == front + [c];
    TokensOfLonger(front, c);
    var before := Tokens(front);
    forall i | 0 <= i < |before| ensures !Filtered(before[i]) {
      assert |Tokens(s)| >= |before| && |Tokens(s)[i]| >= |before[i]| && Tokens(s)[i][..|before[i]|] == before[i];
      PrefixOfShownIsShown(before[i], Tokens(s)[i]);
    }
  }

  /** Cutting a safe text anywhere, even inside a token, leaves it safe. */
  lemma {:induction false} SafePrefix(s: string, n: nat)
    requires n <= |s| && Safe(s)
    ensures Safe(s[..n])
    decreases |s|
  {
    if n < |s| {
      ShorterIsSafe(s);
      SafePrefix(s[..|s| - 1], n);
      assert s[..|s| - 1][..n] == s[..n];
    } else {
      assert s[..n] == s;
    }
  }

  // ---- Fixed texts are safe ----

  /** Every marker has a letter that the text lacks (`odd` is one of `secret`), and the
      text has no slash. */
  predicate Plain(s: string, odd: char) {
    && odd in "secret"
    && forall i :: 0 <= i < |s| ==>
         s[i] != '/' && LowerChar(s[i]) !in {'k', 'w', 'z', 'h', '=', '.'} && LowerChar(s[i]) != odd
  }

  lemma MarkersNeedLetters(m: string, odd: char)
    requires m in MARKERS && odd in "secret"
    ensures exists k :: 0 <= k < |m| && m[k] in {'k', 'w', 'z', 'h', '=', '.', odd}
  {
    var k := if m == "token" then 2 else if m == "password" then 4 else if m == "authorization" then 7
             else if m == "cookie" then 3 else if m == "api_key" then 4 else if m == "apikey" then 3
             else if m == "passphrase" then 5 else if m == "multaiplayerjoin=" then 16 else 0;
    if m != "secret" {
      assert m[k] in {'k', 'w', 'z', 'h', '=', '.'};
    } else {
      var j :| 0 <= j < |m| && m[j] == odd;
    }
  }

  lemma PlainIsShown(token: string, odd: char)
    requires Plain(token, odd)
    ensures !Filtered(token)
  {
    if m :| m in MARKERS && Contains(Lower(token), m) {
      MarkersNeedLetters(m, odd);
      var k :| 0 <= k < |m| && m[k] in {'k', 'w', 'z', 'h', '=', '.', odd};
      OccurrenceHasCharacters(Lower(token), m, k);
    }
    forall p | p in PATH_STARTS ensures !StartsWith(token, p) {
      if |p| <= |token| {
        assert token[..|p|][|p| - 1] == token[|p| - 1] != '/';
        assert p[|p| - 1] == '/';
      }
    }
    if p :| p in PATH_PARTS && Contains(token, p) {
      OccurrenceHasCharacters(token, p, 0);
    }
  }

  lemma PlainIsSafe(s: string, odd: char)
    requires Plain(s, odd)
    ensures Safe(s)
  {
    hide Filtered, Tokens;
    forall i | 0 <= i < |Tokens(s)| ensures !Filtered(Tokens(s)[i]) {
      var token := Tokens(s)[i];
      forall k | 0 <= k < |token| ensures token[k] in s {
        TokensKeepCharacters(s, i, token[k]);
      }
      PlainIsShown(token, odd);
    }
  }

  lemma PlaceholderIsShown()
    ensures !Filtered(EXCLUDED)
  {
    assert Plain(EXCLUDED, 's');
    PlainIsShown(EXCLUDED, 's');
  }

  /** Nothing that passed the filter holds a token that it hides. */
  lemma SanitizedIsSafe(value: string, max: nat)
    ensures Safe(Sanitized(value, max))
  {
    hide Filtered, Tokens, Sanitized;
    TokensOfSanitized(value, max);
    PlaceholderIsShown();
  }

  /** Filtering again, with room for the text, changes nothing. */
  lemma SanitizedTwice(value: string, max: nat, again: nat)
    requires |Sanitized(value, max)| <= again
    ensures Sanitized(Sanitized(value, max), again) == Sanitized(value, max)
  {
    hide Filtered;
    SanitizedIsSafe(value, max);
    TokensOfSanitized(value, max);
    var first := Sanitized(value, max);
    assert ShownAll(Tokens(first)) == Tokens(first);
  }
}
