/** Characters and text as the standard library of the client's language sees them. */
module Text {
  import opened Basics

  /** Unicode `White_Space`. */
  predicate IsWhitespace(c: char) {
    var n := c as int;
    || 0x09 <= n <= 0x0D || n == 0x20 || n == 0x85 || n == 0xA0 || n == 0x1680 || 0x2000 <= n <= 0x200A
    || n == 0x2028 || n == 0x2029 || n == 0x202F || n == 0x205F || n == 0x3000
  }

  /** `trim().is_empty()`. */
  predicate IsBlank(s: string) {
    forall i :: 0 <= i < |s| ==> IsWhitespace(s[i])
  }

  predicate Solid(s: string) {
    s != "" && forall i :: 0 <= i < |s| ==> !IsWhitespace(s[i])
  }

  predicate IsControl(c: char) { c as int < 0x20 || 0x7F <= c as int < 0xA0 }

  predicate NoControl(s: string) { forall i :: 0 <= i < |s| ==> !IsControl(s[i]) }

  predicate IsAlphanumeric(c: char) { '0' <= c <= '9' || 'a' <= c <= 'z' || 'A' <= c <= 'Z' }

  predicate IsTokenChar(c: char) { IsAlphanumeric(c) || c == '-' || c == '_' }

  predicate AllTokenChars(s: string) { forall i :: 0 <= i < |s| ==> IsTokenChar(s[i]) }

  /** The test that the engine and its store put ids and handles to. */
  predicate ValidToken(id: string) { 0 < |id| <= 128 && AllTokenChars(id) }

  // ---- Words ----

  predicate EndsInWord(s: string) { s != "" && !IsWhitespace(s[|s| - 1]) }

  /** Whitespace ends a token; any other character begins one or extends the last. */
  function Extend(tokens: seq<string>, continues: bool, c: char): seq<string>
    requires continues ==> tokens != []
  {
    if IsWhitespace(c) then tokens
    else if continues then tokens[..|tokens| - 1] + [tokens[|tokens| - 1] + [c]]
    else tokens + [[c]]
  }

  /** `split_whitespace`. */
  function Tokens(s: string): (r: seq<string>)
    ensures forall i :: 0 <= i < |r| ==> Solid(r[i])
    ensures EndsInWord(s) ==> r != []
  {
    if s == "" then []
    else
      var front := s[..|s| - 1];
      Extend(Tokens(front), EndsInWord(front), s[|s| - 1])
  }

  /** `join`. */
  function Join(parts: seq<string>, separator: string): string {
    if parts == [] then ""
    else if |parts| == 1 then parts[0]
    else Join(parts[..|parts| - 1], separator) + separator + parts[|parts| - 1]
  }

  predicate Separated(a: string, b: string) {
    a == "" || b == "" || IsWhitespace(a[|a| - 1]) || IsWhitespace(b[0])
  }

  lemma TokensOfLonger(s: string, c: char)
    ensures EndsInWord(s) ==> Tokens(s) != []
    ensures Tokens(s + [c]) == Extend(Tokens(s), EndsInWord(s), c)
  {
    assert (s + [c])[..|s|] == s;
  }

  lemma {:induction false} TokensOfConcatenation(a: string, b: string)
    requires Separated(a, b)
    ensures Tokens(a + b) == Tokens(a) + Tokens(b)
    decreases |b|
  {
    hide Tokens, IsWhitespace;
    if b == "" {
      assert a + b == a;
      NoTokens();
    } else {
      var front, c := b[..|b| - 1], b[|b| - 1];
      TokensOfConcatenation(a, front);
      assert b == front + [c] && a + b == (a + front) + [c];
      TokensOfLonger(front, c);
      TokensOfLonger(a + front, c);
      ExtendAfter(Tokens(a), Tokens(front), EndsInWord(front), c);
    }
  }

  lemma NoTokens()
    ensures Tokens("") == []
  {
  }

  lemma ExtendAfter(before: seq<string>, tokens: seq<string>, continues: bool, c: char)
    requires continues ==> tokens != []
    ensures Extend(before + tokens, continues, c) == before + Extend(tokens, continues, c)
  {
  }

  lemma {:induction false} TokensOfWord(word: string)
    requires Solid(word)
    ensures Tokens(word) == [word]
  {
    if |word| > 1 {
      TokensOfWord(word[..|word| - 1]);
      assert word == word[..|word| - 1] + [word[|word| - 1]];
    } else {
      assert Tokens(word[..0]) == [];
      assert word == [word[0]];
    }
  }

  lemma AppendedWord(s: string, word: string)
    requires Solid(word)
    ensures Tokens(s + " " + word) == Tokens(s) + [word]
  {
    TokensOfWord(word);
    TokensOfLonger(s, ' ');
    TokensOfConcatenation(s + " ", word);
  }

  /** Joining solid words with a space and splitting returns the words. */
  lemma {:induction false} TokensOfJoined(words: seq<string>)
    requires forall i :: 0 <= i < |words| ==> Solid(words[i])
    ensures Tokens(Join(words, " ")) == words
  {
    hide Tokens, Solid;
    NoTokens();
    if |words| == 1 {
      TokensOfWord(words[0]);
    } else if words != [] {
      var front, last := words[..|words| - 1], words[|words| - 1];
      TokensOfJoined(front);
      AppendedWord(Join(front, " "), last);
    }
  }

  lemma {:induction false} TokensKeepCharacters(s: string, i: nat, c: char)
    requires i < |Tokens(s)| && c in Tokens(s)[i]
    ensures c in s
  {
    if s != "" {
      var before := Tokens(s[..|s| - 1]);
      if c != s[|s| - 1] {
        assert i < |before| && c in before[i];
        TokensKeepCharacters(s[..|s| - 1], i, c);
      }
    }
  }

  // ---- Splitting at a character ----

  /** `split`: always at least one part, and none holds the separator. */
  function Split(s: string, c: char): (r: seq<string>)
    ensures r != [] && forall i :: 0 <= i < |r| ==> c !in r[i]
  {
    if s == "" then [""]
    else
      var before, last := Split(s[..|s| - 1], c), s[|s| - 1];
      if last == c then before + [""]
      else before[..|before| - 1] + [before[|before| - 1] + [last]]
  }

  lemma SplitOfLonger(s: string, last: char, c: char)
    ensures var before := Split(s, c);
            Split(s + [last], c) == if last == c then before + [""]
                                    else before[..|before| - 1] + [before[|before| - 1] + [last]]
  {
    assert (s + [last])[..|s|] == s;
  }

  lemma {:induction false} SplitOfPart(part: string, c: char)
    requires c !in part
    ensures Split(part, c) == [part]
  {
    if part != "" {
      SplitOfPart(part[..|part| - 1], c);
      assert part == part[..|part| - 1] + [part[|part| - 1]];
    }
  }

  lemma {:induction false} SplitOfAppended(s: string, part: string, c: char)
    requires c !in part
    ensures Split(s + [c] + part, c) == Split(s, c) + [part]
    decreases |part|
  {
    if part == "" {
      assert s + [c] + part == s + [c];
      SplitOfLonger(s, c, c);
    } else {
      var front, last := part[..|part| - 1], part[|part| - 1];
      SplitOfAppended(s, front, c);
      assert part == front + [last] && s + [c] + part == s + [c] + front + [last];
      SplitOfLonger(s + [c] + front, last, c);
    }
  }

  lemma {:induction false} SplitOfJoined(parts: seq<string>, c: char)
    requires parts != [] && forall i :: 0 <= i < |parts| ==> c !in parts[i]
    ensures Split(Join(parts, [c]), c) == parts
  {
    hide Split;
    if |parts| == 1 {
      SplitOfPart(parts[0], c);
    } else {
      SplitOfJoined(parts[..|parts| - 1], c);
      SplitOfAppended(Join(parts[..|parts| - 1], [c]), parts[|parts| - 1], c);
    }
  }

  lemma JoinOfLonger(parts: seq<string>, separator: string, x: char)
    requires parts != []
    ensures Join(parts[..|parts| - 1] + [parts[|parts| - 1] + [x]], separator) == Join(parts, separator) + [x]
    ensures Join(parts + [""], separator) == Join(parts, separator) + separator
  {
    var front := parts[..|parts| - 1];
    assert (front + [parts[|parts| - 1] + [x]])[..|parts| - 1] == front;
    assert (parts + [""])[..|parts|] == parts;
  }

  /** Splitting loses nothing. */
  lemma {:induction false} JoinOfSplit(s: string, c: char)
    ensures Join(Split(s, c), [c]) == s
  {
    hide Join;
    if s != "" {
      JoinOfSplit(s[..|s| - 1], c);
      JoinOfLonger(Split(s[..|s| - 1], c), [c], s[|s| - 1]);
      assert s == s[..|s| - 1] + [s[|s| - 1]];
    } else {
      JoinOfOne("", [c]);
    }
  }

  lemma JoinOfOne(part: string, separator: string)
    ensures Join([part], separator) == part
  {
  }

  /** `split_once`, by the first separator. */
  function SplitOnce(s: string, c: char): (r: (string, Option<string>))
    ensures c !in r.0
    ensures match r.1 case None => s == r.0 case Some(rest) => s == r.0 + [c] + rest
  {
    if s == "" then ("", None)
    else if s[0] == c then ("", Some(s[1..]))
    else
      var (key, rest) := SplitOnce(s[1..], c);
      ([s[0]] + key, rest)
  }

  lemma {:induction false} SplitOnceAt(key: string, c: char, rest: string)
    requires c !in key
    ensures SplitOnce(key + [c] + rest, c) == (key, Some(rest))
  {
    var s := key + [c] + rest;
    if key != "" {
      SplitOnceAt(key[1..], c, rest);
      assert s[1..] == key[1..] + [c] + rest;
      assert key == [key[0]] + key[1..];
    } else {
      assert s[1..] == rest;
    }
  }

  /** The length of the UTF-8 encoding. */
  function Utf8Length(s: string): nat {
    if s == "" then 0
    else
      var n := s[0] as int;
      (if n < 0x80 then 1 else if n < 0x800 then 2 else if n < 0x1_0000 then 3 else 4) + Utf8Length(s[1..])
  }

  /** One byte holds 7 bits of a character, two 11, three 16 and four the rest (section 3 of RFC 3629). */
  lemma Utf8OfOne(c: char)
    ensures Utf8Length([c]) == 1 <==> c as int <= 0x7F
    ensures Utf8Length([c]) == 2 <==> 0x80 <= c as int <= 0x7FF
    ensures Utf8Length([c]) == 3 <==> 0x800 <= c as int <= 0xFFFF
    ensures Utf8Length([c]) == 4 <==> 0x1_0000 <= c as int
  {
    assert Utf8Length([c][1..]) == 0;
  }

  lemma {:induction false} Utf8Adds(s: string, t: string)
    ensures Utf8Length(s + t) == Utf8Length(s) + Utf8Length(t)
  {
    if s != "" {
      Utf8Adds(s[1..], t);
      assert (s + t)[1..] == s[1..] + t;
    } else {
      assert s + t == t;
    }
  }

  const WHITE_SPACE := "\t\n\U{B}\U{C}\r \U{85}\U{A0}\U{1680}\U{2000}\U{2001}\U{2002}\U{2003}\U{2004}\U{2005}\U{2006}"
    + "\U{2007}\U{2008}\U{2009}\U{200A}\U{2028}\U{2029}\U{202F}\U{205F}\U{3000}"

  lemma CharacterTells(c: char)
    ensures IsWhitespace(c) <==> c in WHITE_SPACE
    ensures IsControl(c) <==> c as int in {0x7F} || c as int <= 0x1F || 0x80 <= c as int <= 0x9F
  {
    var n := c as int;
    if IsWhitespace(c) {
      var i := if n <= 0x0D then n - 9 else if n == 0x20 then 5 else if n == 0x85 then 6 else if n == 0xA0 then 7
               else if n == 0x1680 then 8 else if n <= 0x200A then n - 0x2000 + 9
               else if n <= 0x2029 then n - 0x2028 + 20 else if n == 0x202F then 22 else if n == 0x205F then 23 else 24;
      assert WHITE_SPACE[i] == c;
    }
  }

  /** The texts without control characters are the empty one and what they grow to. */
  lemma NoControlTells(s: string, t: string, c: char)
    ensures NoControl("") && (NoControl([c]) <==> !IsControl(c))
    ensures NoControl(s + t) <==> NoControl(s) && NoControl(t)
  {
    var r := s + t;
    assert NoControl([c]) ==> !IsControl([c][0]);
    if NoControl(r) {
      forall i | 0 <= i < |s| ensures !IsControl(s[i]) { assert r[i] == s[i]; }
      forall i | 0 <= i < |t| ensures !IsControl(t[i]) { assert r[|s| + i] == t[i]; }
    }
  }

  // ---- Search ----

  predicate StartsWith(s: string, prefix: string) {
    |prefix| <= |s| && s[..|prefix|] == prefix
  }

  predicate OccursAt(s: string, part: string, i: int) {
    0 <= i <= |s| - |part| && s[i..i + |part|] == part
  }

  predicate Contains(s: string, part: string) {
    exists i :: 0 <= i <= |s| && OccursAt(s, part, i)
  }

  function LowerChar(c: char): char {
    if 'A' <= c <= 'Z' then (c as int + 32) as char else c
  }

  /** `to_ascii_lowercase`. */
  function Lower(s: string): (r: string)
    ensures |r| == |s|
    ensures forall i :: 0 <= i < |s| ==> r[i] == LowerChar(s[i])
  {
    seq(|s|, i requires 0 <= i < |s| => LowerChar(s[i]))
  }

  lemma StartsWithIff(s: string, prefix: string)
    ensures StartsWith(s, prefix) <==> exists rest :: s == prefix + rest
  {
    if StartsWith(s, prefix) { assert s == prefix + s[|prefix|..]; }
  }

  lemma ContainsIff(s: string, part: string)
    ensures Contains(s, part) <==> exists before, after :: s == before + part + after
  {
    if i :| 0 <= i <= |s| && OccursAt(s, part, i) {
      assert s == s[..i] + part + s[i + |part|..];
    }
    forall before, after | s == before + part + after ensures Contains(s, part) {
      assert s[|before|..|before| + |part|] == part;
      assert OccursAt(s, part, |before|);
    }
  }

  const CAPITALS := "ABCDEFGHIJKLMNOPQRSTUVWXYZ"
  const SMALL := "abcdefghijklmnopqrstuvwxyz"
  const NUMBERS := "0123456789"

  lemma LettersInOrder(n: nat)
    ensures n < 26 ==> CAPITALS[n] == ('A' as int + n) as char && SMALL[n] == ('a' as int + n) as char
    ensures n < 10 ==> NUMBERS[n] == ('0' as int + n) as char
  {
  }

  /** Only the 26 capital letters change, each into its own small letter. */
  lemma LowerTells(c: char)
    ensures forall i :: 0 <= i < 26 && c == CAPITALS[i] ==> LowerChar(c) == SMALL[i]
    ensures c !in CAPITALS ==> LowerChar(c) == c
  {
    forall i: nat | i < 26 && c == CAPITALS[i] ensures LowerChar(c) == SMALL[i] { LettersInOrder(i); }
    if 'A' <= c <= 'Z' { LettersInOrder(c as int - 'A' as int); }
  }

  lemma TokenCharTells(c: char)
    ensures IsAlphanumeric(c) <==> c in CAPITALS || c in SMALL || c in NUMBERS
    ensures IsTokenChar(c) <==> IsAlphanumeric(c) || c in "-_"
  {
    if 'A' <= c <= 'Z' { LettersInOrder(c as int - 'A' as int); }
    if 'a' <= c <= 'z' { LettersInOrder(c as int - 'a' as int); }
    if '0' <= c <= '9' { LettersInOrder(c as int - '0' as int); }
    if i :| 0 <= i < 26 && CAPITALS[i] == c { LettersInOrder(i); }
    if i :| 0 <= i < 26 && SMALL[i] == c { LettersInOrder(i); }
    if i :| 0 <= i < 10 && NUMBERS[i] == c { LettersInOrder(i); }
  }

  lemma ValidTokenTells(id: string)
    ensures ValidToken(id) <==> 1 <= |id| < 129 && forall c :: c in id ==> c in CAPITALS + SMALL + NUMBERS + "-_"
  {
    forall c | c in id ensures IsTokenChar(c) <==> c in CAPITALS + SMALL + NUMBERS + "-_" { TokenCharTells(c); }
  }

  lemma OccurrenceInLonger(s: string, t: string, part: string)
    requires |s| <= |t| && s == t[..|s|] && Contains(s, part)
    ensures Contains(t, part)
  {
    var i :| 0 <= i <= |s| && OccursAt(s, part, i);
    assert t[i..i + |part|] == s[i..i + |part|];
    assert OccursAt(t, part, i);
  }

  lemma OccurrenceBeforeEnd(s: string, c: char, part: string)
    requires part != "" && part[|part| - 1] != c && Contains(s + [c], part)
    ensures Contains(s, part)
  {
    var t := s + [c];
    var i :| 0 <= i <= |t| && OccursAt(t, part, i);
    assert t[i..i + |part|][|part| - 1] == t[i + |part| - 1];
    assert i + |part| <= |s|;
    assert s[i..i + |part|] == t[i..i + |part|];
    assert OccursAt(s, part, i);
  }

  lemma OccurrenceHasCharacters(s: string, part: string, k: nat)
    requires Contains(s, part) && k < |part|
    ensures part[k] in s
  {
    var i :| 0 <= i <= |s| && OccursAt(s, part, i);
    assert s[i..i + |part|][k] == s[i + k];
  }
}
