/** Base64 with the URL-safe alphabet and no padding (section 5 of RFC 4648). */
module Base64 {
  import opened Basics
  import opened Text

  type Byte = x: int | 0 <= x < 256

  function Digit(n: int): (c: char)
    requires 0 <= n < 64
  {
    if n < 26 then ('A' as int + n) as char
    else if n < 52 then ('a' as int + (n - 26)) as char
    else if n < 62 then ('0' as int + (n - 52)) as char
    else if n == 62 then '-' else '_'
  }

  function Value(c: char): (n: int)
    requires IsTokenChar(c)
    ensures 0 <= n < 64 && Digit(n) == c
  {
    if 'A' <= c <= 'Z' then c as int - 'A' as int
    else if 'a' <= c <= 'z' then c as int - 'a' as int + 26
    else if '0' <= c <= '9' then c as int - '0' as int + 52
    else if c == '-' then 62 else 63
  }

  lemma DigitHasValue(n: int)
    requires 0 <= n < 64
    ensures IsTokenChar(Digit(n)) && Value(Digit(n)) == n
  {
  }

  // Four digits of six bits hold three bytes of eight.

  function First(a: Byte): (n: int) ensures 0 <= n < 64 { a / 4 }

  function Second(a: Byte, b: Byte): (n: int) ensures 0 <= n < 64 { a % 4 * 16 + b / 16 }

  function Third(b: Byte, c: Byte): (n: int) ensures 0 <= n < 64 { b % 16 * 4 + c / 64 }

  function Fourth(c: Byte): (n: int) ensures 0 <= n < 64 { c % 64 }

  function Encode(bytes: seq<Byte>): string {
    if bytes == [] then ""
    else if |bytes| == 1 then [Digit(First(bytes[0])), Digit(Second(bytes[0], 0))]
    else if |bytes| == 2 then [Digit(First(bytes[0])), Digit(Second(bytes[0], bytes[1])), Digit(Third(bytes[1], 0))]
    else
      [Digit(First(bytes[0])), Digit(Second(bytes[0], bytes[1])), Digit(Third(bytes[1], bytes[2])),
       Digit(Fourth(bytes[2]))] + Encode(bytes[3..])
  }

  lemma OnlyNothingIsEmpty(bytes: seq<Byte>)
    ensures Encode(bytes) == "" <==> bytes == []
  {
    hide Digit;
  }

  predicate InSix(n: int) { 0 <= n < 64 }

  function FirstByte(p: int, q: int): Byte requires InSix(p) && InSix(q) { p * 4 + q / 16 }

  function SecondByte(q: int, r: int): Byte requires InSix(q) && InSix(r) { q % 16 * 16 + r / 4 }

  function ThirdByte(r: int, s: int): Byte requires InSix(r) && InSix(s) { r % 4 * 64 + s }

  /** Bits of the last digit that no byte uses must be zero. */
  function Decode(s: string): Option<seq<Byte>>
    requires AllTokenChars(s)
  {
    if s == "" then Some([])
    else if |s| == 1 then None
    else if |s| == 2 then
      if Value(s[1]) % 16 == 0 then Some([FirstByte(Value(s[0]), Value(s[1]))]) else None
    else if |s| == 3 then
      if Value(s[2]) % 4 == 0
      then Some([FirstByte(Value(s[0]), Value(s[1])), SecondByte(Value(s[1]), Value(s[2]))]) else None
    else
      match Decode(s[4..])
      case Some(rest) =>
        Some([FirstByte(Value(s[0]), Value(s[1])), SecondByte(Value(s[1]), Value(s[2])),
              ThirdByte(Value(s[2]), Value(s[3]))] + rest)
      case None => None
  }

  lemma BytesReturn(a: Byte, b: Byte, c: Byte)
    ensures FirstByte(First(a), Second(a, b)) == a
    ensures SecondByte(Second(a, b), Third(b, c)) == b
    ensures ThirdByte(Third(b, c), Fourth(c)) == c
    ensures Second(a, 0) % 16 == 0 && Third(b, 0) % 4 == 0
  {
  }

  lemma DigitsReturn(p: int, q: int, r: int, s: int)
    requires InSix(p) && InSix(q) && InSix(r) && InSix(s)
    ensures First(FirstByte(p, q)) == p
    ensures Second(FirstByte(p, q), SecondByte(q, r)) == q
    ensures Third(SecondByte(q, r), ThirdByte(r, s)) == r
    ensures Fourth(ThirdByte(r, s)) == s
    ensures q % 16 == 0 ==> Second(FirstByte(p, q), 0) == q
    ensures r % 4 == 0 ==> Third(SecondByte(q, r), 0) == r
  {
  }

  /** The alphabet, in the order of its values (table 2 of RFC 4648). */
  lemma Alphabet(n: int)
    requires 0 <= n < 64
    ensures Digit(n) == if n < 26 then CAPITALS[n] else if n < 52 then SMALL[n - 26]
                        else if n < 62 then NUMBERS[n - 52] else "-_"[n - 62]
  {
    LettersInOrder(if n < 26 then n else if n < 52 then n - 26 else n - 52);
  }

  /** Digits carry the bits of the bytes in order, the first byte highest. */
  lemma BitsInOrder(a: Byte, b: Byte, c: Byte)
    ensures First(a) * 262_144 + Second(a, b) * 4_096 + Third(b, c) * 64 + Fourth(c) == a * 65_536 + b * 256 + c
    ensures |Encode([a, b, c])| == 4 && |Encode([a, b])| == 3 && |Encode([a])| == 2
  {
  }

  /** Decoding undoes encoding. */
  lemma {:induction false} EncodedDecodes(bytes: seq<Byte>)
    ensures AllTokenChars(Encode(bytes)) && Decode(Encode(bytes)) == Some(bytes)
  {
    hide Digit, Value, First, Second, Third, Fourth, FirstByte, SecondByte, ThirdByte;
    if bytes != [] {
      var a := bytes[0];
      var b: Byte := if |bytes| > 1 then bytes[1] else 0;
      var c: Byte := if |bytes| > 2 then bytes[2] else 0;
      DigitHasValue(First(a));
      DigitHasValue(Second(a, b));
      DigitHasValue(Third(b, c));
      DigitHasValue(Fourth(c));
      BytesReturn(a, b, c);
      if |bytes| == 1 {
        assert bytes == [a];
      } else if |bytes| == 2 {
        assert bytes == [a, b];
      } else {
        EncodedDecodes(bytes[3..]);
        assert Encode(bytes)[4..] == Encode(bytes[3..]);
        assert bytes == [a, b, c] + bytes[3..];
      }
    }
  }

  /** Nothing but an encoding decodes: every value has one text only. */
  lemma {:induction false} DecodedEncodes(s: string)
    requires AllTokenChars(s) && Decode(s).Some?
    ensures Encode(Decode(s).value) == s
  {
    hide Digit, First, Second, Third, Fourth, FirstByte, SecondByte, ThirdByte;
    if s != "" {
      var r := if |s| > 2 then Value(s[2]) else 0;
      var t := if |s| > 3 then Value(s[3]) else 0;
      DigitsReturn(Value(s[0]), Value(s[1]), r, t);
      if |s| == 2 {
        assert s == [s[0], s[1]];
      } else if |s| == 3 {
        assert s == [s[0], s[1], s[2]];
      } else {
        DecodedEncodes(s[4..]);
        assert Decode(s).value[3..] == Decode(s[4..]).value;
        assert s == [s[0], s[1], s[2], s[3]] + s[4..];
      }
    }
  }
}
