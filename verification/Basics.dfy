/** Options, results, sequences without repetition and the order of strings. */
module Basics {

  datatype Option<+T> = None | Some(value: T)

  datatype Result<+T, +E> = Ok(value: T) | Err(error: E)

  // ---- Sequences ----

  predicate Distinct<T(==)>(s: seq<T>) {
    forall i, j :: 0 <= i < j < |s| ==> s[i] != s[j]
  }

  /** The last `n` elements, or all of them when there are fewer. */
  function Last<T>(n: nat, s: seq<T>): (r: seq<T>)
    ensures |r| == if |s| <= n then |s| else n
  {
    if |s| <= n then s else s[|s| - n..]
  }

  lemma LastHolds<T>(n: nat, s: seq<T>, i: nat)
    requires i < |s| <= i + n
    ensures s[i] in Last(n, s)
  {
    assert Last(n, s)[i - (|s| - |Last(n, s)|)] == s[i];
  }

  function ToSet<T>(s: seq<T>): set<T> {
    set x | x in s
  }

  lemma DistinctAppend<T>(s: seq<T>, x: T)
    requires Distinct(s) && x !in s
    ensures Distinct(s + [x])
  {
  }

  lemma DistinctSize<T>(s: seq<T>)
    requires Distinct(s)
    ensures |ToSet(s)| == |s|
  {
    if s == [] {
      assert ToSet(s) == {};
    } else {
      var front := s[..|s| - 1];
      DistinctSize(front);
      assert s == front + [s[|s| - 1]];
      assert ToSet(s) == ToSet(front) + {s[|s| - 1]};
    }
  }

  // ---- The order of strings, character by character ----

  predicate Less(a: string, b: string) {
    if b == "" then false
    else if a == "" then true
    else a[0] < b[0] || (a[0] == b[0] && Less(a[1..], b[1..]))
  }

  predicate AtMost(a: string, b: string) {
    a == b || Less(a, b)
  }

  lemma {:induction false} LessIsTotal(a: string, b: string)
    ensures a == b || Less(a, b) || Less(b, a)
    decreases |a|
  {
    if a != "" && b != "" {
      LessIsTotal(a[1..], b[1..]);
      assert a == [a[0]] + a[1..] && b == [b[0]] + b[1..];
    }
  }

  lemma {:induction false} LessIsAsymmetric(a: string, b: string)
    requires Less(a, b)
    ensures !Less(b, a) && a != b
    decreases |a|
  {
    if a != "" && a[0] == b[0] {
      LessIsAsymmetric(a[1..], b[1..]);
    }
  }

  lemma {:induction false} LessIsTransitive(a: string, b: string, c: string)
    requires Less(a, b) && Less(b, c)
    ensures Less(a, c)
    decreases |a|
  {
    if a != "" && a[0] == b[0] == c[0] {
      LessIsTransitive(a[1..], b[1..], c[1..]);
    }
  }

  lemma {:induction false} LessAtCut(a: string, b: string, cut: nat)
    requires cut <= |a| && cut <= |b|
    ensures Less(a, b) <==>
              Less(a[..cut], b[..cut]) || (a[..cut] == b[..cut] && Less(a[cut..], b[cut..]))
    decreases cut
  {
    if cut == 0 {
      assert a[0..] == a && b[0..] == b;
    } else {
      LessAtCut(a[1..], b[1..], cut - 1);
      assert a[1..][..cut - 1] == a[..cut][1..] && b[1..][..cut - 1] == b[..cut][1..];
      assert a[1..][cut - 1..] == a[cut..] && b[1..][cut - 1..] == b[cut..];
      assert a[..cut] == [a[0]] + a[..cut][1..] && b[..cut] == [b[0]] + b[..cut][1..];
    }
  }
}
