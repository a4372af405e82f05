/** String helpers that JavaScript provides natively: decimal rendering of numbers in
    template literals, `startsWith`/`endsWith`/`includes`, and `join`. */
module Strings {
  import opened Wrappers

  predicate IsDigit(c: char)
  {
    '0' <= c <= '9'
  }

  predicate AllDigits(s: string)
  {
    forall i :: 0 <= i < |s| ==> IsDigit(s[i])
  }

  function DigitChar(d: nat): (c: char)
    requires d < 10
    ensures IsDigit(c)
  {
    (48 + d) as char
  }

  function DigitValue(c: char): nat
    requires IsDigit(c)
  {
    c as int - 48
  }

  /** The decimal text of a non-negative integer, as `${n}` renders an integral number. */
  function NatToString(n: nat): (s: string)
    ensures s != [] && AllDigits(s)
    ensures s[0] == '0' <==> n == 0
  {
    if n < 10 then [DigitChar(n)] else NatToString(n / 10) + [DigitChar(n % 10)]
  }

  /** Reads back a run of decimal digits. */
  function DecimalValue(s: string): nat
    requires AllDigits(s)
  {
    if s == [] then 0 else DecimalValue(s[..|s| - 1]) * 10 + DigitValue(s[|s| - 1])
  }

  lemma {:induction false} NatToStringRoundTrip(n: nat)
    ensures DecimalValue(NatToString(n)) == n
  {
    if n >= 10 {
      NatToStringRoundTrip(n / 10);
      var s := NatToString(n);
      assert s[..|s| - 1] == NatToString(n / 10);
    }
  }

  /** `${i}` for an integral number: a minus sign, then the digits of its magnitude. */
  function IntToString(i: int): (s: string)
    ensures s != []
    ensures s[0] == '-' <==> i < 0
    ensures i >= 0 ==> AllDigits(s)
  {
    if i < 0 then "-" + NatToString(-i) else NatToString(i)
  }

  predicate StartsWith(s: string, prefix: string)
  {
    |prefix| <= |s| && s[..|prefix|] == prefix
  }

  predicate EndsWith(s: string, suffix: string)
  {
    |suffix| <= |s| && s[|s| - |suffix|..] == suffix
  }

  predicate OccursAt(s: string, sub: string, i: int)
  {
    0 <= i && i + |sub| <= |s| && s[i..i + |sub|] == sub
  }

  /** `s.includes(sub)`: some suffix of `s` starts with `sub`. */
  predicate Includes(s: string, sub: string)
    decreases |s|
  {
    StartsWith(s, sub) || (s != [] && Includes(s[1..], sub))
  }

  lemma {:induction false} IncludesIffOccurs(s: string, sub: string)
    ensures Includes(s, sub) <==> exists i :: OccursAt(s, sub, i)
    decreases |s|
  {
    if StartsWith(s, sub) {
      assert OccursAt(s, sub, 0);
    } else if s == [] {
    } else {
      IncludesIffOccurs(s[1..], sub);
      if i :| OccursAt(s, sub, i) {
        assert i != 0;
        assert s[1..][i - 1..i - 1 + |sub|] == s[i..i + |sub|];
        assert OccursAt(s[1..], sub, i - 1);
      }
      if j :| OccursAt(s[1..], sub, j) {
        assert s[j + 1..j + 1 + |sub|] == s[1..][j..j + |sub|];
        assert OccursAt(s, sub, j + 1);
      }
    }
  }

  /** Whatever is glued around a string, the result still includes it. */
  lemma IncludesInside(a: string, b: string, c: string)
    ensures Includes(a + b + c, b)
  {
    assert (a + b + c)[|a|..|a| + |b|] == b;
    assert OccursAt(a + b + c, b, |a|);
    IncludesIffOccurs(a + b + c, b);
  }

  /** Puts a character in front of a string that may be missing. */
  function Cons(c: char, rest: Option<string>): Option<string>
  {
    match rest
    case None => None
    case Some(s) => Some([c] + s)
  }

  /** A string ends with, and so includes, what was appended last. */
  lemma IncludesAtEnd(a: string, b: string)
    ensures Includes(a + b, b)
  {
    assert (a + b)[|a|..|a| + |b|] == b;
    assert OccursAt(a + b, b, |a|);
    IncludesIffOccurs(a + b, b);
  }

  /** A string starts with what was put first. */
  lemma StartsWithFront(a: string, b: string)
    ensures StartsWith(a + b, a)
  {
    assert (a + b)[..|a|] == a;
  }

  /** A string ends with what was appended last. */
  lemma EndsWithBack(a: string, b: string)
    ensures EndsWith(a + b, b)
  {
    assert (a + b)[|a + b| - |b|..] == b;
  }

  /** `parts.join(sep)`. */
  function Join(sep: string, parts: seq<string>): string
  {
    if |parts| == 0 then ""
    else if |parts| == 1 then parts[0]
    else parts[0] + sep + Join(sep, parts[1..])
  }

  /** A join holds only characters of its parts and of its separator. */
  lemma {:induction false} JoinAvoids(sep: string, parts: seq<string>, bad: string)
    requires forall c :: c in sep ==> c !in bad
    requires forall k :: 0 <= k < |parts| ==> forall c :: c in parts[k] ==> c !in bad
    ensures forall c :: c in Join(sep, parts) ==> c !in bad
  {
    if |parts| > 1 {
      JoinAvoids(sep, parts[1..], bad);
      assert Join(sep, parts) == parts[0] + sep + Join(sep, parts[1..]);
    }
  }
}
