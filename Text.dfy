/** String helpers the SDK gets from JavaScript's standard library: decimal
    rendering of integers (template literals), `toLowerCase` restricted to
    ASCII, `includes`, and splitting on '/'. */
module Text {

  predicate IsDigit(c: char) {
    '0' <= c <= '9'
  }

  predicate AllDigits(s: string) {
    forall i :: 0 <= i < |s| ==> IsDigit(s[i])
  }

  function DigitChar(d: nat): (c: char)
    requires d < 10
    ensures IsDigit(c) && DigitValue(c) == d
  {
    (('0' as int) + d) as char
  }

  function DigitValue(c: char): nat
    requires IsDigit(c)
  {
    (c as int) - ('0' as int)
  }

  /** Decimal digits of a natural number, most significant first. */
  function NatToString(n: nat): (s: string)
    ensures |s| > 0 && AllDigits(s)
    ensures n < 10 <==> |s| == 1
    decreases n
  {
    if n < 10 then [DigitChar(n)] else NatToString(n / 10) + [DigitChar(n % 10)]
  }

  /** Reads a string of decimal digits back as a number. */
  function ParseDigits(s: string): nat
    requires AllDigits(s)
  {
    if s == [] then 0 else 10 * ParseDigits(s[..|s| - 1]) + DigitValue(s[|s| - 1])
  }

  lemma {:induction false} ParseNatToString(n: nat)
    ensures ParseDigits(NatToString(n)) == n
  {
    var s := NatToString(n);
    if n >= 10 {
      ParseNatToString(n / 10);
      assert s[..|s| - 1] == NatToString(n / 10);
    }
  }

  /** How a template literal renders an integer: an optional '-' then digits. */
  function IntToString(n: int): (s: string)
    ensures |s| > 0 && IsDigit(s[|s| - 1])
    ensures forall i :: 0 <= i < |s| ==> IsDigit(s[i]) || (i == 0 && s[i] == '-')
  {
    if n < 0 then "-" + NatToString(-n) else NatToString(n)
  }

  /** The rendering starts with '-' exactly for negative numbers. */
  lemma IntToStringSign(n: int)
    ensures IntToString(n)[0] == '-' <==> n < 0
  {
    if n >= 0 {
      assert IsDigit(NatToString(n)[0]);
    }
  }

  /** Distinct natural numbers have distinct digit strings. */
  lemma NatToStringInjective(a: nat, b: nat)
    requires NatToString(a) == NatToString(b)
    ensures a == b
  {
    ParseNatToString(a);
    ParseNatToString(b);
  }

  /** Distinct integers render as distinct strings. */
  lemma IntToStringInjective(a: int, b: int)
    requires IntToString(a) == IntToString(b)
    ensures a == b
  {
    IntToStringSign(a);
    IntToStringSign(b);
    if a < 0 {
      assert b < 0;
      var sa, sb := NatToString(-a), NatToString(-b);
      assert sa == ("-" + sa)[1..];
      assert sb == ("-" + sb)[1..];
      NatToStringInjective(-a, -b);
    } else {
      assert b >= 0;
      NatToStringInjective(a, b);
    }
  }

  /** ASCII lower-casing; other characters are left as they are. */
  function LowerChar(c: char): char {
    if 'A' <= c <= 'Z' then ((c as int) + 32) as char else c
  }

  function Lower(s: string): (r: string)
    ensures |r| == |s| && forall i :: 0 <= i < |s| ==> r[i] == LowerChar(s[i])
  {
    seq(|s|, i requires 0 <= i < |s| => LowerChar(s[i]))
  }

  predicate IsPrefix(p: string, s: string) {
    |p| <= |s| && s[..|p|] == p
  }

  /** `sub` occurs in `s` starting at position `i`. */
  predicate OccursAt(s: string, sub: string, i: int) {
    0 <= i <= |s| - |sub| && s[i..i + |sub|] == sub
  }

  /** `s.includes(sub)`: some position of `s` starts a copy of `sub`. */
  predicate Contains(s: string, sub: string) {
    exists i :: 0 <= i <= |s| && OccursAt(s, sub, i)
  }

  lemma ContainsInside(a: string, sub: string, b: string)
    ensures Contains(a + sub + b, sub)
  {
    var s := a + sub + b;
    assert s[|a|..|a| + |sub|] == sub;
    assert OccursAt(s, sub, |a|);
  }

  /** An occurrence in the tail is an occurrence in the whole. */
  lemma ContainsInTail(s: string, sub: string)
    requires |s| > 0 && Contains(s[1..], sub)
    ensures Contains(s, sub)
  {
    var i :| 0 <= i <= |s[1..]| && OccursAt(s[1..], sub, i);
    assert s[i + 1..i + 1 + |sub|] == s[1..][i..i + |sub|];
    assert OccursAt(s, sub, i + 1);
  }

  /** An occurrence inside `x` sits |p| further on inside `p + x + q`. */
  lemma OccursWithin(p: string, x: string, q: string, sub: string, i: int)
    requires OccursAt(x, sub, i)
    ensures OccursAt(p + x + q, sub, |p| + i)
  {
    assert (p + x + q)[|p| + i..|p| + i + |sub|] == x[i..i + |sub|];
  }

  /** Where the parts of a concatenation sit inside it. */
  lemma PartsOfConcat(a: string, b: string, c: string)
    ensures IsPrefix(a, a + b + c)
    ensures OccursAt(a + b + c, b, |a|)
    ensures (a + b + c)[|a| + |b|..] == c
  {
    var s := a + b + c;
    assert s[..|a|] == a;
    assert s[|a|..|a| + |b|] == b;
  }

  /** The longest prefix of `s` that does not contain `stop`. */
  function TakeUntil(s: string, stop: char): (r: string)
    ensures IsPrefix(r, s) && stop !in r
    ensures |r| < |s| ==> s[|r|] == stop
  {
    if s == [] || s[0] == stop then [] else [s[0]] + TakeUntil(s[1..], stop)
  }

  lemma {:induction false} TakeUntilOf(head: string, rest: string, stop: char)
    requires stop !in head && (rest == [] || rest[0] == stop)
    ensures TakeUntil(head + rest, stop) == head
  {
    if head != [] {
      assert (head + rest)[1..] == head[1..] + rest;
      TakeUntilOf(head[1..], rest, stop);
    }
  }

  /** Splitting at the first `stop` recovers both halves. */
  lemma SplitAtFirstStop(a: string, b: string, c: string, d: string, stop: char)
    requires stop !in a && stop !in c
    requires a + [stop] + b == c + [stop] + d
    ensures a == c && b == d
  {
    TakeUntilOf(a, [stop] + b, stop);
    TakeUntilOf(c, [stop] + d, stop);
    assert a + [stop] + b == a + ([stop] + b);
    assert c + [stop] + d == c + ([stop] + d);
    assert b == (a + [stop] + b)[|a| + 1..];
    assert d == (c + [stop] + d)[|c| + 1..];
  }

  /** `s.split('/').pop()`: what follows the last '/', or all of `s`. */
  function LastSegment(s: string): (r: string)
    ensures '/' !in r
    ensures |r| <= |s| && s[|s| - |r|..] == r
    ensures |r| < |s| ==> s[|s| - |r| - 1] == '/'
  {
    if s == [] || s[|s| - 1] == '/' then [] else LastSegment(s[..|s| - 1]) + [s[|s| - 1]]
  }

  lemma {:induction false} LastSegmentOf(prefix: string, seg: string)
    requires '/' !in seg
    ensures LastSegment(prefix + "/" + seg) == seg
  {
    var s := prefix + "/" + seg;
    if seg != [] {
      assert s[..|s| - 1] == prefix + "/" + seg[..|seg| - 1];
      LastSegmentOf(prefix, seg[..|seg| - 1]);
      assert seg == seg[..|seg| - 1] + [seg[|seg| - 1]];
    }
  }
}
