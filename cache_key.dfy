/**
 * The pricers key their node cache by the text `str(numUs) + ":" + str(step)`.
 * This module models that text and proves distinct nodes get distinct keys,
 * so a cache keyed by the pair (numUs, step) behaves the same.
 */
module CacheKey {

  predicate IsDigit(c: char) {
    '0' <= c <= '9'
  }

  function DigitChar(d: nat): (c: char)
    requires d < 10
    ensures IsDigit(c)
  {
    ('0' as int + d) as char
  }

  function DigitValue(c: char): (d: nat)
    requires IsDigit(c)
    ensures d < 10 && DigitChar(d) == c
  {
    c as int - '0' as int
  }

  /** Decimal text of a natural number, without leading zeros. */
  function NatToString(n: nat): (s: string)
    ensures |s| > 0
    ensures forall i :: 0 <= i < |s| ==> IsDigit(s[i])
    decreases n
  {
    if n < 10 then [DigitChar(n)] else NatToString(n / 10) + [DigitChar(n % 10)]
  }

  /** Reads a string of decimal digits back as a number. */
  function ParseNat(s: string): nat
    requires forall i :: 0 <= i < |s| ==> IsDigit(s[i])
  {
    if |s| == 0 then 0 else ParseNat(s[..|s| - 1]) * 10 + DigitValue(s[|s| - 1])
  }

  /** Reading back the decimal text of n gives n. */
  lemma {:induction false} ParseNatToString(n: nat)
    ensures ParseNat(NatToString(n)) == n
    decreases n
  {
    var s := NatToString(n);
    if n < 10 {
      assert s[..0] == [];
    } else {
      ParseNatToString(n / 10);
      assert s[..|s| - 1] == NatToString(n / 10);
    }
  }

  /** Python's text of an integer: a minus sign before the digits of a negative one. */
  function IntToString(i: int): (s: string)
    ensures |s| > 0 && ':' !in s
    ensures i < 0 <==> s[0] == '-'
  {
    if i < 0 then "-" + NatToString(-i) else NatToString(i)
  }

  /** Distinct naturals have distinct decimal texts. */
  lemma NatToStringInjective(a: nat, b: nat)
    requires NatToString(a) == NatToString(b)
    ensures a == b
  {
    ParseNatToString(a);
    ParseNatToString(b);
  }

  /** Distinct integers have distinct texts. */
  lemma IntToStringInjective(a: int, b: int)
    requires IntToString(a) == IntToString(b)
    ensures a == b
  {
    if a < 0 {
      assert IntToString(a)[1..] == NatToString(-a);
      assert IntToString(b)[1..] == NatToString(-b);
      NatToStringInjective(-a, -b);
    } else {
      NatToStringInjective(a, b);
    }
  }

  /** The cache key of node (numUs, step). */
  function Key(numUs: int, step: int): (key: string)
    ensures |key| == |IntToString(numUs)| + 1 + |IntToString(step)|
    ensures key[|IntToString(numUs)|] == ':'
  {
    IntToString(numUs) + ":" + IntToString(step)
  }

  /** The first separator in `x + ":" + y` is the one right after x. */
  lemma FirstSeparator(x: string, y: string)
    requires ':' !in x
    ensures (x + ":" + y)[|x|] == ':'
    ensures forall i :: 0 <= i < |x| ==> (x + ":" + y)[i] != ':'
  {
    forall i | 0 <= i < |x| ensures (x + ":" + y)[i] != ':' {
      assert (x + ":" + y)[i] == x[i];
    }
  }

  /** Two texts without the separator, each followed by it, split the same way. */
  lemma SplitAtSeparator(x1: string, y1: string, x2: string, y2: string)
    requires ':' !in x1 && ':' !in x2
    requires x1 + ":" + y1 == x2 + ":" + y2
    ensures x1 == x2 && y1 == y2
  {
    var s1, s2 := x1 + ":" + y1, x2 + ":" + y2;
    FirstSeparator(x1, y1);
    FirstSeparator(x2, y2);
    assert |x1| == |x2|;
    assert x1 == s1[..|x1|] && x2 == s2[..|x2|];
    assert y1 == s1[|x1| + 1..] && y2 == s2[|x2| + 1..];
  }

  /** Distinct nodes have distinct cache keys. */
  lemma KeyInjective(numUs1: int, step1: int, numUs2: int, step2: int)
    ensures Key(numUs1, step1) == Key(numUs2, step2) <==> numUs1 == numUs2 && step1 == step2
  {
    if Key(numUs1, step1) == Key(numUs2, step2) {
      SplitAtSeparator(IntToString(numUs1), IntToString(step1), IntToString(numUs2), IntToString(step2));
      IntToStringInjective(numUs1, numUs2);
      IntToStringInjective(step1, step2);
    }
  }
}
