/** Decimal numbers as printf writes them and scanf reads them. */
module Decimal {
  import opened Words

  predicate IsDigit(c: char) {
    '0' <= c <= '9'
  }

  function Digit(d: nat): (c: char)
    requires d < 10
    ensures IsDigit(c) && c as int == '0' as int + d
  {
    ('0' as int + d) as char
  }

  /** Decimal digits, as %u, %lu and %llu print them. */
  function Dec(n: nat): (s: string)
    ensures |s| > 0 && forall i :: 0 <= i < |s| ==> IsDigit(s[i])
  {
    if n < 10 then [Digit(n)] else Dec(n / 10) + [Digit(n % 10)]
  }

  /** Reads digits on top of `acc` up to the first other character. */
  function ReadDigits(s: string, acc: nat): (nat, string) {
    if s == [] || !IsDigit(s[0]) then (acc, s) else ReadDigits(s[1..], 10 * acc + (s[0] as int - '0' as int))
  }

  function ReadNumber(s: string): Option<(nat, string)> {
    if s == [] || !IsDigit(s[0]) then None else Some(ReadDigits(s, 0))
  }

  lemma {:induction false} ReadsBack(n: nat, rest: string)
    ensures ReadDigits(Dec(n) + rest, 0) == ReadDigits(rest, n)
  {
    if n < 10 {
      assert (Dec(n) + rest)[1..] == rest;
    } else {
      var d := [Digit(n % 10)];
      assert Dec(n) + rest == Dec(n / 10) + (d + rest);
      ReadsBack(n / 10, d + rest);
      assert (d + rest)[1..] == rest;
    }
  }

  predicate StartsPlain(rest: string) {
    rest == [] || !IsDigit(rest[0])
  }

  lemma NumberRoundTrip(n: nat, rest: string)
    requires StartsPlain(rest)
    ensures ReadNumber(Dec(n) + rest) == Some((n, rest))
  {
    ReadsBack(n, rest);
    assert (Dec(n) + rest)[0] == Dec(n)[0];
  }

  lemma {:induction false} DigitsBound(n: nat, k: nat, power: nat)
    requires k >= 1 && power == Power10(k) && n < power
    ensures |Dec(n)| <= k
  {
    if n < 10 {
    } else {
      DigitsBound(n / 10, k - 1, Power10(k - 1));
    }
  }

  function Power10(k: nat): nat {
    if k == 0 then 1 else 10 * Power10(k - 1)
  }

  /** The 32-byte buffer, terminator included, is never too small for a 64-bit number. */
  lemma BufferSuffices(n: u64)
    ensures |Dec(n)| + 1 <= 32
  {
    assert Power10(20) == 100_000_000_000_000_000_000 by {
      assert Power10(5) == 100_000;
      assert Power10(10) == 10_000_000_000;
      assert Power10(15) == 1_000_000_000_000_000;
    }
    DigitsBound(n, 20, Power10(20));
  }
}
