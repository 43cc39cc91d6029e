/** The alignment arithmetic of src/cltime.c. */
module Cltime {
  import opened Words

  function NextInterval(now: int, pollInterval: int): int
    requires pollInterval > 0
  {
    1000 * (CDiv(CDiv(now, 1000), pollInterval) + 1) * pollInterval
  }

  /** The aligned slot of `pollInterval` seconds a clock reading falls into. */
  function Slot(now: int, pollInterval: int): int
    requires pollInterval > 0
  {
    now / (1000 * pollInterval)
  }

  lemma DivDiv(n: nat, p: int)
    requires p > 0
    ensures n / 1000 / p == n / (1000 * p)
  {
    var q := n / 1000 / p;
    var r := n / 1000 % p;
    assert n / 1000 == q * p + r;
    var s := n % 1000;
    assert n == 1000 * (q * p + r) + s;
    assert n == q * (1000 * p) + (1000 * r + s);
    assert 0 <= 1000 * r + s < 1000 * p;
    QuotientUnique(n, 1000 * p, q, 1000 * r + s);
  }

  lemma QuotientUnique(n: int, d: int, q: int, r: int)
    requires d > 0 && 0 <= r < d && n == q * d + r
    ensures n / d == q && n % d == r
  {
    MulMono(q, n / d - 1, d);
    MulMono(n / d + 1, q, d);
    assert n == (n / d) * d + n % d;
  }

  lemma MulMono(a: int, b: int, d: int)
    requires d > 0
    ensures a <= b ==> a * d <= b * d
    ensures (a - 1) * d == a * d - d && (a + 1) * d == a * d + d
    ensures (b - 1) * d == b * d - d && (b + 1) * d == b * d + d
  {
    if a <= b {
      assert (b - a) * d >= 0;
    }
  }

  /** The next start is aligned and lies strictly in the future whatever the clock says, and it is
      at most one interval away exactly for clock readings at or after the epoch, or already aligned. */
  lemma NextStartIsAligned(now: int, p: int)
    requires p > 0
    ensures var next := NextInterval(now, p);
            && next % (1000 * p) == 0
            && now < next
            && (next - now <= 1000 * p <==> now >= 0 || now % (1000 * p) == 0)
  {
    var w := 1000 * p;
    var k := CDiv(CDiv(now, 1000), p) + 1;
    assert NextInterval(now, p) == k * w;
    QuotientUnique(k * w, w, k, 0);
    if now >= 0 {
      DivDiv(now, p);
      assert now == (now / w) * w + now % w;
      assert k * w == (now / w) * w + w;
    } else {
      var n := -now;
      DivDiv(n, p);
      assert CDiv(now, 1000) == -(n / 1000);
      assert CDiv(CDiv(now, 1000), p) == -(n / w) by {
        if n / 1000 > 0 {
        } else {
          assert n / 1000 / p == 0;
        }
      }
      assert n == (n / w) * w + n % w;
      assert k * w == w - (n / w) * w;
      if n % w == 0 {
        QuotientUnique(now, w, -(n / w), 0);
      } else {
        assert now == (-(n / w) - 1) * w + (w - n % w);
        QuotientUnique(now, w, -(n / w) - 1, w - n % w);
      }
    }
  }

  lemma QuotientBelow(x: int, q: int, w: int)
    requires w > 0 && x < q * w
    ensures x / w < q
  {
    assert x == (x / w) * w + x % w;
    MulMono(q, x / w, w);
  }

  lemma QuotientAtLeast(x: int, q: int, w: int)
    requires w > 0 && q * w <= x
    ensures q <= x / w
  {
    assert x == (x / w) * w + x % w;
    MulMono(x / w + 1, q, w);
  }

  /** A later reading that has reached the next start belongs to a strictly later slot. */
  lemma NextStartLeavesSlot(now: int, later: int, p: int)
    requires p > 0 && NextInterval(now, p) <= later
    ensures Slot(now, p) < Slot(later, p)
  {
    var w := 1000 * p;
    var next := NextInterval(now, p);
    NextStartIsAligned(now, p);
    var q := next / w;
    assert next == q * w;
    QuotientBelow(now, q, w);
    QuotientAtLeast(later, q, w);
  }

  /** A later reading before the next start, at or after the epoch, is in the same slot. */
  lemma SameSlot(now: int, later: int, p: int)
    requires p > 0 && 0 <= now <= later < NextInterval(now, p)
    ensures Slot(now, p) == Slot(later, p)
  {
    var w := 1000 * p;
    var next := NextInterval(now, p);
    DivDiv(now, p);
    assert next == (now / w + 1) * w;
    assert now == (now / w) * w + now % w;
    assert later == (now / w) * w + (later - (now / w) * w);
    MulMono(now / w, now / w, w);
    QuotientUnique(later, w, now / w, later - (now / w) * w);
  }
}
