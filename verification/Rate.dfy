/** Differences and rates of wrapping counters: calculate_rate of src/poller.c. Counter32 and Counter64
    wrap as in sections 7.1.6 and 7.1.10 of RFC 2578. */
module Rate {
  import opened Words

  /** 2 to the number of significant bits; the code treats everything but 64 as 32. */
  function Modulus(bits: u32): nat {
    if bits == 64 then TWO64 else TWO32
  }

  /** The growth between two readings, or the reading itself for a gauge. */
  function CounterDiff(prev: u64, cur: u64, bits: u32): u64 {
    if bits == 0 then cur
    else if prev <= cur then cur - prev
    else Wrap64(cur - prev + Modulus(bits))
  }

  /** The divisor C uses: the signed time difference converted to an unsigned 64-bit word. */
  function Divisor(prevTime: nat, curTime: nat): nat {
    if prevTime <= curTime then curTime - prevTime else TWO64 - Wrap64(prevTime - curTime)
  }

  function RateOf(diff: u64, prevTime: nat, curTime: nat, bits: u32): u32
    requires bits != 0 ==> prevTime != curTime
  {
    if bits == 0 then Wrap32(diff) else Wrap32(diff / Divisor(prevTime, curTime))
  }

  /** The subtraction and the wrap correction on 64-bit words. */
  method Difference(prevCounter: u64, curCounter: u64, bits: u32) returns (counterDiff: u64)
    requires bits != 0
    ensures counterDiff == CounterDiff(prevCounter, curCounter, bits)
  {
    counterDiff := Wrap64(curCounter - prevCounter);
    if prevCounter > curCounter {
      WrapAdd(curCounter - prevCounter, Modulus(bits));
      if bits == 64 {
        counterDiff := Wrap64(counterDiff + Wrap64(18446744073709551615 + 1));
      } else {
        counterDiff := Wrap64(counterDiff + 4294967296);
      }
    }
  }

  /** The original's arithmetic on words. Equal times make it exit ("can't happen"). */
  method CalculateRate(prevTime: nat, prevCounter: u64, curTime: nat, curCounter: u64, bits: u32)
    returns (counterDiff: u64, rate: u32)
    requires bits != 0 ==> prevTime != curTime
    ensures counterDiff == CounterDiff(prevCounter, curCounter, bits)
    ensures rate == RateOf(counterDiff, prevTime, curTime, bits)
    ensures bits == 0 ==> counterDiff == curCounter && rate == curCounter % 0x1_0000_0000
  {
    if bits == 0 {
      counterDiff := curCounter;
      rate := Wrap32(curCounter);
    } else {
      counterDiff := Difference(prevCounter, curCounter, bits);
      rate := Wrap32(counterDiff / Divisor(prevTime, curTime));
    }
  }

  /** A counter of 32 or 64 bits that truly grew by less than its modulus since the last reading: the
      difference is the true growth, wrap or no wrap. */
  lemma DiffIsTrueGrowth(before: nat, now: nat, bits: u32)
    requires bits == 32 || bits == 64
    requires before <= now < before + Modulus(bits)
    ensures CounterDiff(before % Modulus(bits), now % Modulus(bits), bits) == now - before
  {
    var m := Modulus(bits);
    assert before == (before / m) * m + before % m;
    assert now == (now / m) * m + now % m;
    var q := now / m - before / m;
    assert now - before == q * m + (now % m - before % m);
    assert 0 <= q <= 1;
  }

  /** For arbitrary 64-bit readings the difference is the residue modulo 2^64, and for a 32-bit row it is
      the residue modulo 2^32 exactly when the readings are at most one wrap apart. */
  lemma DiffIsResidue(prev: u64, cur: u64)
    ensures CounterDiff(prev, cur, 64) == Wrap64(cur - prev)
    ensures CounterDiff(prev, cur, 32) == Wrap32(cur - prev) <==> -0x1_0000_0000 <= cur - prev < 0x1_0000_0000
  {
    var d := cur - prev;
    assert d == (d / 0x1_0000_0000) * 0x1_0000_0000 + Wrap32(d);
  }

  lemma SmallQuotient(a: nat, b: nat)
    requires 0 < b && a < 2 * b
    ensures a / b == if a < b then 0 else 1
  {
    var q := a / b;
    QuotientBounds(a, b);
    if q >= 2 {
      MulLe(2, q, b);
    } else if q == 1 {
      assert q * b == b;
    } else {
      assert (q + 1) * b == b;
    }
  }

  /** A clock that has gone back, by less than half its range, makes the divisor so large that the rate
      comes out as zero, or as one if the difference makes up for it. */
  lemma ClockBackHidesRate(diff: u64, prevTime: nat, curTime: nat, bits: u32)
    requires bits != 0 && curTime < prevTime < curTime + 0x8000_0000_0000_0000
    ensures RateOf(diff, prevTime, curTime, bits) == if diff + (prevTime - curTime) < TWO64 then 0 else 1
  {
    var back := prevTime - curTime;
    assert Wrap64(back) == back;
    SmallQuotient(diff, TWO64 - back);
  }

  lemma QuotientBounds(diff: nat, dt: nat)
    requires dt > 0
    ensures (diff / dt) * dt <= diff < (diff / dt + 1) * dt
  {
  }

  lemma MulLe(a: nat, b: nat, c: nat)
    requires a <= b
    ensures a * c <= b * c
  {
  }

  /** While the quotient fits 32 bits, the rate is the growth per second rounded down. */
  lemma RateBounds(diff: u64, prevTime: nat, curTime: nat, bits: u32)
    requires bits != 0 && prevTime < curTime
    requires diff / (curTime - prevTime) < TWO32
    ensures var dt := curTime - prevTime; var rate: nat := RateOf(diff, prevTime, curTime, bits);
            rate * dt <= diff < (rate + 1) * dt
  {
    var dt := curTime - prevTime;
    var q := diff / dt;
    QuotientBounds(diff, dt);
    assert RateOf(diff, prevTime, curTime, bits) == Wrap32(q) == q;
  }

  /** The speed check, for every limit: what passes grew by less than speed × time exactly when the
      quotient fits the 32-bit rate or is below the limit anyway. For a limit up to 2^32 that is exactly
      when it fits. */
  lemma SpeedCheckIsExact(diff: u64, prevTime: nat, curTime: nat, bits: u32, speed: u64)
    requires bits != 0 && prevTime < curTime
    requires RateOf(diff, prevTime, curTime, bits) < speed
    ensures var dt := curTime - prevTime; diff < speed * dt <==> diff / dt < TWO32 || diff / dt < speed
    ensures var dt := curTime - prevTime; speed <= TWO32 ==> (diff < speed * dt <==> diff / dt < TWO32)
  {
    var dt := curTime - prevTime;
    var q := diff / dt;
    assert RateOf(diff, prevTime, curTime, bits) == Wrap32(q);
    QuotientBounds(diff, dt);
    if q < speed {
      MulLe(q + 1, speed, dt);
    } else {
      MulLe(speed, q, dt);
    }
  }

  /** A 64-bit counter can outrun the 32-bit rate: 2^32 per second passes a limit of 1. */
  lemma SpeedCheckCanBeFooled()
    ensures var diff: u64 := CounterDiff(1, TWO32 + 1, 64);
            RateOf(diff, 1, 2, 64) < 1 && !(diff < 1 * (2 - 1))
  {
  }

  /** A row's speed is the configured limit per interval, so a sample taken within one interval that
      passes the check grew by less than the configured limit. */
  lemma AcceptedTrafficIsBounded(diff: u64, prevTime: nat, curTime: nat, bits: u32, limit: u64, interval: nat)
    requires bits != 0 && interval > 0 && prevTime < curTime <= prevTime + interval
    requires diff / (curTime - prevTime) < TWO32
    requires RateOf(diff, prevTime, curTime, bits) < (limit / interval)
    ensures diff < limit
  {
    var dt := curTime - prevTime;
    var rate: nat := RateOf(diff, prevTime, curTime, bits);
    RateBounds(diff, prevTime, curTime, bits);
    QuotientBounds(limit, interval);
    MulLe(rate + 1, (limit / interval), dt);
    MulLe(dt, interval, (limit / interval));
    assert ((limit / interval)) * dt <= ((limit / interval)) * interval;
  }
}
