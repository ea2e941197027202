/** src/runner/process_runner.cpp, generateExecutionId: 64-bit ids from a clock, a pid and a counter. */
module ExecutionIds {

  /** The id before the remap; `pid` is the process id, of which 16 bits are used. */
  function RawId(nanos: bv64, pid: bv64, counter: bv64): bv64 {
    (nanos << 16) ^ ((pid & 0xFFFF) << 8) ^ counter
  }

  /** Zero is not handed out. */
  function Returned(raw: bv64): (id: bv64)
    ensures id != 0
  {
    if raw == 0 then 1 else raw
  }

  class IdGenerator {
    const pid: bv64
    var counter: bv64

    constructor (pid: bv64)
      ensures this.pid == pid && counter == 1
    {
      this.pid, counter := pid, 1;
    }

    /** The counter moves on by one, modulo 2^64, on every call. */
    method GenerateExecutionId(nanos: bv64) returns (id: bv64)
      modifies this
      ensures id == Returned(RawId(nanos, pid, old(counter)))
      ensures counter == old(counter) + 1
    {
      var c := counter;
      counter := counter + 1;
      var raw := RawId(nanos, pid, c);
      id := if raw == 0 then 1 else raw;
    }
  }

  /** The clock and everything above cannot reach the low 16 bits. */
  lemma LowBits(nanos: bv64, pid: bv64, counter: bv64)
    ensures RawId(nanos, pid, counter) & 0xFFFF == (((pid & 0xFFFF) << 8) ^ counter) & 0xFFFF
  {
  }

  lemma LowBitsDecide(n: bv64, m: bv64, pid: bv64, c: bv64, d: bv64)
    requires c & 0xFFFF != d & 0xFFFF
    ensures RawId(n, pid, c) != RawId(m, pid, d)
  {
    LowBits(n, pid, c);
    LowBits(m, pid, d);
  }

  lemma XorLow(c: bv64, d: bv64)
    requires c & 0xFFFF == d & 0xFFFF
    ensures (c ^ d) & 0xFFFF == 0
  {
  }

  lemma ShiftBack(x: bv64)
    requires x & 0xFFFF == 0
    ensures (x >> 16) << 16 == x
  {
  }

  lemma XorCancels(c: bv64, d: bv64, p: bv64)
    ensures (c ^ d) ^ p ^ d == 0 ^ p ^ c
  {
  }

  /** The clock reading, next to a reading of 0, that makes two counters collide. */
  lemma ClockCollides(pid: bv64, c: bv64, d: bv64)
    requires c & 0xFFFF == d & 0xFFFF
    ensures RawId(0, pid, c) == RawId((c ^ d) >> 16, pid, d)
  {
    XorLow(c, d);
    ShiftBack(c ^ d);
    XorCancels(c, d, (pid & 0xFFFF) << 8);
    assert (0 as bv64) << 16 == 0;
  }

  /**
   * Two raw ids of one process can only collide when their counters agree modulo 2^16, and
   * when they do agree there are clock readings that make them collide.
   */
  lemma CollisionCondition(pid: bv64, c: bv64, d: bv64)
    ensures (exists n, m :: RawId(n, pid, c) == RawId(m, pid, d)) <==> c & 0xFFFF == d & 0xFFFF
  {
    if c & 0xFFFF == d & 0xFFFF {
      ClockCollides(pid, c, d);
    } else {
      forall n, m ensures RawId(n, pid, c) != RawId(m, pid, d) {
        LowBitsDecide(n, m, pid, c, d);
      }
    }
  }

  lemma NearbyCountersDifferLow(c: bv64, gap: bv64)
    requires 1 <= gap < 0x1_0000
    ensures c & 0xFFFF != (c + gap) & 0xFFFF
  {
  }

  /** For all clock readings, ids fewer than 65536 calls apart differ. */
  lemma NearbyIdsDiffer(n: bv64, m: bv64, pid: bv64, c: bv64, gap: bv64)
    requires 1 <= gap < 0x1_0000
    ensures RawId(n, pid, c) != RawId(m, pid, c + gap)
    ensures Returned(RawId(n, pid, c)) == Returned(RawId(m, pid, c + gap)) ==>
              {RawId(n, pid, c), RawId(m, pid, c + gap)} == {0, 1}
  {
    NearbyCountersDifferLow(c, gap);
    LowBitsDecide(n, m, pid, c, c + gap);
  }

  lemma SameClock(n: bv64, m: bv64, p: bv64, c: bv64)
    requires n & 0xFFFF_FFFF_FFFF == m & 0xFFFF_FFFF_FFFF
    ensures RawId(n, p, c) == RawId(m, p, c)
  {
    assert n << 16 == m << 16;
  }

  lemma ClockRecovered(n: bv64, p: bv64, c: bv64)
    ensures (RawId(n, p, c) ^ RawId(0, p, c)) >> 16 == n & 0xFFFF_FFFF_FFFF
  {
  }

  /** Ids with the same count in one process agree exactly if the clocks agree in the bits that are used. */
  lemma ClockCounts(n: bv64, m: bv64, p: bv64, c: bv64)
    ensures RawId(n, p, c) == RawId(m, p, c) <==> n & 0xFFFF_FFFF_FFFF == m & 0xFFFF_FFFF_FFFF
  {
    if n & 0xFFFF_FFFF_FFFF == m & 0xFFFF_FFFF_FFFF {
      SameClock(n, m, p, c);
    } else {
      ClockRecovered(n, p, c);
      ClockRecovered(m, p, c);
    }
  }

  lemma SameProcess(n: bv64, p: bv64, q: bv64, c: bv64)
    requires p & 0xFFFF == q & 0xFFFF
    ensures RawId(n, p, c) == RawId(n, q, c)
  {
  }

  lemma ProcessRecovered(n: bv64, p: bv64, c: bv64)
    ensures (RawId(n, p, c) ^ RawId(n, 0, c)) >> 8 == p & 0xFFFF
  {
  }

  /** Ids with the same count and clock agree exactly if the processes agree in the bits that are used. */
  lemma ProcessCounts(n: bv64, p: bv64, q: bv64, c: bv64)
    ensures RawId(n, p, c) == RawId(n, q, c) <==> p & 0xFFFF == q & 0xFFFF
  {
    if p & 0xFFFF == q & 0xFFFF {
      SameProcess(n, p, q, c);
    } else {
      ProcessRecovered(n, p, c);
      ProcessRecovered(n, q, c);
    }
  }
}
