/** Points in time as the timer service compares them. */
module Timespec {
  datatype Timespec = Timespec(tvSec: int, tvNsec: int)

  const NANOS_PER_SEC := 1_000_000_000
  const INT32_SPAN := 0x1_0000_0000
  const INT32_LIMIT := 0x8000_0000

  ghost predicate Normalised(t: Timespec) {
    0 <= t.tvNsec < NANOS_PER_SEC
  }

  function Nanos(t: Timespec): int {
    t.tvSec * NANOS_PER_SEC + t.tvNsec
  }

  /** The conversion of a wider integer to `int`: the low 32 bits, in two's complement. */
  function ToInt32(x: int): int {
    (x + INT32_LIMIT) % INT32_SPAN - INT32_LIMIT
  }

  /** `LocTimerDelegate::ranks`: positive when `self` is the sooner of the two. Both
    * differences are cut to 32 bits.
    */
  function Ranks(self: Timespec, other: Timespec): int {
    var rank := ToInt32(other.tvSec - self.tvSec);
    if rank == 0 then ToInt32(other.tvNsec - self.tvNsec) else rank
  }

  predicate OutRanks(self: Timespec, other: Timespec) {
    Ranks(self, other) > 0
  }

  function Sign(x: int): int {
    if x < 0 then -1 else if x == 0 then 0 else 1
  }

  /** The distance of the second fields. */
  ghost function Apart(a: Timespec, b: Timespec): nat {
    if a.tvSec < b.tvSec then b.tvSec - a.tvSec else a.tvSec - b.tvSec
  }

  ghost predicate Near(a: Timespec, b: Timespec) {
    Apart(a, b) < INT32_LIMIT
  }

  lemma RanksComparesTimes(a: Timespec, b: Timespec)
    requires Normalised(a) && Normalised(b) && Near(a, b)
    ensures Sign(Ranks(a, b)) == Sign(Nanos(b) - Nanos(a))
    ensures OutRanks(a, b) <==> Nanos(a) < Nanos(b)
  {
  }

  /** Within a span of `w` seconds the ranking is the order of time if and only if `w` is less
    * than 2^31: one second more and the cut difference changes its sign.
    */
  lemma RanksIsExactWithinTheWindow(w: nat)
    ensures (forall a, b ::
               Normalised(a) && Normalised(b) && Apart(a, b) <= w
               ==> Sign(Ranks(a, b)) == Sign(Nanos(b) - Nanos(a)))
            <==> w < INT32_LIMIT
  {
    if w < INT32_LIMIT {
      forall a, b | Normalised(a) && Normalised(b) && Apart(a, b) <= w
        ensures Sign(Ranks(a, b)) == Sign(Nanos(b) - Nanos(a))
      {
        RanksComparesTimes(a, b);
      }
    } else {
      var a, b := Timespec(0, 0), Timespec(INT32_LIMIT, 0);
      assert Normalised(a) && Normalised(b);
      assert Sign(Ranks(a, b)) == -1 && Sign(Nanos(b) - Nanos(a)) == 1;
    }
  }

  /** The deadline `LocTimer::start` computes for a delay in milliseconds. */
  function Deadline(now: Timespec, timeOutInMs: nat): Timespec {
    var sec := now.tvSec + timeOutInMs / 1000;
    var nsec := now.tvNsec + (timeOutInMs % 1000) * 1_000_000;
    if nsec >= NANOS_PER_SEC then Timespec(sec + nsec / NANOS_PER_SEC, nsec % NANOS_PER_SEC)
    else Timespec(sec, nsec)
  }

  /** The deadline is normalised and is the delay after `now`, to the nanosecond. */
  lemma DeadlineIsExact(now: Timespec, timeOutInMs: nat)
    requires Normalised(now)
    ensures Normalised(Deadline(now, timeOutInMs))
    ensures Nanos(Deadline(now, timeOutInMs)) == Nanos(now) + timeOutInMs * 1_000_000
  {
  }
}
