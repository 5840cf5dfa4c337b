/**
  The conversion-time measurement helper `time_diff` of the X11 render backend.

  It takes two `timespec` stamps in either order and returns a nanosecond count.
  The count is built from the absolute difference of the seconds and, separately,
  the absolute difference of the nanoseconds; a borrow of one second is taken and
  given back as 10^9 nanoseconds whenever the seconds differ. The borrow cancels,
  so the result is |dsec| * 10^9 + |dnsec|, which is the true elapsed time only
  when the two differences have compatible signs.

  Integers are mathematical: on 32-bit targets the signed `time_t` product
  `tv_sec * 1000000000` overflows (undefined behaviour) before the result is
  converted to `unsigned long`, which this model does not reproduce.
 */
module Timing {

  const NanosPerSecond: int := 1000000000

  /** A `struct timespec`: whole seconds and a nanosecond part. */
  datatype Timespec = Timespec(sec: int, nsec: int)

  /** A stamp as `clock_gettime` produces it: the nanosecond part is below one second. */
  predicate Normalized(t: Timespec) {
    0 <= t.nsec < NanosPerSecond
  }

  function Max(a: int, b: int): int { if a > b then a else b }

  function Min(a: int, b: int): int { if a < b then a else b }

  function Abs(a: int): nat { if a < 0 then -a else a }

  /** The signed number of nanoseconds from `earlier` to `later`. */
  function Elapsed(earlier: Timespec, later: Timespec): int {
    (later.sec - earlier.sec) * NanosPerSecond + (later.nsec - earlier.nsec)
  }

  /** `time_diff(ts1, ts2)`: max - min on each field, then the one-second borrow. */
  function TimeDiff(ts1: Timespec, ts2: Timespec): (r: nat)
    ensures r == Abs(ts2.sec - ts1.sec) * NanosPerSecond + Abs(ts2.nsec - ts1.nsec)
  {
    var sec := Max(ts2.sec, ts1.sec) - Min(ts2.sec, ts1.sec);
    var nsec := Max(ts2.nsec, ts1.nsec) - Min(ts2.nsec, ts1.nsec);
    if sec > 0 then
      (sec - 1) * NanosPerSecond + (nsec + NanosPerSecond)
    else
      sec * NanosPerSecond + nsec
  }

  /** The order of the two stamps does not matter. */
  lemma TimeDiffSymmetric(ts1: Timespec, ts2: Timespec)
    ensures TimeDiff(ts1, ts2) == TimeDiff(ts2, ts1)
  {
  }

  /**
    Given two real stamps in chronological order, `time_diff` is the elapsed time
    exactly when the seconds agree or the later nanosecond part is not smaller;
    otherwise it overstates the elapsed time by twice the nanosecond gap.
   */
  lemma TimeDiffVersusElapsed(earlier: Timespec, later: Timespec)
    requires Normalized(earlier) && Normalized(later)
    requires Elapsed(earlier, later) >= 0
    ensures TimeDiff(earlier, later) == Elapsed(earlier, later)
            <==> earlier.sec == later.sec || earlier.nsec <= later.nsec
    ensures earlier.sec != later.sec && later.nsec < earlier.nsec ==>
              TimeDiff(earlier, later) == Elapsed(earlier, later) + 2 * (earlier.nsec - later.nsec)
  {
  }

  /** A concrete stamp pair on which the measurement is wrong: 0.9 s apart, reported as 1.1 s. */
  lemma TimeDiffOverstatesAcrossSecondBoundary()
    ensures Elapsed(Timespec(1, 900000000), Timespec(2, 800000000)) == 900000000
    ensures TimeDiff(Timespec(1, 900000000), Timespec(2, 800000000)) == 1100000000
  {
  }
}
