/**
 * Model of timestamp.cc: a clock reading (seconds and nanoseconds) becomes
 * milliseconds since a fixed epoch, computed in uint64_t arithmetic.
 * The live clock is not modelled: every caller passes the reading it took.
 */
module Timestamp {
  import opened Int64

  /** milliseconds per second */
  const THOUSAND: uint64 := 1000
  /** nanoseconds per millisecond */
  const MILLION: uint64 := THOUSAND * THOUSAND
  /** nanoseconds per second */
  const BILLION: uint64 := THOUSAND * MILLION
  /** the epoch, in milliseconds since 1970 */
  const EPOCH: uint64 := 1397448000000

  type int64 = x: int | -0x8000_0000_0000_0000 <= x < 0x8000_0000_0000_0000

  /** A struct timespec as clock_gettime fills it in. */
  datatype Timespec = Timespec(tvSec: int64, tvNsec: int64)

  /** The reading in nanoseconds, without any wrap-around. */
  function Nanos(ts: Timespec): int
  {
    ts.tvSec * BILLION + ts.tvNsec
  }

  /**
   * The readings on which no uint64_t step of Convert wraps: non-negative fields,
   * a nanosecond count below 2^64, and a time no earlier than the epoch.
   */
  predicate InRange(ts: Timespec)
  {
    0 <= ts.tvSec && 0 <= ts.tvNsec && Nanos(ts) < TWO_TO_64
    && EPOCH * MILLION <= Nanos(ts)
  }

  /**
   * timestamp( const timespec & ): the signed fields are converted to uint64_t,
   * multiplied and added modulo 2^64, divided with truncation and the epoch
   * subtracted modulo 2^64. On a reading in range the result is the number of
   * whole milliseconds elapsed since the epoch.
   */
  function Convert(ts: Timespec): uint64
  {
    var nanos := Wrap64(Wrap64(ts.tvSec) * BILLION + Wrap64(ts.tvNsec));
    Wrap64(nanos / MILLION - EPOCH)
  }

  /** On a reading in range, Convert counts the whole milliseconds since the epoch. */
  lemma ConvertMillis(ts: Timespec)
    requires InRange(ts)
    ensures (Convert(ts) + EPOCH) * MILLION <= Nanos(ts) < (Convert(ts) + EPOCH + 1) * MILLION
  {
    Wrap64InRange(ts.tvSec);
    Wrap64InRange(ts.tvNsec);
    Wrap64InRange(Nanos(ts));
    Wrap64InRange(Nanos(ts) / MILLION - EPOCH);
  }

  lemma Constants()
    ensures THOUSAND == 1000 && MILLION == 1000000 && BILLION == 1000000000
  {
  }

  /** Readings that differ only below the millisecond convert to the same value. */
  lemma SubMillisecond(ts: Timespec, other: Timespec)
    requires InRange(ts) && InRange(other)
    requires ts.tvSec == other.tvSec && ts.tvNsec / MILLION == other.tvNsec / MILLION
    ensures Convert(ts) == Convert(other)
  {
    var k := ts.tvSec * THOUSAND;
    var m := ts.tvNsec / MILLION;
    assert ts.tvSec * BILLION == k * MILLION;
    WholeMillis(ts, k + m);
    WholeMillis(other, k + m);
  }

  /** Convert(ts) is the only millisecond count that brackets the reading. */
  lemma WholeMillis(ts: Timespec, j: int)
    requires InRange(ts)
    requires j * MILLION <= Nanos(ts) < (j + 1) * MILLION
    ensures Convert(ts) + EPOCH == j
  {
    ConvertMillis(ts);
    var c := Convert(ts) + EPOCH;
    if c < j {
      MulMono(MILLION, c + 1, j);
    }
  }

  /** A reading exactly at the epoch converts to 0. */
  lemma AtEpoch()
    ensures Convert(Timespec(1397448000, 0)) == 0
  {
  }

  /** On readings in range, a later reading never converts to a smaller value. */
  lemma Monotone(ts: Timespec, later: Timespec)
    requires InRange(ts) && InRange(later) && Nanos(ts) <= Nanos(later)
    ensures Convert(ts) <= Convert(later)
  {
    ConvertMillis(ts);
    ConvertMillis(later);
  }

  /** One second later converts to exactly 1000 more. */
  lemma OneSecondLater(ts: Timespec)
    requires InRange(ts) && ts.tvSec < 0x7FFF_FFFF_FFFF_FFFF
    requires InRange(Timespec(ts.tvSec + 1, ts.tvNsec))
    ensures Convert(Timespec(ts.tvSec + 1, ts.tvNsec)) == Convert(ts) + THOUSAND
  {
    var j := Convert(ts) + EPOCH;
    ConvertMillis(ts);
    assert (j + THOUSAND) * MILLION == j * MILLION + BILLION;
    WholeMillis(Timespec(ts.tvSec + 1, ts.tvNsec), j + THOUSAND);
  }
}
