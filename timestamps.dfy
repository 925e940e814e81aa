/**
 * OSI timestamps (seconds + nanoseconds) and their conversion to and from
 * seconds, as osc_validation/utils/utils.py does it.  Floating point is
 * replaced by exact real arithmetic.
 */
module Timestamps {

  /** osi3.Timestamp: whole seconds and a nanosecond part. */
  datatype Timestamp = Timestamp(seconds: int, nanos: int)

  const NANOS_PER_SECOND: nat := 1000000000

  /** A timestamp whose nanosecond part is in its documented range. */
  predicate Normalized(t: Timestamp) { 0 <= t.nanos < NANOS_PER_SECOND }

  /** Python's int() on a float: truncation toward zero. */
  function Trunc(x: real): (n: int)
    ensures x >= 0.0 ==> n == x.Floor
    ensures n as real <= x < n as real + 1.0 || (x < 0.0 && n as real - 1.0 < x <= n as real)
  {
    if x >= 0.0 then x.Floor else -((-x).Floor)
  }

  /** timestamp_osi_to_float: (seconds * 10^9 + nanos) / 10^9. */
  function ToSeconds(t: Timestamp): real
  {
    (t.seconds * NANOS_PER_SECOND + t.nanos) as real / NANOS_PER_SECOND as real
  }

  /** The readers' and writers' form `seconds + nanos / 1e9` denotes the same number. */
  lemma ToSecondsSplit(t: Timestamp)
    ensures ToSeconds(t) == t.seconds as real + t.nanos as real / NANOS_PER_SECOND as real
  {
  }

  /** timestamp_float_to_osi: floor for the seconds, truncated scaled fraction for the nanos. */
  function FromSeconds(x: real): (t: Timestamp)
    ensures t.seconds == x.Floor && Normalized(t)
  {
    var frac := x - x.Floor as real;
    Timestamp(x.Floor, Trunc(frac * NANOS_PER_SECOND as real))
  }

  /** Converting back loses less than one nanosecond and never rounds up. */
  lemma FromSecondsWithinOneNano(x: real)
    ensures x - 1.0 / NANOS_PER_SECOND as real < ToSeconds(FromSeconds(x)) <= x
  {
    var t := FromSeconds(x);
    var frac := x - x.Floor as real;
    var scaled := frac * NANOS_PER_SECOND as real;
    assert t.nanos as real <= scaled < t.nanos as real + 1.0;
    calc {
      ToSeconds(t);
      (x.Floor * NANOS_PER_SECOND + t.nanos) as real / NANOS_PER_SECOND as real;
      x.Floor as real + t.nanos as real / NANOS_PER_SECOND as real;
    }
    assert x == x.Floor as real + scaled / NANOS_PER_SECOND as real;
  }

  /** For a normalized timestamp the conversion to seconds and back is the identity. */
  lemma RoundTrip(t: Timestamp)
    requires Normalized(t)
    ensures FromSeconds(ToSeconds(t)) == t
  {
    var x := ToSeconds(t);
    var f := t.nanos as real / NANOS_PER_SECOND as real;
    assert x == t.seconds as real + f;
    assert 0.0 <= f < 1.0;
    assert x.Floor == t.seconds;
    assert (x - x.Floor as real) * NANOS_PER_SECOND as real == t.nanos as real;
  }

  /** int(time * 1000000000) with time = seconds + nanos / 1e9, as the MCAP writers stamp messages. */
  function Nanoseconds(t: Timestamp): int
  {
    Trunc(ToSeconds(t) * NANOS_PER_SECOND as real)
  }

  /** In exact arithmetic the stamp is the timestamp's total nanosecond count. */
  lemma NanosecondsExact(t: Timestamp)
    ensures Nanoseconds(t) == t.seconds * NANOS_PER_SECOND + t.nanos
  {
    var n := t.seconds * NANOS_PER_SECOND + t.nanos;
    assert ToSeconds(t) * NANOS_PER_SECOND as real == n as real;
  }
}
