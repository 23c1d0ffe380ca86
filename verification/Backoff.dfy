/** The reconnect delays of src/bridge.rs. A duration is its number of nanoseconds. */
module Backoff {
  import opened Base
  import opened Bits

  const U64_MAX: nat := 0xFFFF_FFFF_FFFF_FFFF
  const MAX_DURATION: nat := U64_MAX * 1_000_000_000 + 999_999_999

  type Duration = d: nat | d <= MAX_DURATION

  function Min(a: nat, b: nat): nat {
    if a < b then a else b
  }

  function SaturatingDouble(d: Duration): Duration {
    if 2 * d > MAX_DURATION then MAX_DURATION else 2 * d
  }

  function SaturatingAdd(a: Duration, b: Duration): Duration {
    if a + b > MAX_DURATION then MAX_DURATION else a + b
  }

  datatype Reconnect = Reconnect(minimum: Duration, maximum: Duration, current: Duration)

  function Fresh(minimum: Duration, maximum: Duration): Reconnect {
    Reconnect(minimum, maximum, minimum)
  }

  function Advanced(r: Reconnect): Reconnect {
    r.(current := Min(SaturatingDouble(r.current), r.maximum))
  }

  function Reset(r: Reconnect): Reconnect {
    r.(current := r.minimum)
  }

  /** The most milliseconds of jitter that a base delay may get. */
  function JitterLimit(base: Duration): nat {
    Min(base / 1_000_000 / 4, U64_MAX)
  }

  function Delay(base: Duration, jitter: nat): Duration
    requires jitter <= JitterLimit(base)
  {
    SaturatingAdd(base, jitter * 1_000_000)
  }

  /** A delay is its base and up to a quarter more. */
  lemma DelayIsWithinAQuarter(base: Duration, jitter: nat)
    requires jitter <= JitterLimit(base)
    ensures base <= Delay(base, jitter) && 4 * Delay(base, jitter) <= 5 * base
  {
    var quarter := base / 1_000_000 / 4;
    assert 4 * quarter <= base / 1_000_000;
    assert 4_000_000 * quarter <= base;
  }

  /** The greatest jitter misses that quarter by less than a millisecond. */
  lemma JitterFillsTheQuarter(base: Duration)
    requires base <= 4_000_000 * U64_MAX
    ensures 4 * (Delay(base, JitterLimit(base)) + 1_000_000) > 5 * base
  {
    var quarter := base / 1_000_000 / 4;
    assert base < 1_000_000 * (base / 1_000_000 + 1);
    assert base / 1_000_000 < 4 * (quarter + 1);
  }

  /** The n-th base delay since a reset. */
  function BaseDelay(r: Reconnect, n: nat): Duration
    decreases n
  {
    AfterDelays(r, n).current
  }

  function AfterDelays(r: Reconnect, n: nat): (after: Reconnect)
    ensures after.maximum == r.maximum && after.minimum == r.minimum
    decreases n
  {
    if n == 0 then Reset(r) else Advanced(AfterDelays(r, n - 1))
  }

  lemma DoubledProduct(m: nat, p: nat)
    ensures m * (2 * p) == 2 * (m * p)
  {
  }

  lemma CappedDoubling(d: nat, maximum: Duration)
    ensures Min(SaturatingDouble(Min(d, maximum)), maximum) == Min(2 * d, maximum)
  {
  }

  lemma {:induction false} BaseDelayIsCapped(r: Reconnect, n: nat)
    requires r.minimum <= r.maximum
    ensures BaseDelay(r, n) == Min(r.minimum * Power2(n), r.maximum)
    decreases n
  {
    if n > 0 {
      BaseDelayIsCapped(r, n - 1);
      DoubledProduct(r.minimum, Power2(n - 1));
      CappedDoubling(r.minimum * Power2(n - 1), r.maximum);
      hide Min, SaturatingDouble;
    }
  }

  /** Despite saturation the base delays double up to the maximum, exactly when the minimum does not
      exceed it. */
  lemma BaseDelaysHaveAClosedForm(r: Reconnect)
    ensures (forall n: nat :: BaseDelay(r, n) == Min(r.minimum * Power2(n), r.maximum)) <==> r.minimum <= r.maximum
  {
    if r.minimum <= r.maximum {
      forall n: nat
        ensures BaseDelay(r, n) == Min(r.minimum * Power2(n), r.maximum)
      {
        BaseDelayIsCapped(r, n);
      }
    } else {
      assert BaseDelay(r, 0) != Min(r.minimum * Power2(0), r.maximum);
    }
  }

  class ReconnectBackoff {
    const minimum: Duration
    const maximum: Duration
    var current: Duration

    function Model(): Reconnect
      reads this
    {
      Reconnect(minimum, maximum, current)
    }

    constructor (minimum: Duration, maximum: Duration)
      ensures Model() == Fresh(minimum, maximum)
    {
      this.minimum, this.maximum, current := minimum, maximum, minimum;
    }

    method NextDelay(jitter: nat) returns (delay: Duration)
      requires jitter <= JitterLimit(current)
      modifies this
      ensures delay == Delay(old(current), jitter)
      ensures Model() == Advanced(old(Model()))
      ensures old(current) <= delay && 4 * delay <= 5 * old(current)
    {
      var base := current;
      DelayIsWithinAQuarter(base, jitter);
      current := Min(SaturatingDouble(current), maximum);
      delay := SaturatingAdd(base, jitter * 1_000_000);
    }

    method ResetDelay()
      modifies this
      ensures Model() == Reset(old(Model()))
    {
      current := minimum;
    }
  }
}
