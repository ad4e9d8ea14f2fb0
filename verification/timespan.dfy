/// The `TimeSpan` conversions the wrapper applies to native millisecond
/// values. A `TimeSpan` is a `long` count of 100-nanosecond ticks.
module TimeSpans {
  import opened Base
  import opened Int64

  /// `TimeSpan` ticks in one millisecond.
  const TICKS_PER_MILLISECOND: nat := 10000

  /// `(ulong)Math.Round(span.TotalMilliseconds)` for a span of `ticks`
  /// ticks: the nearest whole millisecond, with a tie going to the even
  /// neighbour.
  function RoundMilliseconds(ticks: nat): (ms: nat)
    ensures ms * TICKS_PER_MILLISECOND <= ticks + TICKS_PER_MILLISECOND / 2
    ensures ticks <= ms * TICKS_PER_MILLISECOND + TICKS_PER_MILLISECOND / 2
    ensures ticks % TICKS_PER_MILLISECOND == TICKS_PER_MILLISECOND / 2 ==> ms % 2 == 0
  {
    var q := ticks / TICKS_PER_MILLISECOND;
    var rem := ticks % TICKS_PER_MILLISECOND;
    if rem > TICKS_PER_MILLISECOND / 2 || (rem == TICKS_PER_MILLISECOND / 2 && q % 2 == 1) then q + 1 else q
  }

  /// No whole millisecond is nearer to the span than the rounded one.
  lemma RoundMillisecondsIsNearest(ticks: nat, m: nat)
    ensures Distance(RoundMilliseconds(ticks) * TICKS_PER_MILLISECOND, ticks) <= Distance(m * TICKS_PER_MILLISECOND, ticks)
  {
    var ms := RoundMilliseconds(ticks);
    if m < ms {
      assert m * TICKS_PER_MILLISECOND <= ms * TICKS_PER_MILLISECOND - TICKS_PER_MILLISECOND;
    } else if m > ms {
      assert m * TICKS_PER_MILLISECOND >= ms * TICKS_PER_MILLISECOND + TICKS_PER_MILLISECOND;
    }
  }

  function Distance(a: int, b: int): nat
  {
    if a <= b then b - a else a - b
  }

  /// `TimeSpan.FromMilliseconds((double)ms)` for a whole number of
  /// milliseconds: the span of `ms` milliseconds, or `OverflowException`
  /// when its tick count does not fit in a `long`.
  function FromMilliseconds(ms: uint64): (r: Result<int>)
    ensures r.Throw? <==> ms * TICKS_PER_MILLISECOND > MAX64
    ensures r.Throw? ==> r.exc == Overflow
    ensures r.Ok? ==> 0 <= r.value <= MAX64 && r.value / TICKS_PER_MILLISECOND == ms && r.value % TICKS_PER_MILLISECOND == 0
  {
    var ticks := ms * TICKS_PER_MILLISECOND;
    if ticks > MAX64 then Throw(Overflow) else Ok(ticks)
  }

  /// A span stored as rounded milliseconds and read back is the whole
  /// millisecond nearest to it, as long as that still fits in a `TimeSpan`.
  lemma {:induction false} RoundThenFromMilliseconds(ticks: nat)
    requires ticks <= MAX64 - TICKS_PER_MILLISECOND / 2
    ensures RoundMilliseconds(ticks) < MODULUS64
    ensures var r := FromMilliseconds(RoundMilliseconds(ticks) as uint64);
      && r.Ok?
      && Distance(r.value, ticks) <= TICKS_PER_MILLISECOND / 2
      && forall m: nat :: Distance(r.value, ticks) <= Distance(m * TICKS_PER_MILLISECOND, ticks)
  {
    var ms := RoundMilliseconds(ticks);
    forall m: nat
      ensures Distance(ms * TICKS_PER_MILLISECOND, ticks) <= Distance(m * TICKS_PER_MILLISECOND, ticks)
    {
      RoundMillisecondsIsNearest(ticks, m);
    }
  }

  /// `TimeSpan.MaxValue` rounds up to a whole millisecond whose span no
  /// longer fits: reading it back throws `OverflowException`.
  lemma MaxSpanDoesNotReadBack()
    ensures RoundMilliseconds(MAX64) < MODULUS64
    ensures FromMilliseconds(RoundMilliseconds(MAX64) as uint64) == Throw(Overflow)
  {
    assert RoundMilliseconds(MAX64) == 922337203685478;
  }
}
