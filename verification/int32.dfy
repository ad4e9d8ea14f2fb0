/// Two's-complement 32-bit integers as the C# code uses them:
/// - `int` values;
/// - `unchecked` increments that wrap from int.MaxValue to int.MinValue;
/// - the truncating casts `unchecked((int)x)` and `(uint)x` of other integers.
module Int32 {
  const MIN: int := -0x8000_0000
  const MAX: int := 0x7FFF_FFFF
  const MODULUS: int := 0x1_0000_0000

  type int32 = x: int | MIN <= x <= MAX
  type uint32 = x: int | 0 <= x < MODULUS

  /// The low 32 bits of `x`, read as a signed value: `unchecked((int)x)`.
  function Wrap(x: int): (r: int32)
    ensures (r - x) % MODULUS == 0
    ensures MIN <= x <= MAX ==> r == x
  {
    (x - MIN) % MODULUS + MIN
  }

  /// The low 32 bits of `x`, read as an unsigned value: `unchecked((uint)x)`.
  function WrapUnsigned(x: int): (r: uint32)
    ensures (r - x) % MODULUS == 0
    ensures 0 <= x < MODULUS ==> r == x
  {
    x % MODULUS
  }

  /// `unchecked(x + 1)`. It is the successor, except that int.MaxValue
  /// wraps to int.MinValue.
  function Next(x: int32): (r: int32)
    ensures r == Wrap(x + 1)
  {
    if x < MAX then x + 1 else MIN
  }

  /// The value after `k` wrapping increments of `start`: the k-th slot that
  /// a wrap-around probe starting at `start` visits.
  function Probe(start: int32, k: nat): (r: int32)
    requires k <= MODULUS
    ensures r == Wrap(start + k)
  {
    var offset := start - MIN + k;
    if offset < MODULUS then offset + MIN else offset - MODULUS + MIN
  }

  /// One more increment moves the probe one slot on.
  lemma ProbeStep(start: int32, k: nat)
    requires k < MODULUS
    ensures Next(Probe(start, k)) == Probe(start, k + 1)
  {
  }

  /// A probe comes back to its start only after exactly 2^32 increments.
  lemma ProbeReturnsToStart(start: int32, k: nat)
    requires k <= MODULUS
    ensures Probe(start, k) == start <==> k == 0 || k == MODULUS
  {
  }

  /// Within one lap, a probe never visits the same slot twice.
  lemma ProbeInjective(start: int32, i: nat, j: nat)
    requires i < MODULUS && j < MODULUS
    ensures Probe(start, i) == Probe(start, j) ==> i == j
  {
  }

  /// Within one lap, a probe visits every 32-bit value.
  lemma ProbeReaches(start: int32, v: int32) returns (k: nat)
    ensures k < MODULUS && Probe(start, k) == v
  {
    k := (v - start) % MODULUS;
  }

  /// The slots of the first `n` probes.
  ghost function Visited(start: int32, n: nat): set<int>
    requires n <= MODULUS
  {
    set k | 0 <= k < n :: Probe(start, k) as int
  }

  /// The first `n` probes visit `n` distinct slots.
  lemma {:induction false} VisitedCount(start: int32, n: nat)
    requires n <= MODULUS
    ensures |Visited(start, n)| == n
  {
    if n > 0 {
      VisitedCount(start, n - 1);
      VisitedGrows(start, n - 1);
    }
  }

  lemma VisitedGrows(start: int32, n: nat)
    requires n < MODULUS
    ensures Probe(start, n) as int !in Visited(start, n)
    ensures Visited(start, n + 1) == Visited(start, n) + {Probe(start, n) as int}
  {
    var last := Probe(start, n) as int;
    if last in Visited(start, n) {
      var k :| 0 <= k < n && Probe(start, k) as int == last;
      ProbeInjective(start, k, n);
    }
    forall x | x in Visited(start, n + 1) ensures x in Visited(start, n) + {last} {
      var k :| 0 <= k < n + 1 && Probe(start, k) as int == x;
    }
  }

  /// A set with fewer than 2^32 elements leaves some 32-bit value out.
  lemma FreeValueExists(taken: set<int>) returns (v: int32)
    requires |taken| < MODULUS
    ensures v !in taken
  {
    VisitedCount(MIN, MODULUS);
    var all := Visited(MIN, MODULUS);
    if all <= taken {
      SubsetCardinality(all, taken);
      assert false;
    }
    var w :| w in all && w !in taken;
    var k :| 0 <= k < MODULUS && Probe(MIN, k) as int == w;
    v := Probe(MIN, k);
  }

  lemma SubsetCardinality(a: set<int>, b: set<int>)
    requires a <= b
    ensures |a| <= |b|
  {
    assert b == a + (b - a);
  }
}
