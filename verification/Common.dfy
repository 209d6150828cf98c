/** Types shared by the floodguard models. */
module Common {

  newtype byte = b: int | 0 <= b < 256

  type Bytes = seq<byte>

  datatype Option<+T> = None | Some(value: T)

  datatype Result<+T, +E> = Success(value: T) | Failure(error: E)

  /** Clock readings are integers counting nanoseconds; Redis counts whole milliseconds. */
  const NANOS_PER_MILLI := 1_000_000
  const NANOS_PER_SECOND := 1_000_000_000

  const MAX_INT64 := 0x7FFF_FFFF_FFFF_FFFF
  const MIN_INT64 := -0x8000_0000_0000_0000
  const TWO_64 := 0x1_0000_0000_0000_0000

  predicate IsInt64(x: int) {
    MIN_INT64 <= x <= MAX_INT64
  }

  /** The int64 that Go's wrap-around arithmetic makes of a sum, difference or negation of int64s. */
  function Int64(x: int): (r: int)
    requires 2 * MIN_INT64 <= x <= -2 * MIN_INT64
    ensures IsInt64(r)
    ensures IsInt64(x) ==> r == x
  {
    if x > MAX_INT64 then x - TWO_64 else if x < MIN_INT64 then x + TWO_64 else x
  }

  /** The int64 congruent to x modulo 2^64, for sums of any length. */
  function Wrap64(x: int): (r: int)
    ensures IsInt64(r)
    ensures IsInt64(x) ==> r == x
    ensures (x - r) % TWO_64 == 0
  {
    (x - MIN_INT64) % TWO_64 + MIN_INT64
  }

  lemma Remainder(x: int, q: int, rem: int)
    requires 0 <= rem < TWO_64 && x == q * TWO_64 + rem
    ensures x % TWO_64 == rem
  {
  }

  /** Wrapping at every addition gives the wrapped sum. */
  lemma WrapAdd(x: int, y: int)
    requires IsInt64(y)
    ensures Int64(Wrap64(x) + y) == Wrap64(x + y)
  {
    var q, sum := (x - MIN_INT64) / TWO_64, Wrap64(x) + y;
    var q' := if sum > MAX_INT64 then q + 1 else if sum < MIN_INT64 then q - 1 else q;
    Remainder(x + y - MIN_INT64, q', Int64(sum) - MIN_INT64);
  }

  lemma {:induction false} SubsetSize<T>(a: set<T>, b: set<T>)
    requires a <= b
    ensures |a| <= |b|
  {
    assert b == a + (b - a);
  }
}
