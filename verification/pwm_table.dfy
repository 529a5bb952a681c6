/** What the three actuator drivers share: the typed `array.array` their lookup
    tables live in, the clamp that keeps a request inside the table, and the
    errors Python raises while building or reading a table. */
module PwmTable {
  import opened Wrappers

  /** The `array.array` typecodes the drivers use: `'B'` (unsigned 8-bit) for
      duty values and `'H'` (unsigned 16-bit) for servo pulse widths. */
  datatype TypeCode = UnsignedByte | UnsignedShort

  /** The largest value an array of the given typecode can hold. */
  function MaxValue(t: TypeCode): int {
    match t
    case UnsignedByte => 255
    case UnsignedShort => 65535
  }

  /** Python errors raised on the way to a hardware command:
      `ZeroDivisionError` (a table built for a maximum of 0),
      `OverflowError` (a value the array's typecode cannot hold) and
      `IndexError` (a lookup in an empty table). */
  datatype DriverError = ZeroDivision | Overflow | IndexError

  predicate Fits(t: TypeCode, v: int) {
    0 <= v <= MaxValue(t)
  }

  /** Number of table slots for a maximum input `max`: `max + 1`, or none at all
      when that is not positive (`[0] * n` and `range(n)` are empty for n <= 0). */
  function SlotCount(max: int): (n: nat)
    ensures max >= 0 ==> n == max + 1
    ensures max < 0 ==> n == 0
  {
    if max + 1 > 0 then max + 1 else 0
  }

  /** Stores `values` into a fresh array of typecode `t`, slot by slot, as the
      drivers' build loops do: the first value that does not fit raises
      `OverflowError`; otherwise the array holds exactly `values`. */
  function Store(t: TypeCode, values: seq<int>): (r: Result<seq<int>, DriverError>)
    ensures r.Success? <==> forall i :: 0 <= i < |values| ==> Fits(t, values[i])
    ensures r.Success? ==> r.value == values
    ensures r.Failure? ==> r.error == Overflow
  {
    if |values| == 0 then Success([])
    else if !Fits(t, values[0]) then Failure(Overflow)
    else
      match Store(t, values[1..])
      case Success(rest) => Success([values[0]] + rest)
      case Failure(e) => Failure(e)
  }

  /** `max(0, min(v, hi))`: the request moved into `[0, hi]`; for a negative
      `hi` the outer `max` wins and the result is 0. */
  function Clamp(v: int, hi: int): (c: int)
    ensures 0 <= c
    ensures hi >= 0 ==> c <= hi
    ensures 0 <= v <= hi ==> c == v
    ensures v < 0 ==> c == 0
    ensures hi >= 0 && v > hi ==> c == hi
  {
    if v < hi then (if v > 0 then v else 0)
    else if hi > 0 then hi else 0
  }

  /** `table[i]` for a non-negative index: `IndexError` past the end. */
  function Lookup(table: seq<int>, i: nat): (r: Result<int, DriverError>)
    ensures r.Success? <==> i < |table|
    ensures r.Success? ==> r.value == table[i]
    ensures r.Failure? ==> r.error == IndexError
  {
    if i < |table| then Success(table[i]) else Failure(IndexError)
  }

  /** Every entry of `table` lies in `[lo, hi]`. */
  predicate Bounded(table: seq<int>, lo: int, hi: int) {
    forall i :: 0 <= i < |table| ==> lo <= table[i] <= hi
  }

  /** Entries never decrease as the index grows. */
  predicate NonDecreasing(table: seq<int>) {
    forall i, j :: 0 <= i <= j < |table| ==> table[i] <= table[j]
  }

  /** A clamped request always indexes a table of `hi + 1` entries. */
  lemma ClampedIndexInRange(table: seq<int>, v: int, hi: int)
    requires hi >= 0 && |table| == hi + 1
    ensures Lookup(table, Clamp(v, hi)).Success?
  {
  }

  /** `k * full / max` lies in `[0, full]` for `k` in `[0, max]`. */
  lemma ProportionWithin(k: int, max: int, full: int)
    requires 0 <= k <= max && max >= 1 && full >= 0
    ensures 0.0 <= (k * full) as real / max as real <= full as real
  {
    assert k * full <= max * full by {
      assert (max - k) * full >= 0;
    }
  }

  /** `k * full / max` grows with `k`. */
  lemma ProportionMonotone(i: int, j: int, max: int, full: int)
    requires i <= j && max >= 1 && full >= 0
    ensures (i * full) as real / max as real <= (j * full) as real / max as real
  {
    assert i * full <= j * full by {
      assert (j - i) * full >= 0;
    }
  }
}
