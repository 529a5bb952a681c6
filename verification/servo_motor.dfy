/** The hobby-servo driver: a table from whole-degree angles to pulse widths
    in microseconds (1000 at angle 0, 2000 at the maximum angle), built once
    in the constructor, and a setter that clamps the angle before the lookup.
    The hardware call is modelled as the last pulse width sent. */
module ServoMotor {
  import opened Wrappers
  import opened PwmTable
  import PyNum

  /** The constructor's default `max_angle`. */
  const DefaultMaxAngle: int := 180

  /** Pulse width at angle 0 and the span added at the maximum angle, in microseconds. */
  const MinPulseWidth: int := 1000
  const PulseSpan: int := 1000
  const MaxPulseWidth: int := MinPulseWidth + PulseSpan

  /** The servo object: `max_angle`, the lookup table, and the pulse width
      most recently handed to the hardware (`None` before the first command;
      the constructor sends none). */
  datatype Servo = Servo(maxAngle: int, table: seq<int>, pulseWidth: Option<int>)

  /** The pulse width the build loop rounds for one angle. */
  function PulseBeforeRounding(angle: int, maxAngle: int): (w: real)
    requires maxAngle != 0
    ensures w == (angle * PulseSpan) as real / maxAngle as real + MinPulseWidth as real
  {
    (angle as real / maxAngle as real) * PulseSpan as real + MinPulseWidth as real
  }

  /** The rounded pulse width of one angle. */
  function Entry(angle: int, maxAngle: int): (e: int)
    requires maxAngle != 0
    ensures PyNum.IsRoundHalfEven((angle * PulseSpan) as real / maxAngle as real + MinPulseWidth as real, e)
  {
    PyNum.RoundHalfEven(PulseBeforeRounding(angle, maxAngle))
  }

  lemma EntryEndpoints(maxAngle: int)
    requires maxAngle >= 1
    ensures Entry(0, maxAngle) == MinPulseWidth
    ensures Entry(maxAngle, maxAngle) == MaxPulseWidth
  {
    assert PulseBeforeRounding(0, maxAngle) == MinPulseWidth as real;
    assert PulseBeforeRounding(maxAngle, maxAngle) == MaxPulseWidth as real;
    PyNum.RoundOfInteger(MinPulseWidth);
    PyNum.RoundOfInteger(MaxPulseWidth);
  }

  lemma EntryWithin(angle: int, maxAngle: int)
    requires 0 <= angle <= maxAngle && maxAngle >= 1
    ensures MinPulseWidth <= Entry(angle, maxAngle) <= MaxPulseWidth
  {
    ProportionWithin(angle, maxAngle, PulseSpan);
    PyNum.RoundWithin(PulseBeforeRounding(angle, maxAngle), MinPulseWidth, MaxPulseWidth);
  }

  lemma EntryMonotone(i: int, j: int, maxAngle: int)
    requires i <= j && maxAngle >= 1
    ensures Entry(i, maxAngle) <= Entry(j, maxAngle)
  {
    ProportionMonotone(i, j, maxAngle, PulseSpan);
    PyNum.RoundMonotone(PulseBeforeRounding(i, maxAngle), PulseBeforeRounding(j, maxAngle));
  }

  /** The rounded pulse widths before they are stored. */
  function Values(maxAngle: int): (v: seq<int>)
    requires maxAngle != 0
    ensures |v| == SlotCount(maxAngle)
  {
    seq(SlotCount(maxAngle), angle => Entry(angle, maxAngle))
  }

  lemma ValuesFacts(maxAngle: int)
    requires maxAngle >= 1
    ensures forall k :: 0 <= k <= maxAngle ==>
              PyNum.IsRoundHalfEven((k * PulseSpan) as real / maxAngle as real + MinPulseWidth as real,
                                    Values(maxAngle)[k])
    ensures Values(maxAngle)[0] == MinPulseWidth
    ensures Values(maxAngle)[maxAngle] == MaxPulseWidth
    ensures Bounded(Values(maxAngle), MinPulseWidth, MaxPulseWidth)
    ensures NonDecreasing(Values(maxAngle))
  {
    var v := Values(maxAngle);
    EntryEndpoints(maxAngle);
    forall i | 0 <= i < |v|
      ensures MinPulseWidth <= v[i] <= MaxPulseWidth
    {
      EntryWithin(i, maxAngle);
    }
    forall i, j | 0 <= i <= j < |v|
      ensures v[i] <= v[j]
    {
      EntryMonotone(i, j, maxAngle);
    }
  }

  /** `_build_lookup_table`: one rounded pulse width per angle in
      `0..max_angle`, stored into an unsigned 16-bit array. */
  function BuildLookupTable(maxAngle: int): (r: Result<seq<int>, DriverError>)
    ensures maxAngle == 0 <==> r == Failure(ZeroDivision)
    ensures maxAngle < 0 ==> r == Success([])
    ensures maxAngle >= 1 ==> r.Success? && |r.value| == maxAngle + 1
    ensures maxAngle >= 1 ==> forall k :: 0 <= k <= maxAngle ==>
              PyNum.IsRoundHalfEven((k * PulseSpan) as real / maxAngle as real + MinPulseWidth as real,
                                    r.value[k])
    ensures maxAngle >= 1 ==> r.value[0] == MinPulseWidth && r.value[maxAngle] == MaxPulseWidth
    ensures maxAngle >= 1 ==> Bounded(r.value, MinPulseWidth, MaxPulseWidth) && NonDecreasing(r.value)
  {
    if maxAngle == 0 then Failure(ZeroDivision)
    else if maxAngle < 0 then Store(UnsignedShort, Values(maxAngle))
    else
      ValuesFacts(maxAngle);
      Store(UnsignedShort, Values(maxAngle))
  }

  /** `__init__` with its hardware setup left out: only the table is built,
      and no pulse is sent. */
  function Init(maxAngle: int): (r: Result<Servo, DriverError>)
    ensures r.Success? <==> maxAngle != 0
    ensures r.Failure? ==> r.error == ZeroDivision
    ensures r.Success? ==> Constructed(r.value) && r.value.maxAngle == maxAngle && r.value.pulseWidth.None?
  {
    match BuildLookupTable(maxAngle)
    case Failure(e) => Failure(e)
    case Success(table) => Success(Servo(maxAngle, table, None))
  }

  /** What every servo the constructor returns satisfies. */
  predicate Constructed(s: Servo) {
    s.maxAngle != 0 && BuildLookupTable(s.maxAngle) == Success(s.table)
  }

  /** `set_angle`: clamp the angle into `[0, max_angle]`, look its pulse width
      up and send it. Only a servo built with a negative maximum (whose table
      is empty) fails, with `IndexError`; otherwise the commanded width lies
      in `[1000, 2000]`. */
  function SetAngle(s: Servo, angle: int): (r: Result<Servo, DriverError>)
    requires Constructed(s)
    ensures r.Success? <==> s.maxAngle >= 1
    ensures r.Failure? ==> r.error == IndexError
    ensures r.Success? ==> r.value.maxAngle == s.maxAngle && r.value.table == s.table
    ensures r.Success? ==> r.value.pulseWidth.Some?
    ensures r.Success? ==> MinPulseWidth <= r.value.pulseWidth.value <= MaxPulseWidth
    ensures r.Success? && 0 <= angle <= s.maxAngle ==> r.value.pulseWidth.value == s.table[angle]
    ensures r.Success? && angle <= 0 ==> r.value.pulseWidth.value == MinPulseWidth
    ensures r.Success? && angle >= s.maxAngle ==> r.value.pulseWidth.value == MaxPulseWidth
  {
    match Lookup(s.table, Clamp(angle, s.maxAngle))
    case Failure(e) => Failure(e)
    case Success(width) => Success(s.(pulseWidth := Some(width)))
  }

  /** `stop`: pulse width 0, which turns the servo signal off. */
  function Stop(s: Servo): (r: Servo)
    ensures r.pulseWidth == Some(0)
    ensures r.maxAngle == s.maxAngle && r.table == s.table
  {
    s.(pulseWidth := Some(0))
  }

  /** The commanded width is monotone in the requested angle. */
  lemma SetAngleMonotone(s: Servo, a: int, b: int)
    requires Constructed(s) && s.maxAngle >= 1 && a <= b
    ensures SetAngle(s, a).value.pulseWidth.value <= SetAngle(s, b).value.pulseWidth.value
  {
    assert NonDecreasing(s.table);
    assert s.table[Clamp(a, s.maxAngle)] <= s.table[Clamp(b, s.maxAngle)];
  }

  /** The default servo has 181 entries and its centre angle 90 commands 1500 us. */
  lemma DefaultServo()
    ensures Init(DefaultMaxAngle).Success?
    ensures |Init(DefaultMaxAngle).value.table| == 181
    ensures Init(DefaultMaxAngle).value.table[90] == 1500
  {
    var t := Init(DefaultMaxAngle).value.table;
    assert t[90] == Entry(90, DefaultMaxAngle);
    assert PulseBeforeRounding(90, DefaultMaxAngle) == 1500.0;
    PyNum.RoundOfInteger(1500);
  }
}
