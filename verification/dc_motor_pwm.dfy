/** The single-direction DC motor driver: a table from rpm to an 8-bit PWM duty
    value, built once, and a setter that clamps the requested rpm before
    looking it up. The hardware call is modelled as the last duty value sent. */
module DcMotorPwm {
  import opened Wrappers
  import opened PwmTable
  import PyNum

  /** The constructor's default `max_rpm`. */
  const DefaultMaxRpm: int := 95

  /** Full scale of the 8-bit duty range. */
  const DutyFullScale: int := 255

  /** The motor object: its `max_rpm`, its lookup table, and the duty value
      most recently handed to the PWM hardware. */
  datatype DcMotor = DcMotor(maxRpm: int, table: seq<int>, duty: int)

  /** The value the build loop rounds for one rpm: the rpm as a percentage of
      `max_rpm`, then that percentage of 255. */
  function DutyBeforeRounding(rpm: int, maxRpm: int): (d: real)
    requires maxRpm != 0
    ensures d == (rpm * DutyFullScale) as real / maxRpm as real
  {
    var percent := (rpm as real / maxRpm as real) * 100.0;
    percent * DutyFullScale as real / 100.0
  }

  /** The rounded duty value of one rpm. */
  function Entry(rpm: int, maxRpm: int): (e: int)
    requires maxRpm != 0
    ensures PyNum.IsRoundHalfEven((rpm * DutyFullScale) as real / maxRpm as real, e)
  {
    PyNum.RoundHalfEven(DutyBeforeRounding(rpm, maxRpm))
  }

  lemma DutyEntryEndpoints(maxRpm: int)
    requires maxRpm >= 1
    ensures Entry(0, maxRpm) == 0
    ensures Entry(maxRpm, maxRpm) == DutyFullScale
  {
    assert (maxRpm * DutyFullScale) as real == maxRpm as real * DutyFullScale as real;
    assert DutyBeforeRounding(maxRpm, maxRpm) == DutyFullScale as real;
    PyNum.RoundOfInteger(0);
    PyNum.RoundOfInteger(DutyFullScale);
  }

  lemma DutyEntryWithin(rpm: int, maxRpm: int)
    requires 0 <= rpm <= maxRpm && maxRpm >= 1
    ensures 0 <= Entry(rpm, maxRpm) <= DutyFullScale
  {
    PwmTable.ProportionWithin(rpm, maxRpm, DutyFullScale);
    PyNum.RoundWithin(DutyBeforeRounding(rpm, maxRpm), 0, DutyFullScale);
  }

  lemma DutyEntryMonotone(i: int, j: int, maxRpm: int)
    requires i <= j && maxRpm >= 1
    ensures Entry(i, maxRpm) <= Entry(j, maxRpm)
  {
    PwmTable.ProportionMonotone(i, j, maxRpm, DutyFullScale);
    PyNum.RoundMonotone(DutyBeforeRounding(i, maxRpm), DutyBeforeRounding(j, maxRpm));
  }

  /** The rounded values before they are stored. */
  function Values(maxRpm: int): (v: seq<int>)
    requires maxRpm != 0
    ensures |v| == SlotCount(maxRpm)
  {
    seq(SlotCount(maxRpm), rpm => Entry(rpm, maxRpm))
  }

  /** `_build_lookup_table`: one rounded duty value per rpm in `0..max_rpm`,
      stored into an unsigned 8-bit array. Entry `k` is `round(k * 255 / max_rpm)`. */
  function BuildLookupTable(maxRpm: int): (r: Result<seq<int>, DriverError>)
    ensures maxRpm == 0 <==> r == Failure(ZeroDivision)
    ensures maxRpm < 0 ==> r == Success([])
    ensures maxRpm >= 1 ==> r.Success? && |r.value| == maxRpm + 1
    ensures maxRpm >= 1 ==> forall k :: 0 <= k <= maxRpm ==>
              PyNum.IsRoundHalfEven((k * DutyFullScale) as real / maxRpm as real, r.value[k])
    ensures maxRpm >= 1 ==> r.value[0] == 0 && r.value[maxRpm] == DutyFullScale
    ensures maxRpm >= 1 ==> Bounded(r.value, 0, DutyFullScale) && NonDecreasing(r.value)
  {
    if maxRpm == 0 then Failure(ZeroDivision)
    else if maxRpm < 0 then Store(UnsignedByte, Values(maxRpm))
    else
      ValuesFacts(maxRpm);
      Store(UnsignedByte, Values(maxRpm))
  }

  /** The facts about the rounded duty values that make the table valid. */
  lemma ValuesFacts(maxRpm: int)
    requires maxRpm >= 1
    ensures forall k :: 0 <= k <= maxRpm ==>
              PyNum.IsRoundHalfEven((k * DutyFullScale) as real / maxRpm as real, Values(maxRpm)[k])
    ensures Values(maxRpm)[0] == 0 && Values(maxRpm)[maxRpm] == DutyFullScale
    ensures Bounded(Values(maxRpm), 0, DutyFullScale) && NonDecreasing(Values(maxRpm))
  {
    var v := Values(maxRpm);
    DutyEntryEndpoints(maxRpm);
    forall i | 0 <= i < |v|
      ensures 0 <= v[i] <= DutyFullScale
    {
      DutyEntryWithin(i, maxRpm);
    }
    forall i, j | 0 <= i <= j < |v|
      ensures v[i] <= v[j]
    {
      DutyEntryMonotone(i, j, maxRpm);
    }
  }

  /** `set_rpm`: clamp the request into `[0, max_rpm]`, look its duty value up
      and send it. On a motor the constructor produced the lookup cannot fail. */
  function SetRpm(m: DcMotor, rpm: int): (r: DcMotor)
    requires Constructed(m)
    ensures r.maxRpm == m.maxRpm && r.table == m.table
    ensures 0 <= r.duty <= DutyFullScale
    ensures 0 <= rpm <= m.maxRpm ==> r.duty == m.table[rpm]
    ensures rpm >= m.maxRpm ==> r.duty == DutyFullScale
    ensures rpm <= 0 ==> r.duty == 0
  {
    var i := Clamp(rpm, m.maxRpm);
    m.(duty := m.table[i])
  }

  /** `stop`: duty 0 straight to the hardware, without the table. */
  function Stop(m: DcMotor): (r: DcMotor)
    ensures r.duty == 0
    ensures r.maxRpm == m.maxRpm && r.table == m.table
  {
    m.(duty := 0)
  }

  /** What every motor the constructor returns satisfies. */
  predicate Constructed(m: DcMotor) {
    m.maxRpm >= 1 && BuildLookupTable(m.maxRpm) == Success(m.table)
  }

  /** `__init__` with its hardware setup left out: build the table, then
      `set_rpm(0)`. A maximum of 0 fails in the build; a negative maximum
      builds an empty table whose lookup at index 0 fails. */
  function Init(maxRpm: int): (r: Result<DcMotor, DriverError>)
    ensures r.Success? <==> maxRpm >= 1
    ensures maxRpm == 0 ==> r == Failure(ZeroDivision)
    ensures maxRpm < 0 ==> r == Failure(IndexError)
    ensures r.Success? ==> Constructed(r.value) && r.value.maxRpm == maxRpm && r.value.duty == 0
  {
    match BuildLookupTable(maxRpm)
    case Failure(e) => Failure(e)
    case Success(table) =>
      match Lookup(table, Clamp(0, maxRpm))
      case Failure(e) => Failure(e)
      case Success(duty) => Success(DcMotor(maxRpm, table, duty))
  }

  /** Stopping commands the same duty as asking for 0 rpm (or less). */
  lemma StopMatchesZeroRpm(m: DcMotor, rpm: int)
    requires Constructed(m) && rpm <= 0
    ensures Stop(m) == SetRpm(m, rpm)
  {
  }

  /** The duty a motor sends is monotone in the requested rpm. */
  lemma SetRpmMonotone(m: DcMotor, a: int, b: int)
    requires Constructed(m) && a <= b
    ensures SetRpm(m, a).duty <= SetRpm(m, b).duty
  {
    assert NonDecreasing(m.table);
    assert m.table[Clamp(a, m.maxRpm)] <= m.table[Clamp(b, m.maxRpm)];
  }

  /** With the default maximum of 95 rpm, the table has 96 entries from 0 to 255. */
  lemma DefaultMotor()
    ensures Init(DefaultMaxRpm).Success?
    ensures |Init(DefaultMaxRpm).value.table| == 96
    ensures Init(DefaultMaxRpm).value.table[95] == 255
  {
  }
}
