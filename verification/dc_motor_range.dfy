/** The variant of the DC motor driver whose duty scale is a constructor
    parameter, `pwm_resolution`, instead of the fixed 255. The table still
    lives in an unsigned 8-bit array, so for `max_rpm >= 1` a resolution
    outside `[0, 255]` makes the build raise. */
module DcMotorRange {
  import opened Wrappers
  import opened PwmTable
  import PyNum
  import DcMotorPwm

  /** The constructor's default `pwm_resolution`. */
  const DefaultResolution: int := 255

  /** The motor object: `max_rpm`, `pwm_resolution`, the lookup table, and the
      duty value most recently handed to the PWM hardware. */
  datatype DcMotor = DcMotor(maxRpm: int, resolution: int, table: seq<int>, duty: int)

  /** The value the build loop rounds for one rpm: the rpm as a percentage of
      `max_rpm`, then that percentage of the resolution. */
  function DutyBeforeRounding(rpm: int, maxRpm: int, resolution: int): (d: real)
    requires maxRpm != 0
    ensures d == (rpm * resolution) as real / maxRpm as real
  {
    var percent := (rpm as real / maxRpm as real) * 100.0;
    percent * resolution as real / 100.0
  }

  /** The rounded duty value of one rpm. */
  function Entry(rpm: int, maxRpm: int, resolution: int): (e: int)
    requires maxRpm != 0
    ensures PyNum.IsRoundHalfEven((rpm * resolution) as real / maxRpm as real, e)
  {
    PyNum.RoundHalfEven(DutyBeforeRounding(rpm, maxRpm, resolution))
  }

  /** The entries at both ends of the rpm range are exactly 0 and the resolution. */
  lemma EntryEndpoints(maxRpm: int, resolution: int)
    requires maxRpm >= 1
    ensures Entry(0, maxRpm, resolution) == 0
    ensures Entry(maxRpm, maxRpm, resolution) == resolution
  {
    assert (maxRpm * resolution) as real == maxRpm as real * resolution as real;
    assert DutyBeforeRounding(maxRpm, maxRpm, resolution) == resolution as real;
    PyNum.RoundOfInteger(0);
    PyNum.RoundOfInteger(resolution);
  }

  lemma EntryWithin(rpm: int, maxRpm: int, resolution: int)
    requires 0 <= rpm <= maxRpm && maxRpm >= 1 && resolution >= 0
    ensures 0 <= Entry(rpm, maxRpm, resolution) <= resolution
  {
    ProportionWithin(rpm, maxRpm, resolution);
    PyNum.RoundWithin(DutyBeforeRounding(rpm, maxRpm, resolution), 0, resolution);
  }

  lemma EntryMonotone(i: int, j: int, maxRpm: int, resolution: int)
    requires i <= j && maxRpm >= 1 && resolution >= 0
    ensures Entry(i, maxRpm, resolution) <= Entry(j, maxRpm, resolution)
  {
    ProportionMonotone(i, j, maxRpm, resolution);
    PyNum.RoundMonotone(DutyBeforeRounding(i, maxRpm, resolution), DutyBeforeRounding(j, maxRpm, resolution));
  }

  /** The rounded values before they are stored. */
  function Values(maxRpm: int, resolution: int): (v: seq<int>)
    requires maxRpm != 0
    ensures |v| == SlotCount(maxRpm)
  {
    seq(SlotCount(maxRpm), rpm => Entry(rpm, maxRpm, resolution))
  }

  /** `_build_lookup_table`: one rounded duty value per rpm in `0..max_rpm`,
      stored into an unsigned 8-bit array. For `max_rpm >= 1` the build
      succeeds exactly when the resolution fits that array; a maximum of 0
      divides by zero, and a negative maximum stores nothing and succeeds
      whatever the resolution. */
  function BuildLookupTable(maxRpm: int, resolution: int): (r: Result<seq<int>, DriverError>)
    ensures maxRpm == 0 <==> r == Failure(ZeroDivision)
    ensures maxRpm < 0 ==> r == Success([])
    ensures maxRpm >= 1 ==> (r.Success? <==> 0 <= resolution <= MaxValue(UnsignedByte))
    ensures maxRpm >= 1 && r.Failure? ==> r.error == Overflow
    ensures r.Success? && maxRpm >= 1 ==> |r.value| == maxRpm + 1
    ensures r.Success? && maxRpm >= 1 ==> forall k :: 0 <= k <= maxRpm ==>
              PyNum.IsRoundHalfEven((k * resolution) as real / maxRpm as real, r.value[k])
    ensures r.Success? && maxRpm >= 1 ==> r.value[0] == 0 && r.value[maxRpm] == resolution
    ensures r.Success? && maxRpm >= 1 ==> Bounded(r.value, 0, resolution) && NonDecreasing(r.value)
  {
    if maxRpm == 0 then Failure(ZeroDivision)
    else if maxRpm < 0 then Store(UnsignedByte, Values(maxRpm, resolution))
    else
      ValuesFacts(maxRpm, resolution);
      Store(UnsignedByte, Values(maxRpm, resolution))
  }

  lemma ValuesFacts(maxRpm: int, resolution: int)
    requires maxRpm >= 1
    ensures forall k :: 0 <= k <= maxRpm ==>
              PyNum.IsRoundHalfEven((k * resolution) as real / maxRpm as real, Values(maxRpm, resolution)[k])
    ensures Values(maxRpm, resolution)[0] == 0
    ensures Values(maxRpm, resolution)[maxRpm] == resolution
    ensures resolution >= 0 ==> Bounded(Values(maxRpm, resolution), 0, resolution)
    ensures resolution >= 0 ==> NonDecreasing(Values(maxRpm, resolution))
  {
    var v := Values(maxRpm, resolution);
    EntryEndpoints(maxRpm, resolution);
    if resolution >= 0 {
      forall i | 0 <= i < |v|
        ensures 0 <= v[i] <= resolution
      {
        EntryWithin(i, maxRpm, resolution);
      }
      forall i, j | 0 <= i <= j < |v|
        ensures v[i] <= v[j]
      {
        EntryMonotone(i, j, maxRpm, resolution);
      }
    }
  }

  /** What every motor the constructor returns satisfies. */
  predicate Constructed(m: DcMotor) {
    m.maxRpm >= 1 && BuildLookupTable(m.maxRpm, m.resolution) == Success(m.table)
  }

  /** `set_rpm`: clamp the request into `[0, max_rpm]`, look its duty value up
      and send it. On a motor the constructor produced the lookup cannot fail. */
  function SetRpm(m: DcMotor, rpm: int): (r: DcMotor)
    requires Constructed(m)
    ensures r.maxRpm == m.maxRpm && r.resolution == m.resolution && r.table == m.table
    ensures 0 <= r.duty <= m.resolution
    ensures 0 <= rpm <= m.maxRpm ==> r.duty == m.table[rpm]
    ensures rpm >= m.maxRpm ==> r.duty == m.resolution
    ensures rpm <= 0 ==> r.duty == 0
  {
    m.(duty := m.table[Clamp(rpm, m.maxRpm)])
  }

  /** `stop`: duty 0 straight to the hardware. */
  function Stop(m: DcMotor): (r: DcMotor)
    ensures r.duty == 0
    ensures r.maxRpm == m.maxRpm && r.resolution == m.resolution && r.table == m.table
  {
    m.(duty := 0)
  }

  /** `__init__` with its hardware setup (including the PWM range call) left
      out: build the table, then `set_rpm(0)`. */
  function Init(maxRpm: int, resolution: int): (r: Result<DcMotor, DriverError>)
    ensures r.Success? <==> maxRpm >= 1 && 0 <= resolution <= MaxValue(UnsignedByte)
    ensures maxRpm == 0 ==> r == Failure(ZeroDivision)
    ensures maxRpm < 0 ==> r == Failure(IndexError)
    ensures maxRpm >= 1 && r.Failure? ==> r.error == Overflow
    ensures r.Success? ==> Constructed(r.value) && r.value.duty == 0
    ensures r.Success? ==> r.value.maxRpm == maxRpm && r.value.resolution == resolution
  {
    match BuildLookupTable(maxRpm, resolution)
    case Failure(e) => Failure(e)
    case Success(table) =>
      match Lookup(table, Clamp(0, maxRpm))
      case Failure(e) => Failure(e)
      case Success(duty) => Success(DcMotor(maxRpm, resolution, table, duty))
  }

  /** With the default resolution of 255 the table is the fixed-scale driver's table. */
  lemma {:induction false} DefaultResolutionMatchesFixedDriver(maxRpm: int)
    ensures BuildLookupTable(maxRpm, DefaultResolution) == DcMotorPwm.BuildLookupTable(maxRpm)
  {
    if maxRpm != 0 {
      var v := Values(maxRpm, DefaultResolution);
      var w := DcMotorPwm.Values(maxRpm);
      assert v == w;
    }
  }

  /** With resolution 255 the two drivers construct under the same
      conditions, and then command the same duty for every rpm. */
  lemma SetRpmMatchesFixedDriver(maxRpm: int, rpm: int)
    ensures Init(maxRpm, DefaultResolution).Success? <==> DcMotorPwm.Init(maxRpm).Success?
    ensures Init(maxRpm, DefaultResolution).Success? ==>
              SetRpm(Init(maxRpm, DefaultResolution).value, rpm).duty
              == DcMotorPwm.SetRpm(DcMotorPwm.Init(maxRpm).value, rpm).duty
  {
    DefaultResolutionMatchesFixedDriver(maxRpm);
  }
}
