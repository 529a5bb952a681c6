/** The PID controller as an immutable state record: three gains plus the
    running integral of the error and the error seen on the previous
    successful `compute`. Arithmetic is exact over `real`. */
module Pid {

  /** Proportional, integral and derivative gains, as `get_gains` returns them. */
  datatype Gains = Gains(kp: real, ki: real, kd: real)

  /** The controller state `(kp, ki, kd, integral, prev_error)`. */
  datatype Pid = Pid(kp: real, ki: real, kd: real, integral: real, prevError: real)

  /** The result of one `compute` call: the state afterwards and the output returned. */
  datatype Step = Step(state: Pid, output: real)

  /** `__init__`: the given gains, with no accumulated integral and no previous error. */
  function New(kp: real, ki: real, kd: real): (p: Pid)
    ensures GetGains(p) == Gains(kp, ki, kd)
    ensures p.integral == 0.0 && p.prevError == 0.0
  {
    Pid(kp, ki, kd, 0.0, 0.0)
  }

  /** The control law: proportional, integral and derivative terms summed,
      none of them clamped. */
  function Law(g: Gains, error: real, integral: real, prevError: real, dt: real): (u: real)
    requires dt != 0.0
    ensures g.ki == 0.0 && g.kd == 0.0 ==> u == g.kp * error
    ensures g.kp == 0.0 && g.kd == 0.0 ==> u == g.ki * integral
    ensures g.kp == 0.0 && g.ki == 0.0 ==> u * dt == g.kd * (error - prevError)
    ensures error == prevError ==> u == g.kp * error + g.ki * integral
  {
    g.kp * error + g.ki * integral + g.kd * (error - prevError) / dt
  }

  /** `compute(setpoint, actual_value, dt)`. A non-positive `dt` returns 0 and
      touches nothing. Otherwise the error is integrated over `dt`, the
      derivative is the error's change over `dt`, the error is remembered,
      and the output is the sum of the three weighted terms. No term is
      clamped. */
  function Compute(p: Pid, setpoint: real, actual: real, dt: real): (r: Step)
    ensures GetGains(r.state) == GetGains(p)
    ensures dt <= 0.0 ==> r.state == p && r.output == 0.0
    ensures dt > 0.0 ==> r.state.prevError == setpoint - actual
    ensures dt > 0.0 ==> r.state.integral - p.integral == (setpoint - actual) * dt
    ensures dt > 0.0 ==> r.output == Law(GetGains(p), setpoint - actual, r.state.integral, p.prevError, dt)
  {
    if dt <= 0.0 then Step(p, 0.0)
    else
      var error := setpoint - actual;
      var integral := p.integral + error * dt;
      Step(p.(integral := integral, prevError := error), Law(GetGains(p), error, integral, p.prevError, dt))
  }

  /** `reset`: clears the integral and the previous error; the gains stay. */
  function Reset(p: Pid): (r: Pid)
    ensures GetGains(r) == GetGains(p)
    ensures r.integral == 0.0 && r.prevError == 0.0
  {
    p.(integral := 0.0, prevError := 0.0)
  }

  /** `set_gains`: replaces the gains and nothing else. */
  function SetGains(p: Pid, kp: real, ki: real, kd: real): (r: Pid)
    ensures GetGains(r) == Gains(kp, ki, kd)
    ensures r.integral == p.integral && r.prevError == p.prevError
  {
    p.(kp := kp, ki := ki, kd := kd)
  }

  /** `get_gains`. */
  function GetGains(p: Pid): (g: Gains)
    ensures g.kp == p.kp && g.ki == p.ki && g.kd == p.kd
  {
    Gains(p.kp, p.ki, p.kd)
  }

  /** Setting the gains the controller already has changes nothing. */
  lemma SetGainsOwnGains(p: Pid)
    ensures SetGains(p, GetGains(p).kp, GetGains(p).ki, GetGains(p).kd) == p
  {
  }

  /** After a reset the controller behaves exactly like a fresh one with the
      same gains, for any next `compute`. */
  lemma ResetMatchesFresh(p: Pid, setpoint: real, actual: real, dt: real)
    ensures Compute(Reset(p), setpoint, actual, dt) == Compute(New(p.kp, p.ki, p.kd), setpoint, actual, dt)
  {
  }

  /** Reset is idempotent and forgets every earlier `compute`. */
  lemma ResetForgetsHistory(p: Pid, setpoint: real, actual: real, dt: real)
    ensures Reset(Compute(p, setpoint, actual, dt).state) == Reset(p)
  {
  }

  /** One control tick: the arguments of a `compute` call. */
  datatype Sample = Sample(setpoint: real, actual: real, dt: real)

  /** The outputs and final state of a sequence of `compute` calls. */
  datatype Trace = Trace(state: Pid, outputs: seq<real>)

  /** Feeds the samples to `compute` one after the other. */
  function Run(p: Pid, samples: seq<Sample>): (t: Trace)
    ensures |t.outputs| == |samples|
    decreases |samples|
  {
    if |samples| == 0 then Trace(p, [])
    else
      var s := samples[|samples| - 1];
      var before := Run(p, samples[..|samples| - 1]);
      var step := Compute(before.state, s.setpoint, s.actual, s.dt);
      Trace(step.state, before.outputs + [step.output])
  }

  /** The integral the controller should hold: the sum of `error * dt` over
      the ticks with positive `dt` only. */
  function Accumulated(samples: seq<Sample>): real
    decreases |samples|
  {
    if |samples| == 0 then 0.0
    else
      var s := samples[|samples| - 1];
      Accumulated(samples[..|samples| - 1])
      + (if s.dt > 0.0 then (s.setpoint - s.actual) * s.dt else 0.0)
  }

  /** The error of the last tick with positive `dt`, or `initial` when there was none. */
  function LastError(initial: real, samples: seq<Sample>): real
    decreases |samples|
  {
    if |samples| == 0 then initial
    else
      var s := samples[|samples| - 1];
      if s.dt > 0.0 then s.setpoint - s.actual else LastError(initial, samples[..|samples| - 1])
  }

  /** Over any run: the gains never change, the integral grows by exactly the
      error integrated over the ticks with positive `dt`, and the previous
      error is that of the last such tick. Ticks with `dt <= 0` leave no trace
      in the state. */
  lemma {:induction false} RunInvariant(p: Pid, samples: seq<Sample>)
    ensures GetGains(Run(p, samples).state) == GetGains(p)
    ensures Run(p, samples).state.integral == p.integral + Accumulated(samples)
    ensures Run(p, samples).state.prevError == LastError(p.prevError, samples)
    decreases |samples|
  {
    if |samples| > 0 {
      RunInvariant(p, samples[..|samples| - 1]);
    }
  }

  /** A tick with `dt <= 0` appended at the end of a run outputs 0 and leaves
      the final state as it was. */
  lemma {:induction false} IgnoredTickLeavesNoTrace(p: Pid, samples: seq<Sample>, s: Sample)
    requires s.dt <= 0.0
    ensures Run(p, samples + [s]).state == Run(p, samples).state
    ensures Run(p, samples + [s]).outputs == Run(p, samples).outputs + [0.0]
  {
    assert (samples + [s])[..|samples|] == samples;
  }

  /** A tick with `dt <= 0` anywhere in a run outputs 0 and changes neither
      the final state nor any later output: the run continues exactly as if
      the tick had been dropped. */
  lemma {:induction false} IgnoredTickAnywhere(p: Pid, a: seq<Sample>, s: Sample, b: seq<Sample>)
    requires s.dt <= 0.0
    ensures Run(p, a + [s] + b).state == Run(p, a + b).state
    ensures Run(p, a + [s] + b).outputs == Run(p, a).outputs + [0.0] + Run(p, a + b).outputs[|a|..]
    decreases |b|
  {
    if |b| == 0 {
      assert a + [s] + b == a + [s];
      assert a + b == a;
      IgnoredTickLeavesNoTrace(p, a, s);
    } else {
      var b', t := b[..|b| - 1], b[|b| - 1];
      IgnoredTickAnywhere(p, a, s, b');
      assert a + [s] + b == (a + [s] + b') + [t];
      assert a + b == (a + b') + [t];
      RunSnoc(p, a + [s] + b', t);
      RunSnoc(p, a + b', t);
      var o := Run(p, a + b').outputs;
      assert |o| == |a| + |b'|;
      assert Run(p, a + b).outputs == o + [Run(p, a + b).outputs[|a + b| - 1]];
      assert (o + [Run(p, a + b).outputs[|a + b| - 1]])[|a|..] == o[|a|..] + [Run(p, a + b).outputs[|a + b| - 1]];
    }
  }

  /** The first `k` ticks of a run produce the first `k` outputs of the whole run. */
  lemma {:induction false} RunPrefix(p: Pid, samples: seq<Sample>, k: nat)
    requires k <= |samples|
    ensures Run(p, samples[..k]).outputs == Run(p, samples).outputs[..k]
    decreases |samples|
  {
    if k < |samples| {
      var init := samples[..|samples| - 1];
      RunPrefix(p, init, k);
      assert init[..k] == samples[..k];
    } else {
      assert samples[..k] == samples;
    }
  }

  /** Every output of a run, stated on the reference sums alone: tick `k`
      returns 0 when its `dt` is not positive, and otherwise the weighted sum
      of its error, of the integral accumulated up to and including it, and of
      the change from the last counted error before it. */
  lemma RunOutputs(p: Pid, samples: seq<Sample>, k: nat)
    requires k < |samples|
    ensures samples[k].dt <= 0.0 ==> Run(p, samples).outputs[k] == 0.0
    ensures samples[k].dt > 0.0 ==>
              Run(p, samples).outputs[k]
              == Law(GetGains(p), samples[k].setpoint - samples[k].actual,
                     p.integral + Accumulated(samples[..k + 1]),
                     LastError(p.prevError, samples[..k]), samples[k].dt)
  {
    var pre, s := samples[..k], samples[k];
    assert samples[..k + 1] == pre + [s];
    RunPrefix(p, samples, k + 1);
    RunSnoc(p, pre, s);
    if s.dt > 0.0 {
      RunInvariant(p, pre);
      RunInvariant(p, pre + [s]);
    }
  }

  lemma RunSnoc(p: Pid, samples: seq<Sample>, s: Sample)
    ensures var before := Run(p, samples);
            var step := Compute(before.state, s.setpoint, s.actual, s.dt);
            Run(p, samples + [s]) == Trace(step.state, before.outputs + [step.output])
  {
    assert (samples + [s])[..|samples|] == samples;
  }

  /** However many ticks have run, a reset leaves a fresh controller with the
      original gains. */
  lemma ResetAfterRun(p: Pid, samples: seq<Sample>)
    ensures Reset(Run(p, samples).state) == New(p.kp, p.ki, p.kd)
  {
    RunInvariant(p, samples);
  }

  /** A counted tick keeps the gains, adds `error * dt` to the integral and
      remembers the error: the whole state afterwards, field by field. */
  lemma TickState(p: Pid, setpoint: real, actual: real, dt: real)
    requires dt > 0.0
    ensures Compute(p, setpoint, actual, dt).state
            == Pid(p.kp, p.ki, p.kd, p.integral + (setpoint - actual) * dt, setpoint - actual)
  {
  }

  /** With no proportional or derivative gain the output is the integral
      term alone: ki times the integral after this tick's contribution. */
  lemma IntegralOnly(p: Pid, setpoint: real, actual: real, dt: real)
    requires p.kp == 0.0 && p.kd == 0.0 && dt > 0.0
    ensures Compute(p, setpoint, actual, dt).output
            == p.ki * (p.integral + (setpoint - actual) * dt)
  {
    var r := Compute(p, setpoint, actual, dt);
    var e := setpoint - actual;
    assert r.state.integral == p.integral + e * dt;
    assert p.kp * e == 0.0;
    assert p.kd * (e - p.prevError) == 0.0;
  }

  /** Pure integral control accumulates: with kp = kd = 0 and ki = 1, two
      ticks of `compute(5, 0, 1)` return 5 and then 10. */
  lemma IntegralExample()
    ensures Compute(New(0.0, 1.0, 0.0), 5.0, 0.0, 1.0).state == Pid(0.0, 1.0, 0.0, 5.0, 5.0)
    ensures Compute(New(0.0, 1.0, 0.0), 5.0, 0.0, 1.0).output == 5.0
    ensures Compute(Pid(0.0, 1.0, 0.0, 5.0, 5.0), 5.0, 0.0, 1.0).state == Pid(0.0, 1.0, 0.0, 10.0, 5.0)
    ensures Compute(Pid(0.0, 1.0, 0.0, 5.0, 5.0), 5.0, 0.0, 1.0).output == 10.0
  {
    assert New(0.0, 1.0, 0.0) == Pid(0.0, 1.0, 0.0, 0.0, 0.0);
    TickState(Pid(0.0, 1.0, 0.0, 0.0, 0.0), 5.0, 0.0, 1.0);
    IntegralOnly(Pid(0.0, 1.0, 0.0, 0.0, 0.0), 5.0, 0.0, 1.0);
    TickState(Pid(0.0, 1.0, 0.0, 5.0, 5.0), 5.0, 0.0, 1.0);
    IntegralOnly(Pid(0.0, 1.0, 0.0, 5.0, 5.0), 5.0, 0.0, 1.0);
  }

  /** With no integral or derivative gain the output is the proportional
      term alone, whatever the accumulated state. */
  lemma ProportionalOnly(p: Pid, setpoint: real, actual: real, dt: real)
    requires p.ki == 0.0 && p.kd == 0.0 && dt > 0.0
    ensures Compute(p, setpoint, actual, dt).output == p.kp * (setpoint - actual)
  {
    var r := Compute(p, setpoint, actual, dt);
    var e := setpoint - actual;
    assert p.ki * r.state.integral == 0.0;
    assert p.kd * (e - p.prevError) == 0.0;
  }

  /** Pure proportional control: with kp = 1, two ticks of `compute(10, 0, 1)`
      both return 10 and leave the previous error at 10. */
  lemma ProportionalExample()
    ensures Compute(New(1.0, 0.0, 0.0), 10.0, 0.0, 1.0).state == Pid(1.0, 0.0, 0.0, 10.0, 10.0)
    ensures Compute(New(1.0, 0.0, 0.0), 10.0, 0.0, 1.0).output == 10.0
    ensures Compute(Pid(1.0, 0.0, 0.0, 10.0, 10.0), 10.0, 0.0, 1.0).state == Pid(1.0, 0.0, 0.0, 20.0, 10.0)
    ensures Compute(Pid(1.0, 0.0, 0.0, 10.0, 10.0), 10.0, 0.0, 1.0).output == 10.0
  {
    assert New(1.0, 0.0, 0.0) == Pid(1.0, 0.0, 0.0, 0.0, 0.0);
    TickState(Pid(1.0, 0.0, 0.0, 0.0, 0.0), 10.0, 0.0, 1.0);
    ProportionalOnly(Pid(1.0, 0.0, 0.0, 0.0, 0.0), 10.0, 0.0, 1.0);
    TickState(Pid(1.0, 0.0, 0.0, 10.0, 10.0), 10.0, 0.0, 1.0);
    ProportionalOnly(Pid(1.0, 0.0, 0.0, 10.0, 10.0), 10.0, 0.0, 1.0);
  }
}
