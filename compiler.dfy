/** The offline control compiler of app/core/algo_sdk.py (`ControlCompiler`):
    a telemetry log, step-response metrics, a first-order model estimate,
    a table of models per speed/voltage bucket, a simulated PID grid search
    and a positional feedforward table, compiled into a profile. Numbers are
    `real`; the numpy reductions whose floating-point definitions are not
    modelled (square root, standard deviation, percentile, median) are
    passed in as a `Numerics` record. */
module Compiler {
  import opened Common

  /** A log entry or sample: numbers under their names, the timestamp
      under "t". */
  type Sample = map<string, real>

  /** The Python exceptions the compiler's operations can raise on their
      inputs: a missing dictionary key, or a floor division by zero. */
  datatype CompilerError = KeyError(key: string) | ZeroDivisionError

  /** `s.get(key, default)`. */
  function Get(s: Sample, key: string, default: real): real
  {
    if key in s then s[key] else default
  }

  /** The numpy functions used as given: `np.sqrt`, `np.std`,
      `np.percentile` and `np.median`. */
  datatype Numerics = Numerics(
    sqrt: real -> real,
    std: seq<real> -> real,
    percentile: (seq<real>, real) -> real,
    median: seq<real> -> real)

  function Abs(x: real): real
  {
    if x < 0.0 then -x else x
  }

  function RMin(a: real, b: real): real
  {
    if a <= b then a else b
  }

  function RMax(a: real, b: real): real
  {
    if a >= b then a else b
  }

  function Sum(xs: seq<real>): real
  {
    if xs == [] then 0.0 else Sum(xs[..|xs| - 1]) + xs[|xs| - 1]
  }

  /** `np.mean`. */
  function Mean(xs: seq<real>): real
    requires xs != []
  {
    Sum(xs) / (|xs| as real)
  }

  /** `np.max`: an element no other exceeds. */
  function MaxOf(xs: seq<real>): (m: real)
    requires xs != []
    ensures forall i | 0 <= i < |xs| :: xs[i] <= m
    ensures m in xs
  {
    if |xs| == 1 then xs[0]
    else RMax(MaxOf(xs[..|xs| - 1]), xs[|xs| - 1])
  }

  /** Every sample has a timestamp, so `s["t"]` never fails. */
  predicate Timed(samples: seq<Sample>)
  {
    forall i | 0 <= i < |samples| :: "t" in samples[i]
  }

  /** `np.array([s["t"] for s in samples])`. */
  function Times(samples: seq<Sample>): (ts: seq<real>)
    requires Timed(samples)
    ensures |ts| == |samples|
  {
    seq(|samples|, i requires 0 <= i < |samples| => samples[i]["t"])
  }

  /** `np.array([s.get(key, default) for s in samples])`. */
  function Column(samples: seq<Sample>, key: string, default: real): (c: seq<real>)
    ensures |c| == |samples|
  {
    seq(|samples|, i requires 0 <= i < |samples| => Get(samples[i], key, default))
  }

  /** `a - b`, elementwise. */
  function Minus(a: seq<real>, b: seq<real>): (d: seq<real>)
    requires |a| == |b|
    ensures |d| == |a|
  {
    seq(|a|, i requires 0 <= i < |a| => a[i] - b[i])
  }

  function AbsAll(a: seq<real>): (d: seq<real>)
    ensures |d| == |a|
  {
    seq(|a|, i requires 0 <= i < |a| => Abs(a[i]))
  }

  function Squares(a: seq<real>): (d: seq<real>)
    ensures |d| == |a|
  {
    seq(|a|, i requires 0 <= i < |a| => a[i] * a[i])
  }

  /** A sum of zeros is zero. */
  lemma {:induction false} SumZeros(xs: seq<real>)
    requires forall i | 0 <= i < |xs| :: xs[i] == 0.0
    ensures Sum(xs) == 0.0
  {
    if xs != [] {
      SumZeros(xs[..|xs| - 1]);
    }
  }

  /** The output column, and the target column, whose missing values
      default to the last output. */
  function Outputs(samples: seq<Sample>, outputKey: string): seq<real>
  {
    Column(samples, outputKey, 0.0)
  }

  function Targets(samples: seq<Sample>, targetKey: string, outputKey: string): seq<real>
    requires samples != []
  {
    var y := Outputs(samples, outputKey);
    Column(samples, targetKey, y[|y| - 1])
  }

  /** `err = r - y`. */
  function Errors(samples: seq<Sample>, targetKey: string, outputKey: string): (e: seq<real>)
    requires samples != []
    ensures |e| == |samples|
  {
    Minus(Targets(samples, targetKey, outputKey), Outputs(samples, outputKey))
  }

  /** `within = |err| <= max(0.02 |r|, 0.5)`, elementwise. */
  function Within(samples: seq<Sample>, targetKey: string, outputKey: string): (w: seq<bool>)
    requires samples != []
    ensures |w| == |samples|
  {
    var r, err := Targets(samples, targetKey, outputKey), Errors(samples, targetKey, outputKey);
    seq(|samples|, i requires 0 <= i < |samples| => Abs(err[i]) <= RMax(0.02 * Abs(r[i]), 0.5))
  }

  predicate AllTrue(w: seq<bool>)
  {
    forall i | 0 <= i < |w| :: w[i]
  }

  /** Where the final run of `true` starts in `w`; `|w|` when `w` ends
      with `false`. */
  function SettleFrom(w: seq<bool>): (k: nat)
    ensures k <= |w|
  {
    if w == [] || !w[|w| - 1] then |w| else SettleFrom(w[..|w| - 1])
  }

  /** `SettleFrom` is the earliest index from which every flag holds. */
  lemma {:induction false} SettleFromIsFirst(w: seq<bool>)
    ensures AllTrue(w[SettleFrom(w)..])
    ensures forall j | 0 <= j < SettleFrom(w) :: !AllTrue(w[j..])
  {
    if w != [] && w[|w| - 1] {
      var init := w[..|w| - 1];
      SettleFromIsFirst(init);
      var k := SettleFrom(init);
      assert w[k..] == init[k..] + [w[|w| - 1]];
      forall j | 0 <= j < k
        ensures !AllTrue(w[j..])
      {
        assert !AllTrue(init[j..]);
        var m :| 0 <= m < |init[j..]| && !init[j..][m];
        assert w[j..][m] == init[j..][m];
      }
    } else if w != [] {
      forall j | 0 <= j < |w|
        ensures !AllTrue(w[j..])
      {
        assert w[j..][|w| - 1 - j] == w[|w| - 1];
      }
    }
  }

  /** The settling loop of `compute_metrics`: the first `i` for which
      `within[i:]` holds throughout, or `|within|` when none does. */
  method SettleIndex(within: seq<bool>) returns (k: nat)
    ensures k == SettleFrom(within)
  {
    k := |within|;
    var i := 0;
    while i < |within|
      invariant 0 <= i <= |within|
      invariant forall j | 0 <= j < i :: !AllTrue(within[j..])
    {
      if AllTrue(within[i..]) {
        k := i;
        break;
      }
      i := i + 1;
    }
    SettleFromIsFirst(within);
  }

  /** The result of `compute_metrics`. */
  datatype Metrics = Metrics(rmsError: real, overshoot: real, settleTime: real, energy: real, jitter: real)

  /** The output follows the target exactly at every sample. */
  predicate Tracks(samples: seq<Sample>, targetKey: string, outputKey: string)
    requires samples != []
  {
    Targets(samples, targetKey, outputKey) == Outputs(samples, outputKey)
  }

  /** The metrics of a non-empty run: the RMS, largest overshoot, mean
      absolute and standard deviation of the tracking error, and the
      settling time: from the first sample to the one from which every
      error stays within its band, or the whole run when the last error is
      outside it. */
  function MetricsOf(samples: seq<Sample>, targetKey: string, outputKey: string, num: Numerics): Metrics
    requires Timed(samples) && samples != []
  {
    var t, y, r := Times(samples), Outputs(samples, outputKey), Targets(samples, targetKey, outputKey);
    var err := Errors(samples, targetKey, outputKey);
    var k := SettleFrom(Within(samples, targetKey, outputKey));
    Metrics(num.sqrt(Mean(Squares(err))), MaxOf(Minus(y, r)),
            if k < |t| then t[k] - t[0] else t[|t| - 1] - t[0],
            Mean(AbsAll(err)), num.std(err))
  }

  /** `compute_metrics`: nothing for no samples, otherwise their metrics.
      Perfect tracking settles at once with no overshoot and no error
      energy. */
  method ComputeMetrics(samples: seq<Sample>, targetKey: string, outputKey: string, num: Numerics)
    returns (m: Option<Metrics>)
    requires Timed(samples)
    ensures samples == [] <==> m.None?
    ensures m.Some? ==> m.value == MetricsOf(samples, targetKey, outputKey, num)
    ensures m.Some? && Tracks(samples, targetKey, outputKey) ==>
      m.value.settleTime == 0.0 && m.value.overshoot == 0.0 && m.value.energy == 0.0
  {
    if samples == [] {
      return None;
    }
    var times := Times(samples);
    var y := Outputs(samples, outputKey);
    var r := Targets(samples, targetKey, outputKey);
    var err := Minus(r, y);
    var rms := num.sqrt(Mean(Squares(err)));
    var overshoot := MaxOf(Minus(y, r));
    var within := Within(samples, targetKey, outputKey);
    var settleTime := times[|times| - 1] - times[0];
    var k := SettleIndex(within);
    if k < |within| {
      settleTime := times[k] - times[0];
    }
    var energy := Mean(AbsAll(err));
    var jitter := num.std(err);
    assert err == Errors(samples, targetKey, outputKey);
    m := Some(Metrics(rms, overshoot, settleTime, energy, jitter));
    assert m.value == MetricsOf(samples, targetKey, outputKey, num);
    if Tracks(samples, targetKey, outputKey) {
      PerfectTracking(samples, targetKey, outputKey);
    }
  }

  /** With no tracking error every sample is within its band from the
      start, the largest overshoot is zero and so is the error energy. */
  lemma PerfectTracking(samples: seq<Sample>, targetKey: string, outputKey: string)
    requires samples != [] && Tracks(samples, targetKey, outputKey)
    ensures SettleFrom(Within(samples, targetKey, outputKey)) == 0
    ensures MaxOf(Minus(Outputs(samples, outputKey), Targets(samples, targetKey, outputKey))) == 0.0
    ensures Mean(AbsAll(Errors(samples, targetKey, outputKey))) == 0.0
  {
    var w := Within(samples, targetKey, outputKey);
    var err := Errors(samples, targetKey, outputKey);
    assert forall i | 0 <= i < |err| :: err[i] == 0.0;
    assert AllTrue(w[0..]) by {
      assert w[0..] == w;
    }
    SettleFromIsFirst(w);
    SumZeros(AbsAll(err));
    var d := Minus(Outputs(samples, outputKey), Targets(samples, targetKey, outputKey));
    assert d[0] == 0.0;
  }

  /** The first `true` in `bs`, or `|bs|` when there is none. */
  function FirstIndex(bs: seq<bool>): (i: nat)
    ensures i <= |bs|
    ensures forall j | 0 <= j < i :: !bs[j]
    ensures i < |bs| ==> bs[i]
  {
    if bs == [] || bs[0] then 0 else FirstIndex(bs[1..]) + 1
  }

  /** `np.argmax` of a boolean array: the first `true`, or 0 when there
      is none. */
  function FirstTrue(bs: seq<bool>): (i: nat)
    ensures bs != [] ==> i < |bs|
    ensures (exists j | 0 <= j < |bs| :: bs[j]) ==> bs[i] && forall j | 0 <= j < i :: !bs[j]
    ensures (forall j | 0 <= j < |bs| :: !bs[j]) ==> i == 0
  {
    var k := FirstIndex(bs);
    if k == |bs| then 0 else k
  }

  /** Where `y` has reached `level`, going in the direction `sgn`:
      `(y - level) * sign(total) >= 0`. */
  function Reached(y: seq<real>, level: real, sgn: real): (c: seq<bool>)
    ensures |c| == |y|
  {
    seq(|y|, i requires 0 <= i < |y| => (y[i] - level) * sgn >= 0.0)
  }

  /** The result of `estimate_model`: time constant, dead time, dead zone. */
  datatype Model = Model(tau: real, delay: real, deadzone: real)

  /** `estimate_model`: nothing for fewer than five samples; all zeros
      when the output ends where it started (within 1e-6); otherwise the
      time until the output first covers 63.2% of its total change, the
      time until it first covers 5%, and the 10th percentile of the
      absolute tracking error. */
  function EstimateModel(samples: seq<Sample>, targetKey: string, outputKey: string, num: Numerics)
    : (m: Option<Model>)
    requires |samples| >= 5 ==> Timed(samples)
    ensures |samples| < 5 <==> m.None?
    ensures m.Some? && Abs(Outputs(samples, outputKey)[|samples| - 1] - Outputs(samples, outputKey)[0]) < 0.000001
      ==> m.value == Model(0.0, 0.0, 0.0)
  {
    if |samples| < 5 then None
    else
      var t, y, r := Times(samples), Outputs(samples, outputKey), Targets(samples, targetKey, outputKey);
      var start, final := y[0], y[|y| - 1];
      var total := final - start;
      if Abs(total) < 0.000001 then Some(Model(0.0, 0.0, 0.0))
      else
        var tau := Elapsed(t, Crossing(y, 0.632));
        var delay := Elapsed(t, Crossing(y, 0.05));
        Some(Model(tau, delay, num.percentile(AbsAll(Minus(r, y)), 10.0)))
  }

  /** The first index where `y` has covered the fraction `frac` of its
      total change `y[-1] - y[0]`, or 0 when it never does. */
  function Crossing(y: seq<real>, frac: real): (i: nat)
    requires y != []
    ensures i < |y|
  {
    var total := y[|y| - 1] - y[0];
    var sgn := if total > 0.0 then 1.0 else -1.0;
    FirstTrue(Reached(y, y[0] + frac * total, sgn))
  }

  /** The time from the first sample to sample `i`, 0 for `i == 0`. */
  function Elapsed(t: seq<real>, i: nat): real
    requires i < |t|
  {
    if i > 0 then t[i] - t[0] else 0.0
  }

  /** Timestamps never go backwards. */
  predicate Ordered(samples: seq<Sample>)
    requires Timed(samples)
  {
    forall i, j | 0 <= i <= j < |samples| :: samples[i]["t"] <= samples[j]["t"]
  }

  /** The earlier of two thresholds on the way is reached first. */
  lemma FirstTrueMono(a: seq<bool>, b: seq<bool>, i: nat)
    requires |a| == |b| && i < |b| && b[i]
    requires forall j | 0 <= j < |b| :: b[j] ==> a[j]
    ensures FirstTrue(a) <= FirstTrue(b)
  {
  }

  /** On ordered samples the estimated dead time is never negative and
      never longer than the time constant: the 5% level is reached no
      later than the 63.2% level. */
  lemma DelayWithinTau(samples: seq<Sample>, targetKey: string, outputKey: string, num: Numerics)
    requires Timed(samples) && Ordered(samples) && |samples| >= 5
    ensures var m := EstimateModel(samples, targetKey, outputKey, num).value;
      0.0 <= m.delay <= m.tau
  {
    var t, y := Times(samples), Outputs(samples, outputKey);
    if Abs(y[|y| - 1] - y[0]) >= 0.000001 {
      CrossingOrder(y);
      var i63, i05 := Crossing(y, 0.632), Crossing(y, 0.05);
      assert t[0] <= t[i05] <= t[i63];
    }
  }

  /** When `y` moves at all, its 5% level is crossed no later than its
      63.2% level. */
  lemma CrossingOrder(y: seq<real>)
    requires y != [] && Abs(y[|y| - 1] - y[0]) >= 0.000001
    ensures Crossing(y, 0.05) <= Crossing(y, 0.632)
  {
    var start, total := y[0], y[|y| - 1] - y[0];
    var sgn := if total > 0.0 then 1.0 else -1.0;
    var c63 := Reached(y, start + 0.632 * total, sgn);
    var c05 := Reached(y, start + 0.05 * total, sgn);
    forall j | 0 <= j < |y| && c63[j]
      ensures c05[j]
    {
      if total > 0.0 {
        assert y[j] >= start + 0.632 * total;
      } else {
        assert y[j] <= start + 0.632 * total;
      }
    }
    assert c63[|y| - 1] by {
      assert y[|y| - 1] - (start + 0.632 * total) == 0.368 * total;
    }
    FirstTrueMono(c05, c63, |y| - 1);
  }

  /** PID gains: `{"kp", "ki", "kd"}`. */
  datatype Gains = Gains(kp: real, ki: real, kd: real)

  /** `max(-limit, min(limit, u))`: within the limits when they are
      ordered; with a negative limit always `-limit`. */
  function Clamp(u: real, limit: real): (c: real)
    ensures limit >= 0.0 ==> -limit <= c <= limit
    ensures limit >= 0.0 && -limit <= u <= limit ==> c == u
    ensures limit < 0.0 ==> c == -limit
  {
    RMax(-limit, RMin(limit, u))
  }

  /** The loop variables of `_simulate_pid`. */
  datatype PidState = PidState(y: real, integral: real, prevErr: real)

  /** One pass of the simulation loop on the reference value `ref`: the
      next state and the clamped command. */
  function PidStep(st: PidState, ref: real, tau: real, dt: real, pid: Gains, limit: real): (PidState, real)
    requires dt > 0.0
  {
    var err := ref - st.y;
    var integral := st.integral + err * dt;
    var deriv := (err - st.prevErr) / dt;
    var u := Clamp(pid.kp * err + pid.ki * integral + pid.kd * deriv, limit);
    var y := st.y + dt * (u - st.y) / RMax(tau, 0.001);
    (PidState(y, integral, err), u)
  }

  /** The simulation over the references `rs` from `st`: the final state
      and the outputs and commands, one per reference. */
  datatype Run = Run(state: PidState, ys: seq<real>, us: seq<real>)

  function Simulate(st: PidState, rs: seq<real>, tau: real, dt: real, pid: Gains, limit: real): Run
    requires dt > 0.0
  {
    if rs == [] then Run(st, [], [])
    else
      var run := Simulate(st, rs[..|rs| - 1], tau, dt, pid, limit);
      var (next, u) := PidStep(run.state, rs[|rs| - 1], tau, dt, pid, limit);
      Run(next, run.ys + [next.y], run.us + [u])
  }

  /** One output and one command per reference, every command within the
      limits. */
  lemma {:induction false} SimulateBounds(st: PidState, rs: seq<real>, tau: real, dt: real, pid: Gains, limit: real)
    requires dt > 0.0
    ensures var run := Simulate(st, rs, tau, dt, pid, limit);
      && |run.ys| == |rs| && |run.us| == |rs|
      && (limit >= 0.0 ==> forall i | 0 <= i < |rs| :: -limit <= run.us[i] <= limit)
  {
    if rs != [] {
      SimulateBounds(st, rs[..|rs| - 1], tau, dt, pid, limit);
    }
  }

  /** `_simulate_pid`: nothing for an empty reference or a step that is
      not positive; otherwise the output and command trajectories, as long
      as the reference and with every command within the limits. The
      plant starts at the first reference with no error. */
  method SimulatePid(r: seq<real>, tau: real, dt: real, pid: Gains, limit: real)
    returns (ys: seq<real>, us: seq<real>)
    ensures r == [] || dt <= 0.0 ==> ys == [] && us == []
    ensures r != [] && dt > 0.0 ==>
      var run := Simulate(PidState(r[0], 0.0, 0.0), r, tau, dt, pid, limit);
      ys == run.ys && us == run.us
    ensures r != [] && dt > 0.0 ==> |ys| == |r| && |us| == |r|
    ensures limit >= 0.0 ==> forall i | 0 <= i < |us| :: -limit <= us[i] <= limit
  {
    if |r| == 0 || dt <= 0.0 {
      return [], [];
    }
    var st0 := PidState(r[0], 0.0, r[0] - r[0]);
    var st := st0;
    ys, us := [], [];
    var i := 0;
    while i < |r|
      invariant 0 <= i <= |r|
      invariant Simulate(st0, r[..i], tau, dt, pid, limit) == Run(st, ys, us)
    {
      assert r[..i + 1][..i] == r[..i];
      var (next, u) := PidStep(st, r[i], tau, dt, pid, limit);
      ys := ys + [next.y];
      us := us + [u];
      st := next;
      i := i + 1;
    }
    assert r[..i] == r;
    SimulateBounds(st0, r, tau, dt, pid, limit);
  }

  /** A bucket of `build_model_table`: its (speed bin, voltage bin) key
      and the log entries that fall in it, in log order. */
  datatype Bucket = Bucket(key: (int, int), samples: seq<Sample>)

  /** `(int(speed // speed_bin), int(voltage // voltage_bin))`. */
  function BinOf(s: Sample, speedBin: real, voltageBin: real): (int, int)
    requires speedBin != 0.0 && voltageBin != 0.0
  {
    ((Get(s, "speed", 0.0) / speedBin).Floor, (Get(s, "voltage", 0.0) / voltageBin).Floor)
  }

  /** Where the bucket keyed `k` is. */
  function KeyIndex(bs: seq<Bucket>, k: (int, int)): (r: Option<nat>)
    ensures r.Some? ==> r.value < |bs| && bs[r.value].key == k
    ensures r.None? ==> forall j | 0 <= j < |bs| :: bs[j].key != k
  {
    if bs == [] then None
    else if bs[|bs| - 1].key == k then Some(|bs| - 1)
    else KeyIndex(bs[..|bs| - 1], k)
  }

  /** `table.setdefault(k, []).append(s)`: a new key opens a bucket at
      the end, a known one grows in place. */
  function AddTo(bs: seq<Bucket>, k: (int, int), s: Sample): (r: seq<Bucket>)
  {
    match KeyIndex(bs, k)
    case None => bs + [Bucket(k, [s])]
    case Some(i) => bs[i := Bucket(k, bs[i].samples + [s])]
  }

  /** The buckets after the entries of `logs`, in order. */
  function Group(logs: seq<Sample>, speedBin: real, voltageBin: real): seq<Bucket>
    requires speedBin != 0.0 && voltageBin != 0.0
  {
    if logs == [] then []
    else
      var s := logs[|logs| - 1];
      AddTo(Group(logs[..|logs| - 1], speedBin, voltageBin), BinOf(s, speedBin, voltageBin), s)
  }

  /** How many entries the buckets hold in all. */
  function Total(bs: seq<Bucket>): nat
  {
    if bs == [] then 0 else Total(bs[..|bs| - 1]) + |bs[|bs| - 1].samples|
  }

  lemma {:induction false} TotalUpdate(bs: seq<Bucket>, i: nat, b: Bucket)
    requires i < |bs|
    ensures Total(bs[i := b]) == Total(bs) - |bs[i].samples| + |b.samples|
  {
    var last := |bs| - 1;
    if i < last {
      assert bs[i := b][..last] == bs[..last][i := b];
      TotalUpdate(bs[..last], i, b);
    } else {
      assert bs[i := b][..last] == bs[..last];
    }
  }

  /** The bucketing invariant: keys unique and each entry under its own
      key. */
  predicate Bucketed(bs: seq<Bucket>, speedBin: real, voltageBin: real)
    requires speedBin != 0.0 && voltageBin != 0.0
  {
    && (forall i, j | 0 <= i < j < |bs| :: bs[i].key != bs[j].key)
    && (forall i, j | 0 <= i < |bs| && 0 <= j < |bs[i].samples| ::
          BinOf(bs[i].samples[j], speedBin, voltageBin) == bs[i].key)
  }

  predicate AllTimed(bs: seq<Bucket>)
  {
    forall i | 0 <= i < |bs| :: Timed(bs[i].samples)
  }

  /** The buckets whose timestamps `estimate_model` reads, those of at
      least five entries, have them; smaller buckets are never read. */
  predicate Estimable(bs: seq<Bucket>)
  {
    forall i | 0 <= i < |bs| :: |bs[i].samples| >= 5 ==> Timed(bs[i].samples)
  }

  lemma AddToBucketed(bs: seq<Bucket>, s: Sample, speedBin: real, voltageBin: real)
    requires speedBin != 0.0 && voltageBin != 0.0
    requires Bucketed(bs, speedBin, voltageBin)
    ensures Bucketed(AddTo(bs, BinOf(s, speedBin, voltageBin), s), speedBin, voltageBin)
  {
    var k := BinOf(s, speedBin, voltageBin);
    var r := AddTo(bs, k, s);
    match KeyIndex(bs, k)
    case None =>
      assert forall i | 0 <= i < |bs| :: r[i] == bs[i];
    case Some(i) =>
      assert forall m | 0 <= m < |bs| && m != i :: r[m] == bs[m];
      assert forall j | 0 <= j < |r[i].samples| ::
        r[i].samples[j] == if j < |bs[i].samples| then bs[i].samples[j] else s;
  }

  lemma AddToTotal(bs: seq<Bucket>, k: (int, int), s: Sample)
    ensures Total(AddTo(bs, k, s)) == Total(bs) + 1
  {
    match KeyIndex(bs, k)
    case None =>
      assert (bs + [Bucket(k, [s])])[..|bs|] == bs;
    case Some(i) =>
      TotalUpdate(bs, i, Bucket(k, bs[i].samples + [s]));
  }

  lemma AddToTimed(bs: seq<Bucket>, k: (int, int), s: Sample)
    requires AllTimed(bs) && "t" in s
    ensures AllTimed(AddTo(bs, k, s))
  {
    match KeyIndex(bs, k)
    case None =>
    case Some(i) =>
      assert forall j | 0 <= j < |bs[i].samples| + 1 ::
        (bs[i].samples + [s])[j] == if j < |bs[i].samples| then bs[i].samples[j] else s;
  }

  /** `build_model_table` partitions the log: one bucket per key, every
      entry in the bucket of its own key, none lost or repeated. */
  lemma {:induction false} GroupPartitions(logs: seq<Sample>, speedBin: real, voltageBin: real)
    requires speedBin != 0.0 && voltageBin != 0.0
    ensures var bs := Group(logs, speedBin, voltageBin);
      Bucketed(bs, speedBin, voltageBin) && Total(bs) == |logs|
  {
    if logs != [] {
      var init := logs[..|logs| - 1];
      GroupPartitions(init, speedBin, voltageBin);
      var s := logs[|logs| - 1];
      AddToBucketed(Group(init, speedBin, voltageBin), s, speedBin, voltageBin);
      AddToTotal(Group(init, speedBin, voltageBin), BinOf(s, speedBin, voltageBin), s);
    }
  }

  lemma {:induction false} GroupTimed(logs: seq<Sample>, speedBin: real, voltageBin: real)
    requires speedBin != 0.0 && voltageBin != 0.0 && Timed(logs)
    ensures AllTimed(Group(logs, speedBin, voltageBin))
  {
    if logs != [] {
      var init := logs[..|logs| - 1];
      GroupTimed(init, speedBin, voltageBin);
      var s := logs[|logs| - 1];
      AddToTimed(Group(init, speedBin, voltageBin), BinOf(s, speedBin, voltageBin), s);
    }
  }

  /** The bucketing loop of `build_model_table`. */
  method GroupLogs(logs: seq<Sample>, speedBin: real, voltageBin: real) returns (table: seq<Bucket>)
    requires speedBin != 0.0 && voltageBin != 0.0
    ensures table == Group(logs, speedBin, voltageBin)
  {
    table := [];
    var i := 0;
    while i < |logs|
      invariant 0 <= i <= |logs|
      invariant table == Group(logs[..i], speedBin, voltageBin)
    {
      assert logs[..i + 1][..i] == logs[..i];
      var s := logs[i];
      table := AddTo(table, BinOf(s, speedBin, voltageBin), s);
      i := i + 1;
    }
    assert logs[..i] == logs;
  }

  /** A closed interval `[lo, hi]`. */
  datatype Range = Range(lo: real, hi: real)

  /** A row of the model table. */
  datatype ModelRow = ModelRow(speedRange: Range, voltageRange: Range, tau: real, delay: real, deadzone: real)

  /** The row for a bucket whose model could be estimated. */
  function RowOf(b: Bucket, m: Model, speedBin: real, voltageBin: real): ModelRow
  {
    ModelRow(Range(b.key.0 as real * speedBin, (b.key.0 + 1) as real * speedBin),
             Range(b.key.1 as real * voltageBin, (b.key.1 + 1) as real * voltageBin),
             m.tau, m.delay, m.deadzone)
  }

  /** The rows for the buckets `bs`, in order: one per bucket with at
      least five entries. */
  function Rows(bs: seq<Bucket>, speedBin: real, voltageBin: real, num: Numerics): seq<ModelRow>
    requires Estimable(bs)
  {
    if bs == [] then []
    else
      var b := bs[|bs| - 1];
      Rows(bs[..|bs| - 1], speedBin, voltageBin, num) +
        match EstimateModel(b.samples, "target_spd", "speed", num)
        case None => []
        case Some(m) => [RowOf(b, m, speedBin, voltageBin)]
  }

  /** The row loop of `build_model_table`: the rows in table order, or
      the `KeyError` of `estimate_model` reading "t" in a bucket of at
      least five entries where one is missing it. The exception discards
      the rows built so far, so finding it before the loop gives the same
      outcome. */
  method TableRows(table: seq<Bucket>, speedBin: real, voltageBin: real, num: Numerics)
    returns (result: Result<seq<ModelRow>, CompilerError>)
    ensures Estimable(table) ==> result == Ok(Rows(table, speedBin, voltageBin, num))
    ensures !Estimable(table) ==> result == Err(KeyError("t"))
  {
    if !Estimable(table) {
      return Err(KeyError("t"));
    }
    var rows := EstimatedRows(table, speedBin, voltageBin, num);
    result := Ok(rows);
  }

  /** The row loop itself, on a table whose large buckets are timed. */
  method EstimatedRows(table: seq<Bucket>, speedBin: real, voltageBin: real, num: Numerics)
    returns (rows: seq<ModelRow>)
    requires Estimable(table)
    ensures rows == Rows(table, speedBin, voltageBin, num)
  {
    rows := [];
    var j := 0;
    while j < |table|
      invariant 0 <= j <= |table|
      invariant Estimable(table[..j])
      invariant rows == Rows(table[..j], speedBin, voltageBin, num)
    {
      assert table[..j + 1][..j] == table[..j];
      var model := EstimateModel(table[j].samples, "target_spd", "speed", num);
      if model.Some? {
        rows := rows + [RowOf(table[j], model.value, speedBin, voltageBin)];
      }
      j := j + 1;
    }
    assert table[..j] == table;
  }

  /** How many buckets have at least five entries. */
  function Large(bs: seq<Bucket>): nat
  {
    if bs == [] then 0 else Large(bs[..|bs| - 1]) + (if |bs[|bs| - 1].samples| >= 5 then 1 else 0)
  }

  /** A row for exactly each bucket of at least five entries. */
  lemma {:induction false} RowsCount(bs: seq<Bucket>, speedBin: real, voltageBin: real, num: Numerics)
    requires Estimable(bs)
    ensures |Rows(bs, speedBin, voltageBin, num)| == Large(bs)
  {
    if bs != [] {
      RowsCount(bs[..|bs| - 1], speedBin, voltageBin, num);
    }
  }

  /** With positive bin widths, a row's ranges hold the speeds and
      voltages of the entries it was estimated from. */
  lemma RangesHold(s: Sample, speedBin: real, voltageBin: real)
    requires speedBin > 0.0 && voltageBin > 0.0
    ensures var k := BinOf(s, speedBin, voltageBin);
      && k.0 as real * speedBin <= Get(s, "speed", 0.0) < (k.0 + 1) as real * speedBin
      && k.1 as real * voltageBin <= Get(s, "voltage", 0.0) < (k.1 + 1) as real * voltageBin
  {
    FloorBounds(Get(s, "speed", 0.0), speedBin);
    FloorBounds(Get(s, "voltage", 0.0), voltageBin);
  }

  lemma FloorBounds(x: real, w: real)
    requires w > 0.0
    ensures ((x / w).Floor as real) * w <= x < (((x / w).Floor + 1) as real) * w
  {
    var q := x / w;
    var f := q.Floor as real;
    assert f <= q < f + 1.0;
    assert q * w == x;
    MulMono(f, q, w);
    var g := f + 1.0;
    MulStrict(q, g, w);
    assert q * w < g * w;
    assert x < g * w;
    assert ((x / w).Floor + 1) as real == g;
  }

  lemma MulStrict(a: real, b: real, w: real)
    requires a < b && w > 0.0
    ensures a * w < b * w
  {
    assert b * w - a * w == (b - a) * w;
  }

  lemma MulMono(a: real, b: real, w: real)
    requires a <= b && w > 0.0
    ensures a * w <= b * w
  {
  }

  /** The log entry `ingest` builds: the timestamp, overridden by the
      telemetry, overridden by the context. */
  function LogEntry(t: real, telemetry: Sample, context: Sample): (e: Sample)
    ensures e.Keys == {"t"} + telemetry.Keys + context.Keys
    ensures forall k | k in context :: e[k] == context[k]
    ensures forall k | k in telemetry && k !in context :: e[k] == telemetry[k]
    ensures "t" !in telemetry && "t" !in context ==> e["t"] == t
  {
    map["t" := t] + telemetry + context
  }

  /** `(start is None or x["t"] >= start) and (end is None or x["t"] <= end)`. */
  predicate InWindow(s: Sample, start: Option<real>, end: Option<real>)
  {
    "t" in s && (start.None? || s["t"] >= start.value) && (end.None? || s["t"] <= end.value)
  }

  /** The entries of `logs` within the window, in log order. */
  function Window(logs: seq<Sample>, start: Option<real>, end: Option<real>): seq<Sample>
  {
    if logs == [] then []
    else
      var s := logs[|logs| - 1];
      Window(logs[..|logs| - 1], start, end) + (if InWindow(s, start, end) then [s] else [])
  }

  /** The window holds exactly the entries of the log within it. */
  lemma {:induction false} WindowMembers(logs: seq<Sample>, start: Option<real>, end: Option<real>)
    ensures |Window(logs, start, end)| <= |logs|
    ensures forall s :: s in Window(logs, start, end) <==> s in logs && InWindow(s, start, end)
  {
    if logs != [] {
      var init := logs[..|logs| - 1];
      WindowMembers(init, start, end);
      assert logs == init + [logs[|logs| - 1]];
    }
  }

  /** Filtering keeps the log order: the window of a log grown at the
      end is the old window followed by the window of what was added. */
  lemma {:induction false} WindowAppend(a: seq<Sample>, b: seq<Sample>, start: Option<real>, end: Option<real>)
    ensures Window(a + b, start, end) == Window(a, start, end) + Window(b, start, end)
  {
    if b != [] {
      var init := b[..|b| - 1];
      assert (a + b)[..|a + b| - 1] == a + init;
      var x := b[|b| - 1];
      assert (a + b)[|a + b| - 1] == x;
      WindowAppend(a, init, start, end);
      var tail := if InWindow(x, start, end) then [x] else [];
      calc {
        Window(a + b, start, end);
        Window(a + init, start, end) + tail;
        (Window(a, start, end) + Window(init, start, end)) + tail;
        Window(a, start, end) + (Window(init, start, end) + tail);
        Window(a, start, end) + Window(b, start, end);
      }
    } else {
      assert a + b == a;
    }
  }

  /** `np.diff`. */
  function Diffs(ts: seq<real>): (d: seq<real>)
    requires ts != []
    ensures |d| == |ts| - 1
  {
    seq(|ts| - 1, i requires 0 <= i < |ts| - 1 => ts[i + 1] - ts[i])
  }

  /** The time step `auto_tune` simulates with: the median sampling
      interval, or 0.05 s for a single sample. */
  function TuneStep(samples: seq<Sample>, num: Numerics): real
    requires Timed(samples) && samples != []
  {
    if |samples| > 1 then num.median(Diffs(Times(samples))) else 0.05
  }

  /** The time constant `auto_tune` simulates with: the estimated one, or
      0.5 s when there are too few samples to estimate it. */
  function TuneTau(samples: seq<Sample>, num: Numerics): real
    requires Timed(samples)
  {
    var model := EstimateModel(samples, "target_spd", "speed", num);
    if model.Some? then model.value.tau else 0.5
  }

  /** The setup of `auto_tune` for `samples`; the reference is the
      "target_spd" column, 0 where missing. */
  function TuneSetup(samples: seq<Sample>, weight: Weights, limit: real, num: Numerics): Setup
    requires Timed(samples) && samples != []
  {
    Setup(Times(samples), Column(samples, "target_spd", 0.0), TuneTau(samples, num), TuneStep(samples, num),
          weight, limit, num)
  }

  /** The gain factors of the grid. */
  const Factors: seq<real> := [0.6, 0.8, 1.0, 1.2, 1.5]

  /** The gains of the grid point with factors `Factors[a]` for kp,
      `Factors[b]` for ki and `Factors[c]` for kd. */
  function GainsAt(base: Gains, a: nat, b: nat, c: nat): Gains
    requires a < 5 && b < 5 && c < 5
  {
    Gains(base.kp * Factors[a], base.ki * Factors[b], base.kd * Factors[c])
  }

  /** The weights of the tuning cost. */
  datatype Weights = Weights(rms: real, overshoot: real, settle: real, sat: real, energy: real, jitter: real)

  /** An entry of the tuning table. */
  datatype Candidate = Candidate(pid: Gains, cost: real, metrics: Metrics)

  /** How many commands are at 98% of the limit or beyond. */
  function Saturated(us: seq<real>, limit: real): nat
  {
    if us == [] then 0
    else Saturated(us[..|us| - 1], limit) + (if Abs(us[|us| - 1]) >= 0.98 * limit then 1 else 0)
  }

  /** The weighted cost of a candidate; only overshoot above the target
      counts. */
  function Cost(w: Weights, m: Metrics, saturation: real): real
  {
    w.rms * m.rmsError + w.overshoot * RMax(0.0, m.overshoot) + w.settle * m.settleTime
      + w.sat * saturation + w.energy * m.energy + w.jitter * m.jitter
  }

  /** `min(candidates, key=cost)`: the first candidate of least cost. */
  function FirstMin(cs: seq<Candidate>): (i: nat)
    requires cs != []
    ensures i < |cs|
    ensures forall j | 0 <= j < |cs| :: cs[i].cost <= cs[j].cost
    ensures forall j | 0 <= j < i :: cs[j].cost > cs[i].cost
  {
    if |cs| == 1 then 0
    else
      var m := FirstMin(cs[..|cs| - 1]);
      if cs[|cs| - 1].cost < cs[m].cost then |cs| - 1 else m
  }

  /** The simulated run as samples for `compute_metrics`. */
  function SimSamples(times: seq<real>, ys: seq<real>, r: seq<real>): (ss: seq<Sample>)
    requires |ys| <= |times| && |ys| <= |r|
    ensures |ss| == |ys| && Timed(ss)
  {
    seq(|ys|, i requires 0 <= i < |ys| => map["t" := times[i], "speed" := ys[i], "target_spd" := r[i]])
  }

  /** What every candidate of `auto_tune` is simulated and scored against:
      the sample times, the reference, the time constant and step, the cost
      weights, the command limit and the numpy functions. */
  datatype Setup = Setup(times: seq<real>, r: seq<real>, tau: real, dt: real, weight: Weights,
                         limit: real, num: Numerics)

  /** The setup for which the simulation yields a trajectory. */
  predicate Runnable(su: Setup)
  {
    su.dt > 0.0 && su.r != [] && |su.times| == |su.r|
  }

  /** The candidate for the gains `pid`: the simulated run's metrics and
      its cost, with the share of saturated commands. */
  function Score(su: Setup, pid: Gains): (c: Candidate)
    requires Runnable(su)
    ensures c.pid == pid
  {
    SimulateBounds(PidState(su.r[0], 0.0, 0.0), su.r, su.tau, su.dt, pid, su.limit);
    var run := Simulate(PidState(su.r[0], 0.0, 0.0), su.r, su.tau, su.dt, pid, su.limit);
    var m := MetricsOf(SimSamples(su.times, run.ys, su.r), "target_spd", "speed", su.num);
    Candidate(pid, Cost(su.weight, m, Saturated(run.us, su.limit) as real / |run.us| as real), m)
  }

  /** `Score` on a setup that simulates, as a function of the gains. */
  function Scorer(su: Setup): Gains -> Candidate
    requires Runnable(su)
  {
    pid => Score(su, pid)
  }

  /** `score` scores every gain triple as `Score` does on `su`. */
  ghost predicate Scoring(score: Gains -> Candidate, su: Setup)
  {
    Runnable(su) && forall g {:trigger Score(su, g)} :: score(g) == Score(su, g)
  }

  lemma ScorerScores(su: Setup)
    requires Runnable(su)
    ensures Scoring(Scorer(su), su)
  {
  }

  /** The candidates of the innermost loop for the first `n` kd factors,
      each gain triple scored by `score`. */
  function CellsC(score: Gains -> Candidate, base: Gains, a: nat, b: nat, n: nat): (cs: seq<Candidate>)
    requires a < 5 && b < 5 && n <= 5
    ensures |cs| == n
  {
    if n == 0 then [] else CellsC(score, base, a, b, n - 1) + [score(GainsAt(base, a, b, n - 1))]
  }

  /** The candidates of the middle loop for the first `n` ki factors. */
  function CellsB(score: Gains -> Candidate, base: Gains, a: nat, n: nat): (cs: seq<Candidate>)
    requires a < 5 && n <= 5
    ensures |cs| == 5 * n
  {
    if n == 0 then [] else CellsB(score, base, a, n - 1) + CellsC(score, base, a, n - 1, 5)
  }

  /** The candidates of the outer loop for the first `n` kp factors. */
  function CellsA(score: Gains -> Candidate, base: Gains, n: nat): (cs: seq<Candidate>)
    requires n <= 5
    ensures |cs| == 25 * n
  {
    if n == 0 then [] else CellsA(score, base, n - 1) + CellsB(score, base, n - 1, 5)
  }

  /** Every point of the grid, scored, in loop order. */
  function Grid(score: Gains -> Candidate, base: Gains): seq<Candidate>
  {
    CellsA(score, base, 5)
  }

  lemma {:induction false} CellsCAt(score: Gains -> Candidate, base: Gains, a: nat, b: nat, n: nat, c: nat)
    requires a < 5 && b < 5 && c < n <= 5
    ensures CellsC(score, base, a, b, n)[c] == score(GainsAt(base, a, b, c))
  {
    if c < n - 1 {
      CellsCAt(score, base, a, b, n - 1, c);
    }
  }

  lemma {:induction false} CellsBAt(score: Gains -> Candidate, base: Gains, a: nat, n: nat, b: nat, c: nat)
    requires a < 5 && b < n <= 5 && c < 5
    ensures CellsB(score, base, a, n)[5 * b + c] == score(GainsAt(base, a, b, c))
  {
    if b < n - 1 {
      CellsBAt(score, base, a, n - 1, b, c);
    } else {
      CellsCAt(score, base, a, b, 5, c);
    }
  }

  lemma {:induction false} CellsAAt(score: Gains -> Candidate, base: Gains, n: nat, a: nat, b: nat, c: nat)
    requires a < n <= 5 && b < 5 && c < 5
    ensures CellsA(score, base, n)[25 * a + 5 * b + c] == score(GainsAt(base, a, b, c))
  {
    if a < n - 1 {
      CellsAAt(score, base, n - 1, a, b, c);
    } else {
      CellsBAt(score, base, a, 5, b, c);
    }
  }

  /** The grid has 125 candidates, and candidate `25 a + 5 b + c` is the
      score of the gains with factors `a`, `b` and `c`. */
  lemma GridAt(score: Gains -> Candidate, base: Gains, a: nat, b: nat, c: nat)
    requires a < 5 && b < 5 && c < 5
    ensures |Grid(score, base)| == 125
    ensures Grid(score, base)[25 * a + 5 * b + c] == score(GainsAt(base, a, b, c))
  {
    CellsAAt(score, base, 5, a, b, c);
  }

  /** The table `update_feedforward` leaves: padded with zeros to the
      number of samples, each of the first slots moved by `alpha` times
      the tracking error of its sample. */
  function Accumulate(table: seq<real>, samples: seq<Sample>, alpha: real): (r: seq<real>)
    ensures |r| == Max(|table|, |samples|)
    ensures forall i | 0 <= i < |samples| ::
      r[i] == (if i < |table| then table[i] else 0.0) + alpha * TrackingError(samples[i])
    ensures forall i | |samples| <= i < |table| :: r[i] == table[i]
  {
    Partial(table, samples, alpha, |samples|)
  }

  /** The tracking error of a sample, `target_spd - speed`. */
  function TrackingError(s: Sample): real
  {
    Get(s, "target_spd", 0.0) - Get(s, "speed", 0.0)
  }

  /** The padded table with the first `n` slots updated. */
  function Partial(table: seq<real>, samples: seq<Sample>, alpha: real, n: nat): (r: seq<real>)
    requires n <= |samples|
    ensures |r| == if |table| < |samples| then |samples| else |table|
  {
    seq(if |table| < |samples| then |samples| else |table|, i requires 0 <= i =>
      (if i < |table| then table[i] else 0.0) + (if i < n then alpha * TrackingError(samples[i]) else 0.0))
  }

  /** Updating slot `n` to `v` takes the first `n` updates to the first `n + 1`. */
  lemma PartialStep(table: seq<real>, samples: seq<Sample>, alpha: real, n: nat, v: real)
    requires n < |samples|
    requires v == Partial(table, samples, alpha, n)[n] + alpha * TrackingError(samples[n])
    ensures Partial(table, samples, alpha, n + 1) == Partial(table, samples, alpha, n)[n := v]
  {
    var p, q := Partial(table, samples, alpha, n), Partial(table, samples, alpha, n + 1);
    var d := alpha * TrackingError(samples[n]);
    forall i | 0 <= i < |q|
      ensures q[i] == p[n := v][i]
    {
      var base := if i < |table| then table[i] else 0.0;
      if i == n {
        assert p[i] == base + 0.0 && q[i] == base + d;
      }
    }
  }

  /** Two updates with the same samples add their rates: the feedforward
      table integrates the error, so an update is not idempotent. */
  lemma AccumulateTwice(table: seq<real>, samples: seq<Sample>, alpha: real, beta: real)
    ensures Accumulate(Accumulate(table, samples, alpha), samples, beta) == Accumulate(table, samples, alpha + beta)
  {
    var l, r := Accumulate(Accumulate(table, samples, alpha), samples, beta), Accumulate(table, samples, alpha + beta);
    assert |l| == |r|;
    forall i | 0 <= i < |l|
      ensures l[i] == r[i]
    {
      if i < |samples| {
        var e := TrackingError(samples[i]);
        assert alpha * e + beta * e == (alpha + beta) * e;
      }
    }
  }

  lemma NotIdempotent(table: seq<real>, samples: seq<Sample>, alpha: real)
    requires samples != [] && alpha * TrackingError(samples[0]) != 0.0
    ensures Accumulate(Accumulate(table, samples, alpha), samples, alpha) != Accumulate(table, samples, alpha)
  {
    var once := Accumulate(table, samples, alpha);
    var twice := Accumulate(once, samples, alpha);
    assert twice[0] != once[0];
  }

  /** The `feedforward_table` list, which a compiled profile shares. */
  class FloatList {
    var items: seq<real>

    constructor ()
      ensures items == []
    {
      items := [];
    }
  }

  /** A compiled profile. Its feedforward table is the compiler's own list
      object, not a copy. */
  datatype Profile = Profile(profileId: string, pid: Gains, modelTable: seq<ModelRow>, feedforward: FloatList)

  /** `ControlCompiler`. The `experiments` and `last_report` fields, only
      ever reset, are not modelled. */
  class ControlCompiler {
    var logs: seq<Sample>
    var modelTable: seq<ModelRow>
    var tuningTable: seq<Candidate>
    var feedforward: FloatList
    var profile: Option<Profile>
    var sessionId: nat

    /** Every log entry has its timestamp. */
    ghost predicate Valid()
      reads this
    {
      Timed(logs)
    }

    constructor ()
      ensures Valid()
      ensures logs == [] && modelTable == [] && tuningTable == [] && profile == None && sessionId == 0
      ensures fresh(feedforward) && feedforward.items == []
    {
      logs := [];
      modelTable := [];
      tuningTable := [];
      feedforward := new FloatList();
      profile := None;
      sessionId := 0;
    }

    /** `reset`: everything emptied, a new feedforward list, the next
        session. */
    method Reset()
      modifies this
      ensures Valid()
      ensures logs == [] && modelTable == [] && tuningTable == [] && profile == None
      ensures sessionId == old(sessionId) + 1
      ensures fresh(feedforward) && feedforward.items == []
    {
      logs := [];
      modelTable := [];
      tuningTable := [];
      feedforward := new FloatList();
      profile := None;
      sessionId := sessionId + 1;
    }

    /** `ingest`: one entry appended, stamped with `timestamp` or else the
        clock reading `clock`. */
    method Ingest(telemetry: Sample, timestamp: Option<real>, context: Sample, clock: real)
      modifies this`logs
      ensures old(Valid()) ==> Valid()
      ensures logs == old(logs) + [LogEntry(if timestamp.Some? then timestamp.value else clock, telemetry, context)]
    {
      var t := if timestamp.Some? then timestamp.value else clock;
      var entry := map["t" := t] + telemetry;
      if context != map[] {
        entry := entry + context;
      } else {
        assert entry + context == entry;
      }
      logs := logs + [entry];
    }

    /** `slice_logs`: the entries within the optional bounds, in log
        order; the whole log when there are none. With a bound, every
        entry's "t" is read, so an entry without one raises `KeyError`. */
    function SliceLogs(start: Option<real>, end: Option<real>): (r: Result<seq<Sample>, CompilerError>)
      reads this
      ensures logs == [] ==> r == Ok([])
      ensures start.None? && end.None? ==> r == Ok(logs)
      ensures (start.Some? || end.Some?) && !Timed(logs) ==> r == Err(KeyError("t"))
      ensures Timed(logs) ==> r.Ok? && forall s :: s in r.value <==> s in logs && InWindow(s, start, end)
      ensures logs != [] && (start.Some? || end.Some?) && Timed(logs) ==> r == Ok(Window(logs, start, end))
    {
      WindowMembers(logs, start, end);
      if logs == [] then Ok([])
      else if start.None? && end.None? then Ok(logs)
      else if !Timed(logs) then Err(KeyError("t"))
      else Ok(Window(logs, start, end))
    }

    /** `build_model_table`: the log bucketed by speed and voltage bins,
        one row per bucket of at least five entries, stored and returned.
        A zero bin width divides by zero at the first entry; a bucket of
        at least five entries with one lacking "t" raises `KeyError` in
        `estimate_model`. Either exception leaves the stored table as it
        was. */
    method BuildModelTable(speedBin: real, voltageBin: real, num: Numerics)
      returns (result: Result<seq<ModelRow>, CompilerError>)
      modifies this`modelTable
      ensures speedBin == 0.0 || voltageBin == 0.0 ==>
        if logs == [] then result == Ok([]) && modelTable == []
        else result == Err(ZeroDivisionError) && modelTable == old(modelTable)
      ensures speedBin != 0.0 && voltageBin != 0.0 && Timed(logs) ==> result.Ok?
      ensures speedBin != 0.0 && voltageBin != 0.0 ==>
        if Estimable(Group(logs, speedBin, voltageBin))
        then result == Ok(Rows(Group(logs, speedBin, voltageBin), speedBin, voltageBin, num))
             && modelTable == result.value
        else result == Err(KeyError("t")) && modelTable == old(modelTable)
    {
      if speedBin == 0.0 || voltageBin == 0.0 {
        if logs == [] {
          modelTable := [];
          return Ok([]);
        }
        return Err(ZeroDivisionError);
      }
      var table := GroupLogs(logs, speedBin, voltageBin);
      if Timed(logs) {
        GroupTimed(logs, speedBin, voltageBin);
      }
      result := TableRows(table, speedBin, voltageBin, num);
      if result.Ok? {
        modelTable := result.value;
      }
    }

    /** `auto_tune`: nothing for no samples; otherwise the 125 gain
        combinations of the grid, in order, each simulated against the
        targets and scored, and the first of least cost. When the time
        step is not positive no simulation runs and the table is empty. */
    method AutoTune(samples: seq<Sample>, base: Gains, weight: Weights, limit: real, num: Numerics)
      returns (best: Option<Candidate>)
      requires Timed(samples)
      modifies this`tuningTable
      ensures samples == [] ==> best == None && tuningTable == old(tuningTable)
      ensures samples != [] ==>
        (tuningTable == if TuneStep(samples, num) > 0.0
                        then Grid(Scorer(TuneSetup(samples, weight, limit, num)), base) else [])
      ensures samples != [] ==>
        best == if tuningTable == [] then None else Some(tuningTable[FirstMin(tuningTable)])
    {
      if samples == [] {
        return None;
      }
      var times := Times(samples);
      var r := Column(samples, "target_spd", 0.0);
      var dt := if |times| > 1 then num.median(Diffs(times)) else 0.05;
      var model := EstimateModel(samples, "target_spd", "speed", num);
      var tau := if model.Some? then model.value.tau else 0.5;
      var su := Setup(times, r, tau, dt, weight, limit, num);
      assert su == TuneSetup(samples, weight, limit, num);
      var candidates: seq<Candidate>;
      if dt > 0.0 {
        ScorerScores(su);
        candidates := SearchGrid(Scorer(su), su, base);
      } else {
        candidates := SearchGrid(pid => Candidate(pid, 0.0, Metrics(0.0, 0.0, 0.0, 0.0, 0.0)), su, base);
      }
      best := if candidates == [] then None else Some(candidates[FirstMin(candidates)]);
      tuningTable := candidates;
    }

    /** The outer loop of the grid, over the kp factors. */
    method SearchGrid(ghost score: Gains -> Candidate, su: Setup, base: Gains) returns (candidates: seq<Candidate>)
      requires su.r != [] && |su.times| == |su.r|
      requires su.dt > 0.0 ==> Scoring(score, su)
      ensures candidates == if su.dt > 0.0 then Grid(score, base) else []
    {
      candidates := [];
      for a := 0 to 5
        invariant candidates == if su.dt > 0.0 then CellsA(score, base, a) else []
      {
        candidates := TryKi(score, candidates, su, base, a);
      }
    }

    /** The middle loop of the grid, over the ki factors, for the kp
        factor `a`. */
    method TryKi(ghost score: Gains -> Candidate, candidates: seq<Candidate>, su: Setup, base: Gains, a: nat)
      returns (next: seq<Candidate>)
      requires su.r != [] && |su.times| == |su.r| && a < 5
      requires su.dt > 0.0 ==> Scoring(score, su)
      ensures next == if su.dt > 0.0 then candidates + CellsB(score, base, a, 5) else candidates
    {
      next := candidates;
      for b := 0 to 5
        invariant next == if su.dt > 0.0 then candidates + CellsB(score, base, a, b) else candidates
      {
        next := TryKd(score, next, su, base, a, b);
      }
    }

    /** The innermost loop of the grid, over the kd factors, for the kp
        and ki factors `a` and `b`. */
    method TryKd(ghost score: Gains -> Candidate, candidates: seq<Candidate>, su: Setup, base: Gains, a: nat, b: nat)
      returns (next: seq<Candidate>)
      requires su.r != [] && |su.times| == |su.r| && a < 5 && b < 5
      requires su.dt > 0.0 ==> Scoring(score, su)
      ensures next == if su.dt > 0.0 then candidates + CellsC(score, base, a, b, 5) else candidates
    {
      next := candidates;
      for c := 0 to 5
        invariant next == if su.dt > 0.0 then candidates + CellsC(score, base, a, b, c) else candidates
      {
        next := TryGains(score, next, su, base, a, b, c);
      }
    }

    /** One pass of the innermost grid loop: the gains with factors `a`,
        `b`, `c` are tried and their candidate appended when simulated. */
    method TryGains(ghost score: Gains -> Candidate, candidates: seq<Candidate>, su: Setup, base: Gains,
                    a: nat, b: nat, c: nat)
      returns (next: seq<Candidate>)
      requires su.r != [] && |su.times| == |su.r| && a < 5 && b < 5 && c < 5
      requires su.dt > 0.0 ==> Scoring(score, su)
      ensures next == if su.dt > 0.0 then candidates + [score(GainsAt(base, a, b, c))] else candidates
    {
      var pid := GainsAt(base, a, b, c);
      var simulated, candidate := Evaluate(su, pid);
      next := candidates;
      if simulated {
        next := candidates + [candidate];
      }
    }

    /** The body of the grid loop for one gain combination: simulate,
        measure and score it, unless the simulation yields nothing. */
    method Evaluate(su: Setup, pid: Gains) returns (simulated: bool, candidate: Candidate)
      requires su.r != [] && |su.times| == |su.r|
      ensures simulated <==> su.dt > 0.0
      ensures simulated ==> candidate == Score(su, pid)
    {
      var ys, us := SimulatePid(su.r, su.tau, su.dt, pid, su.limit);
      if ys == [] {
        return false, Candidate(pid, 0.0, Metrics(0.0, 0.0, 0.0, 0.0, 0.0));
      }
      var metrics := ComputeMetrics(SimSamples(su.times, ys, su.r), "target_spd", "speed", su.num);
      var saturation := Saturated(us, su.limit) as real / |us| as real;
      var cost := Cost(su.weight, metrics.value, saturation);
      return true, Candidate(pid, cost, metrics.value);
    }

    /** `update_feedforward`: a new empty list for no samples; otherwise
        the table grows to the number of samples and each slot with a
        sample moves by `alpha` times its tracking error. The table is
        updated in place and the list object itself is returned, so a
        compiled profile and the caller see the change. */
    method UpdateFeedforward(samples: seq<Sample>, alpha: real) returns (r: FloatList)
      modifies feedforward
      ensures samples == [] ==> fresh(r) && r.items == [] && feedforward.items == old(feedforward.items)
      ensures samples != [] ==> r == feedforward
      ensures samples != [] ==> feedforward.items == Accumulate(old(feedforward.items), samples, alpha)
    {
      if samples == [] {
        r := new FloatList();
        return;
      }
      ghost var t0 := feedforward.items;
      var n := |samples|;
      if |feedforward.items| < n {
        feedforward.items := feedforward.items + seq(n - |feedforward.items|, _ => 0.0);
      }
      assert feedforward.items == Partial(t0, samples, alpha, 0);
      var i := 0;
      while i < n
        invariant 0 <= i <= n
        invariant feedforward.items == Partial(t0, samples, alpha, i)
      {
        var target := Get(samples[i], "target_spd", 0.0);
        var y := Get(samples[i], "speed", 0.0);
        var cur := feedforward.items;
        var v := cur[i] + alpha * (target - y);
        PartialStep(t0, samples, alpha, i, v);
        feedforward.items := cur[i := v];
        i := i + 1;
      }
      r := feedforward;
    }

    /** `compile_profile`: the profile records the current model table and
        shares the live feedforward list. */
    method CompileProfile(profileId: string, pid: Gains) returns (p: Profile)
      modifies this`profile
      ensures p == Profile(profileId, pid, modelTable, feedforward)
      ensures profile == Some(p)
    {
      p := Profile(profileId, pid, modelTable, feedforward);
      profile := Some(p);
    }
  }
}
